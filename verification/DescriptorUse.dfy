/** What a program sees through its descriptors: files read and written in order, and pipes from end to end. */
module DescriptorUse {
  import opened Base
  import opened FsSpec
  import opened Rings
  import opened Descriptors

  /** Entry `i` is the process's descriptor `fd`. */
  ghost predicate IsEntry(s: Fds, pid: nat, fd: nat, i: nat)
  {
    i < |s.files| && s.files[i].Some? && s.files[i].value.pid == pid && s.files[i].value.fd == fd
  }

  lemma EntryFound(s: Fds, pid: nat, fd: nat, i: nat)
    requires FdsOk(s) && IsEntry(s, pid, fd, i)
    ensures FindFile(s.files, pid, fd) == Some(i)
  {
    hide Count, EndOk, PipeOk, OffsetOk, Find;
  }

  /** What is opened is found again under its number, the least the process does not use; other entries stay. */
  lemma OpenedIs(s: Fds, pid: nat, d: Descriptor) returns (i: nat)
    requires FdsOk(s) && !IsPipeEnd(d) && OffsetOk(d) && Open(s, pid, d).1.Ok?
    ensures var (s', fd) := Open(s, pid, d);
            && FindFile(s'.files, pid, fd.value) == Some(i) && i < |s'.files| && s'.files[i].value.descriptor == d
            && s.files[i].None? && OthersKept(s, s', i)
            && FIRST_USER_FD <= fd.value && !Taken(s.files, pid, fd.value)
            && forall n | FIRST_USER_FD <= n < fd.value :: Taken(s.files, pid, n)
  {
    hide FdsOk, NextFd, FreeIndex, Taken, FindFile;
    i := FreeIndex(s.files).value;
    OpenKeeps(s, pid, d);
    EntryFound(Open(s, pid, d).0, pid, Open(s, pid, d).1.value, i);
  }

  // ----- Files -----

  /** The position of an open file. */
  ghost predicate FileIsAt(s: Fds, pid: nat, fd: nat, i: nat, offset: nat)
  {
    IsEntry(s, pid, fd, i) && s.files[i].value.descriptor.FileAt? && s.files[i].value.descriptor.offset == offset
  }

  /** The entries of other descriptors. */
  ghost predicate OthersKept(s: Fds, s': Fds, i: nat)
  {
    |s'.files| == |s.files| && s'.pipes == s.pipes && forall j | 0 <= j < |s.files| && j != i ::
        s'.files[j] == s.files[j]
  }

  /** A read returns the file from the position on and moves the position behind what it returned. */
  lemma ReadMoves(s: Fds, pid: nat, fd: nat, i: nat, offset: nat, content: Bytes, want: nat)
    requires FdsOk(s) && FileIsAt(s, pid, fd, i, offset)
    ensures var (s', got) := ReadFd(s, pid, fd, content, want);
            && got == Ok(ReadAt(content, offset, want))
            && FileIsAt(s', pid, fd, i, offset + |got.value|) && OthersKept(s, s', i)
            && s'.files[i].value.descriptor.node == s.files[i].value.descriptor.node
  {
    hide FdsOk, Find, FindFile, FindPipe, ReadAt;
    EntryFound(s, pid, fd, i);
  }

  /** Two reads in a row return what one read of both sizes returns. */
  lemma ReadsInARow(s: Fds, pid: nat, fd: nat, i: nat, offset: nat, content: Bytes, m: nat, n: nat)
    requires FdsOk(s) && FileIsAt(s, pid, fd, i, offset) && |content| <= MAX_FILE_SIZE
    ensures var (s', first) := ReadFd(s, pid, fd, content, m);
            var (s'', second) := ReadFd(s', pid, fd, content, n);
            && first.Ok? && second.Ok?
            && first.value + second.value == ReadAt(content, offset, m + n)
            && FileIsAt(s'', pid, fd, i, offset + |first.value| + |second.value|)
  {
    hide FdsOk, ReadFd, ReadAt;
    ReadMoves(s, pid, fd, i, offset, content, m);
    var s' := ReadFd(s, pid, fd, content, m).0;
    ReadKeeps(s, pid, fd, content, m);
    ReadMoves(s', pid, fd, i, offset + |ReadAt(content, offset, m)|, content, n);
    SlicesJoin(content, offset, m, n);
  }

  lemma SlicesJoin(content: Bytes, offset: nat, m: nat, n: nat)
    ensures var first := ReadAt(content, offset, m);
            first + ReadAt(content, offset + |first|, n) == ReadAt(content, offset, m + n)
  {
  }

  /** A write that fits moves the position behind what it wrote; one that does not leaves it. */
  lemma WriteMoves(s: Fds, pid: nat, fd: nat, i: nat, offset: nat, source: Bytes)
    requires FdsOk(s) && FileIsAt(s, pid, fd, i, offset)
    ensures var (s', n) := WriteFd(s, pid, fd, source);
            if offset + |source| <= MAX_FILE_SIZE
            then n == Ok(|source|) && FileIsAt(s', pid, fd, i, offset + |source|) && OthersKept(s, s', i)
            else n == Err(InvalidArgument) && s' == s
  {
    hide FdsOk, Find, FindFile, FindPipe;
    EntryFound(s, pid, fd, i);
  }

  /** Two writes in a row leave what one write of both sources leaves. */
  lemma WritesInARow(s: Fds, pid: nat, fd: nat, i: nat, offset: nat, content: Bytes, a: Bytes, b: Bytes)
    requires FdsOk(s) && FileIsAt(s, pid, fd, i, offset) && offset + |a| + |b| <= MAX_FILE_SIZE
    ensures var (s', first) := WriteFd(s, pid, fd, a);
            var (s'', second) := WriteFd(s', pid, fd, b);
            && first == Ok(|a|) && second == Ok(|b|) && FileIsAt(s', pid, fd, i, offset + |a|)
            && s'' == WriteFd(s, pid, fd, a + b).0
    ensures Overlay(Overlay(content, offset, a), offset + |a|, b) == Overlay(content, offset, a + b)
  {
    hide FdsOk, WriteFd;
    WriteMoves(s, pid, fd, i, offset, a);
    WriteKeeps(s, pid, fd, a);
    var s' := WriteFd(s, pid, fd, a).0;
    WriteMoves(s', pid, fd, i, offset + |a|, b);
    WriteMoves(s, pid, fd, i, offset, a + b);
    SameFiles(s, pid, fd, i, a, b);
  }

  lemma SameFiles(s: Fds, pid: nat, fd: nat, i: nat, a: Bytes, b: Bytes)
    requires FdsOk(s) && IsEntry(s, pid, fd, i) && s.files[i].value.descriptor.FileAt?
    requires s.files[i].value.descriptor.offset + |a| + |b| <= MAX_FILE_SIZE
    requires FdsOk(WriteFd(s, pid, fd, a).0) && IsEntry(WriteFd(s, pid, fd, a).0, pid, fd, i)
    ensures WriteFd(WriteFd(s, pid, fd, a).0, pid, fd, b).0 == WriteFd(s, pid, fd, a + b).0
  {
    hide FdsOk, Find, FindFile, FindPipe;
    EntryFound(s, pid, fd, i);
    EntryFound(WriteFd(s, pid, fd, a).0, pid, fd, i);
  }

  // ----- Pipes -----

  /** Descriptor `fd` is the writing end, or the reading end, of pipe `k`. */
  ghost predicate IsEnd(s: Fds, pid: nat, fd: nat, i: nat, k: nat, writing: bool)
  {
    && IsEntry(s, pid, fd, i) && k < |s.pipes| && s.pipes[k].Some? && s.pipes[k].value.owner == pid
    && s.files[i].value.descriptor ==
       if writing then PipeWrite(s.pipes[k].value.id) else PipeRead(s.pipes[k].value.id)
  }

  /** An end is found together with its pipe, which counts it. */
  lemma EndFound(s: Fds, pid: nat, fd: nat, i: nat, k: nat, writing: bool)
    requires FdsOk(s) && IsEnd(s, pid, fd, i, k, writing)
    ensures FindFile(s.files, pid, fd) == Some(i) && FindPipe(s.pipes, s.pipes[k].value.id, pid) == Some(k)
    ensures Flows(s.pipes[k].value)
    ensures if writing then s.pipes[k].value.writers > 0 else s.pipes[k].value.readers > 0
  {
    hide Find;
    EntryFound(s, pid, fd, i);
    var l := EndPipe(s, i);
    assert PipeOk(s, s.pipes[k].value);
  }

  lemma EndsAre(s: Fds, pid: nat, fd: nat, i: nat, k: nat, bytes: Bytes, want: nat)
    requires FdsOk(s)
    ensures IsEnd(s, pid, fd, i, k, true) ==>
              WriteFd(s, pid, fd, bytes) ==
              (s.(pipes := s.pipes[k := Some(Put(s.pipes[k].value, bytes).0)]), Put(s.pipes[k].value, bytes).1)
    ensures IsEnd(s, pid, fd, i, k, false) ==>
              ReadFd(s, pid, fd, bytes, want) ==
              (s.(pipes := s.pipes[k := Some(Get(s.pipes[k].value, want).0)]), Get(s.pipes[k].value, want).1)
  {
    hide FdsOk, Find, FindFile, FindPipe, Put, Get;
    if IsEnd(s, pid, fd, i, k, true) { EndFound(s, pid, fd, i, k, true); }
    if IsEnd(s, pid, fd, i, k, false) { EndFound(s, pid, fd, i, k, false); }
  }

  /** What a pipe that held `held` holds after a write: as much of the source as fits goes behind it. */
  function Held(held: Bytes, source: Bytes): Bytes
    requires |held| <= PIPE_CAPACITY
  {
    held + source[..Min(|source|, PIPE_CAPACITY - |held|)]
  }

  /** A pipe just made: two numbers new to the process, for the two ends of an empty pipe. */
  lemma MadePipe(s: Fds, pid: nat) returns (i: nat, j: nat, k: nat)
    requires FdsOk(s) && CreatePipe(s, pid).1.Ok?
    ensures var (s', made) := CreatePipe(s, pid);
            var (r, w) := made.value;
            && IsEnd(s', pid, r, i, k, false) && IsEnd(s', pid, w, j, k, true) && s'.pipes[k].value.buffered == []
            && r != w && !Taken(s.files, pid, r) && !Taken(s.files, pid, w)
            && FIRST_USER_FD <= r && FIRST_USER_FD <= w
  {
    hide FdsOk, NextFd, FreeIndex, Taken, CreatePipe;
    var (r, w) := CreatePipe(s, pid).1.value;
    var id := s.nextPipeId;
    i, j, k := PipePlaces(s, pid, OpenFile(pid, r, PipeRead(id)), OpenFile(pid, w, PipeWrite(id)));
    FdsAboveThree(s, pid);
  }

  lemma FdsAboveThree(s: Fds, pid: nat)
    requires CreatePipe(s, pid).1.Ok?
    ensures FIRST_USER_FD <= CreatePipe(s, pid).1.value.0 && FIRST_USER_FD <= CreatePipe(s, pid).1.value.1
  {
    hide NextFd, FreeIndex, Taken;
  }

  /** A write to the writing end takes what fits, while the reading end is open. */
  lemma WriteToPipe(s: Fds, pid: nat, w: nat, i: nat, r: nat, j: nat, k: nat, source: Bytes)
    requires FdsOk(s) && IsEnd(s, pid, w, i, k, true) && IsEnd(s, pid, r, j, k, false)
    ensures |s.pipes[k].value.buffered| <= PIPE_CAPACITY
    ensures var held := s.pipes[k].value.buffered;
            var (s', n) := WriteFd(s, pid, w, source);
            && n == (if |held| == PIPE_CAPACITY then Err(WouldBlock)
                     else Ok(Min(|source|, PIPE_CAPACITY - |held|)))
            && FdsOk(s') && IsEnd(s', pid, w, i, k, true) && IsEnd(s', pid, r, j, k, false)
            && s'.pipes[k].value.buffered == Held(held, source)
  {
    hide FdsOk, WriteFd;
    EndFound(s, pid, w, i, k, true);
    EndFound(s, pid, r, j, k, false);
    EndsAre(s, pid, w, i, k, source, 0);
    WriteKeeps(s, pid, w, source);
  }

  /**
    A write to the writing end and then a read from the reading end: the read returns what the pipe held before
    and then what was written, in order.
   */
  lemma PipeEndToEnd(s: Fds, pid: nat, w: nat, i: nat, r: nat, j: nat, k: nat, source: Bytes, content: Bytes, want: nat)
    requires FdsOk(s) && IsEnd(s, pid, w, i, k, true) && IsEnd(s, pid, r, j, k, false)
    ensures |s.pipes[k].value.buffered| <= PIPE_CAPACITY
    ensures var all := Held(s.pipes[k].value.buffered, source);
            var (s', got) := ReadFd(WriteFd(s, pid, w, source).0, pid, r, content, want);
            if all == [] then got == Err(WouldBlock)
            else
              && got == Ok(all[..Min(want, |all|)])
              && IsEnd(s', pid, r, j, k, false) && s'.pipes[k].value.buffered == all[Min(want, |all|)..]
  {
    hide FdsOk, WriteFd, ReadFd, Held;
    WriteToPipe(s, pid, w, i, r, j, k, source);
    var s' := WriteFd(s, pid, w, source).0;
    EndFound(s', pid, w, i, k, true);
    EndsAre(s', pid, r, j, k, content, want);
  }

  /** An empty pipe reads as ended exactly when no writing end is open any more; until then the reader must wait. */
  lemma EndOfPipeIff(s: Fds, pid: nat, r: nat, j: nat, k: nat, content: Bytes, want: nat)
    requires FdsOk(s) && IsEnd(s, pid, r, j, k, false) && s.pipes[k].value.buffered == []
    ensures var got := ReadFd(s, pid, r, content, want).1;
            got == if Count(s.files, PipeWrite(s.pipes[k].value.id)) == 0 then Ok([]) else Err(WouldBlock)
  {
    assert PipeOk(s, s.pipes[k].value);
    hide FdsOk, Find, FindFile, FindPipe, Count;
    EndFound(s, pid, r, j, k, false);
  }

  /** Closing succeeds exactly on an open descriptor, which is then gone; every other one stays. */
  lemma CloseIff(s: Fds, pid: nat, fd: nat)
    requires FdsOk(s)
    ensures var (s', r) := CloseFd(s, pid, fd);
            && r == (if Taken(s.files, pid, fd) then Ok(0) else Err(InvalidArgument))
            && !Taken(s'.files, pid, fd)
            && (r.Err? ==> s' == s)
            && forall p: nat, n: nat | (p, n) != (pid, fd) :: Taken(s'.files, p, n) <==> Taken(s.files, p, n)
  {
    if i :| 0 <= i < |s.files| && s.files[i].Some? && s.files[i].value.pid == pid && s.files[i].value.fd == fd {
      EntryFound(s, pid, fd, i);
      var s' := CloseAt(s, i);
      assert s'.files == s.files[i := None];
      hide Find, FindFile, CloseEnd, Count, EndOk, PipeOk, OffsetOk;
      forall p: nat, n: nat | (p, n) != (pid, fd) ensures Taken(s'.files, p, n) <==> Taken(s.files, p, n) {
        TakenOther(s.files, i, p, n);
      }
    }
  }

  lemma TakenOther(files: Files, i: nat, pid: nat, fd: nat)
    requires i < |files| && files[i].Some? && (files[i].value.pid, files[i].value.fd) != (pid, fd)
    ensures Taken(files[i := None], pid, fd) <==> Taken(files, pid, fd)
  {
    var less := files[i := None];
    if j :| 0 <= j < |files| && files[j].Some? && files[j].value.pid == pid && files[j].value.fd == fd {
      assert less[j] == files[j];
    }
    if j :| 0 <= j < |less| && less[j].Some? && less[j].value.pid == pid && less[j].value.fd == fd {
      assert files[j] == less[j];
    }
  }
}
