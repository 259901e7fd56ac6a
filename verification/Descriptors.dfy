/** Open files and pipe ends: descriptor numbers are unique, and a pipe counts its open ends and goes with the last. */
module Descriptors {
  import opened Base
  import opened FsSpec
  import opened Rings

  const MAX_OPEN_FILES: nat := 16
  const MAX_PIPES: nat := 8
  const FIRST_USER_FD: nat := 3

  datatype Descriptor =
    | FileAt(node: nat, offset: nat)
    | DirectoryAt(path: Bytes, offset: nat)
    | PipeRead(pipeId: nat)
    | PipeWrite(pipeId: nat)

  datatype OpenFile = OpenFile(pid: nat, fd: nat, descriptor: Descriptor)

  type Files = seq<Option<OpenFile>>
  type Pipes = seq<Option<PipeEnds>>

  datatype Fds = Fds(files: Files, pipes: Pipes, nextPipeId: nat)

  function NewPipe(id: nat, owner: nat): PipeEnds { PipeEnds(id, owner, 1, 1, [], [], []) }

  predicate IsPipeEnd(d: Descriptor) { d.PipeRead? || d.PipeWrite? }

  /** How many open descriptors are `d`. */
  function Count(files: Files, d: Descriptor): nat
  {
    if files == [] then 0
    else Count(files[..|files| - 1], d) + CountOne(files[|files| - 1], d)
  }

  function CountOne(file: Option<OpenFile>, d: Descriptor): nat
  {
    if file.Some? && file.value.descriptor == d then 1 else 0
  }

  lemma {:induction false} CountChange(files: Files, i: nat, file: Option<OpenFile>, d: Descriptor)
    requires i < |files|
    ensures Count(files[i := file], d) + CountOne(files[i], d) == Count(files, d) + CountOne(file, d)
  {
    var last := |files| - 1;
    if i == last {
      assert files[i := file][..last] == files[..last];
    } else {
      assert files[i := file][..last] == files[..last][i := file];
      CountChange(files[..last], i, file, d);
    }
  }

  lemma {:induction false} CountSome(files: Files, i: nat, d: Descriptor)
    requires i < |files| && files[i].Some? && files[i].value.descriptor == d
    ensures Count(files, d) > 0
  {
    if i < |files| - 1 { CountSome(files[..|files| - 1], i, d); }
  }

  lemma {:induction false} CountNone(files: Files, d: Descriptor)
    requires forall i | 0 <= i < |files| && files[i].Some? :: files[i].value.descriptor != d
    ensures Count(files, d) == 0
  {
    if files != [] { CountNone(files[..|files| - 1], d); }
  }

  // ----- Invariant -----

  /** A pipe end belongs to the owner of a pipe that exists. */
  ghost predicate EndOk(s: Fds, file: OpenFile)
  {
    IsPipeEnd(file.descriptor) ==>
      exists k :: 0 <= k < |s.pipes| && s.pipes[k].Some? && s.pipes[k].value.id == file.descriptor.pipeId &&
          s.pipes[k].value.owner == file.pid
  }

  /** A pipe counts its open ends, has at least one, and loses no byte. */
  ghost predicate PipeOk(s: Fds, pipe: PipeEnds)
  {
    && pipe.id < s.nextPipeId && Flows(pipe)
    && pipe.readers == Count(s.files, PipeRead(pipe.id)) && pipe.writers == Count(s.files, PipeWrite(pipe.id))
    && pipe.readers + pipe.writers > 0
  }

  /** A file is never read or written past the largest file there can be. */
  predicate OffsetOk(d: Descriptor) { d.FileAt? ==> d.offset <= MAX_FILE_SIZE }

  ghost predicate FdsOk(s: Fds)
  {
    && |s.files| == MAX_OPEN_FILES && |s.pipes| == MAX_PIPES
    && (forall i | 0 <= i < |s.files| && s.files[i].Some? :: OffsetOk(s.files[i].value.descriptor))
    && (forall i, j | 0 <= i < j < |s.files| && s.files[i].Some? && s.files[j].Some? ::
          (s.files[i].value.pid, s.files[i].value.fd) != (s.files[j].value.pid, s.files[j].value.fd))
    && (forall i | 0 <= i < |s.files| && s.files[i].Some? :: EndOk(s, s.files[i].value))
    && (forall k | 0 <= k < |s.pipes| && s.pipes[k].Some? :: PipeOk(s, s.pipes[k].value))
    && (forall k, l | 0 <= k < l < |s.pipes| && s.pipes[k].Some? && s.pipes[l].Some? ::
          s.pipes[k].value.id != s.pipes[l].value.id)
  }

  // ----- Choosing a descriptor number -----

  predicate Taken(files: Files, pid: nat, fd: nat)
  {
    exists i | 0 <= i < |files| :: files[i].Some? && files[i].value.pid == pid && files[i].value.fd == fd
  }

  /** The numbers a process uses. */
  ghost function UsedFds(files: Files, pid: nat): set<nat>
  {
    if files == [] then {}
    else
      var last := files[|files| - 1];
      UsedFds(files[..|files| - 1], pid) + if last.Some? && last.value.pid == pid then {last.value.fd} else {}
  }

  function Occupied(files: Files): nat
  {
    if files == [] then 0 else Occupied(files[..|files| - 1]) + if files[|files| - 1].Some? then 1 else 0
  }

  lemma {:induction false} UsedIff(files: Files, pid: nat, fd: nat)
    ensures fd in UsedFds(files, pid) <==> Taken(files, pid, fd)
  {
    if files != [] {
      var front, last := files[..|files| - 1], files[|files| - 1];
      UsedIff(front, pid, fd);
      if i :| 0 <= i < |front| && front[i].Some? && front[i].value.pid == pid && front[i].value.fd == fd {
        assert files[i] == front[i];
      }
      if i :| 0 <= i < |files| && files[i].Some? && files[i].value.pid == pid && files[i].value.fd == fd {
        if i < |front| { assert front[i] == files[i]; }
      }
    }
  }

  lemma {:induction false} UsedAtMost(files: Files, pid: nat)
    ensures |UsedFds(files, pid)| <= Occupied(files) <= |files|
  {
    if files != [] { UsedAtMost(files[..|files| - 1], pid); }
  }

  lemma {:induction false} OccupiedLess(files: Files, i: nat)
    requires i < |files| && files[i].None?
    ensures Occupied(files) < |files|
  {
    UsedAtMost(files[..|files| - 1], 0);
    if i < |files| - 1 { OccupiedLess(files[..|files| - 1], i); }
  }

  lemma {:induction false} OccupiedTwoLess(files: Files, i: nat, j: nat)
    requires i < j < |files| && files[i].None? && files[j].None?
    ensures Occupied(files) + 1 < |files|
  {
    if j < |files| - 1 {
      OccupiedTwoLess(files[..|files| - 1], i, j);
    } else {
      OccupiedLess(files[..|files| - 1], i);
    }
  }

  /** The numbers from FIRST_USER_FD up to `end`. */
  ghost function Window(end: nat): (w: set<nat>)
    requires end >= FIRST_USER_FD
    ensures |w| == end - FIRST_USER_FD && forall x :: x in w <==> FIRST_USER_FD <= x < end
    decreases end
  {
    if end == FIRST_USER_FD then {} else Window(end - 1) + {end - 1}
  }

  const FD_END: nat := FIRST_USER_FD + MAX_OPEN_FILES

  /** While a table slot is free, some number is free for every process. */
  lemma FreeSlotFreeFd(files: Files, pid: nat, i: nat)
    requires |files| == MAX_OPEN_FILES && i < |files| && files[i].None?
    ensures exists fd :: FIRST_USER_FD <= fd < FD_END && !Taken(files, pid, fd)
  {
    if forall fd | FIRST_USER_FD <= fd < FD_END :: Taken(files, pid, fd) {
      forall fd | fd in Window(FD_END) ensures fd in UsedFds(files, pid) { UsedIff(files, pid, fd); }
      SubsetSize(Window(FD_END), UsedFds(files, pid));
      UsedAtMost(files, pid);
      OccupiedLess(files, i);
      assert false;
    }
  }

  /** While two are free, a second number is free besides any first. */
  lemma TwoSlotsTwoFds(files: Files, pid: nat, i: nat, j: nat, other: nat)
    requires |files| == MAX_OPEN_FILES && i < j < |files| && files[i].None? && files[j].None?
    ensures exists fd :: FIRST_USER_FD <= fd < FD_END && fd != other && !Taken(files, pid, fd)
  {
    if forall fd | FIRST_USER_FD <= fd < FD_END && fd != other :: Taken(files, pid, fd) {
      var w := Window(FD_END) - {other};
      forall fd | fd in w ensures fd in UsedFds(files, pid) { UsedIff(files, pid, fd); }
      SubsetSize(w, UsedFds(files, pid));
      UsedAtMost(files, pid);
      OccupiedTwoLess(files, i, j);
      assert false;
    }
  }

  // ----- Steps -----

  /** next_fd_for_pid(_excluding): the least free number from `fd` on. */
  function NextFd(files: Files, pid: nat, excluded: Option<nat>, fd: nat := FIRST_USER_FD): (r: Option<nat>)
    requires fd <= FD_END
    ensures r.Some? ==> fd <= r.value < FD_END && !Taken(files, pid, r.value) && excluded != r
    ensures r.Some? ==> forall x | fd <= x < r.value :: Taken(files, pid, x) || excluded == Some(x)
    ensures r.None? ==> forall x | fd <= x < FD_END :: Taken(files, pid, x) || excluded == Some(x)
    decreases FD_END - fd
  {
    if fd == FD_END then None
    else if !Taken(files, pid, fd) && excluded != Some(fd) then Some(fd)
    else NextFd(files, pid, excluded, fd + 1)
  }

  /** The first empty entry from `from` on. */
  function FreeIndex<T>(table: seq<Option<T>>, from: nat := 0): (r: Option<nat>)
    requires from <= |table|
    ensures r.Some? ==> from <= r.value < |table| && table[r.value].None?
    ensures r.Some? ==> forall j | from <= j < r.value :: table[j].Some?
    ensures r.None? ==> forall j | from <= j < |table| :: table[j].Some?
    decreases |table| - from
  {
    if from == |table| then None else if table[from].None? then Some(from) else FreeIndex(table, from + 1)
  }

  /** open_file, once the path has led to a file or directory. */
  function Open(s: Fds, pid: nat, d: Descriptor): (r: (Fds, Result<nat, IpcError>))
  {
    match NextFd(s.files, pid, None)
    case None => (s, Err(InvalidArgument))
    case Some(fd) =>
      match FreeIndex(s.files)
      case None => (s, Err(InvalidArgument))
      case Some(i) => (s.(files := s.files[i := Some(OpenFile(pid, fd, d))]), Ok(fd))
  }

  /** create_pipe: both numbers and both slots are found before anything changes; a full pipe table uses up an ID. */
  function CreatePipe(s: Fds, pid: nat): (r: (Fds, Result<(nat, nat), IpcError>))
  {
    match NextFd(s.files, pid, None)
    case None => (s, Err(InvalidArgument))
    case Some(readFd) =>
      match NextFd(s.files, pid, Some(readFd))
      case None => (s, Err(InvalidArgument))
      case Some(writeFd) =>
        match FreeIndex(s.files)
        case None => (s, Err(InvalidArgument))
        case Some(i) =>
          match FreeIndex(s.files, i + 1)
          case None => (s, Err(InvalidArgument))
          case Some(j) =>
            var id := s.nextPipeId;
            match FreeIndex(s.pipes)
            case None => (s.(nextPipeId := id + 1), Err(WouldBlock))
            case Some(k) =>
              (Fds(s.files[i := Some(OpenFile(pid, readFd, PipeRead(id)))]
                          [j := Some(OpenFile(pid, writeFd, PipeWrite(id)))],
                   s.pipes[k := Some(NewPipe(id, pid))], id + 1),
               Ok((readFd, writeFd)))
  }

  /** The first entry from `from` on that is there and passes the test. */
  function Find<T>(table: seq<Option<T>>, test: T -> bool, from: nat): (r: Option<nat>)
    requires from <= |table|
    ensures r.Some? ==> from <= r.value < |table| && table[r.value].Some? && test(table[r.value].value)
    ensures r.None? ==> forall k | from <= k < |table| && table[k].Some? :: !test(table[k].value)
    decreases |table| - from
  {
    if from == |table| then None
    else if table[from].Some? && test(table[from].value) then Some(from)
    else Find(table, test, from + 1)
  }

  function FindPipe(pipes: Pipes, id: nat, owner: nat, from: nat := 0): (r: Option<nat>)
    requires from <= |pipes|
    ensures r.Some? ==> from <= r.value < |pipes| && pipes[r.value].Some?
    ensures r.Some? ==> pipes[r.value].value.id == id && pipes[r.value].value.owner == owner
    ensures r.None? ==> forall k | from <= k < |pipes| && pipes[k].Some? ::
              !(pipes[k].value.id == id && pipes[k].value.owner == owner)
  {
    Find(pipes, (p: PipeEnds) => p.id == id && p.owner == owner, from)
  }

  function LessOne(n: nat): nat { if n == 0 then 0 else n - 1 }

  /** close_descriptor: one end less; the pipe goes with its last end. */
  function CloseEnd(pipes: Pipes, pid: nat, d: Descriptor): Pipes
  {
    if !IsPipeEnd(d) then pipes
    else
      match FindPipe(pipes, d.pipeId, pid)
      case None => pipes
      case Some(k) =>
        var p := pipes[k].value;
        var p' := if d.PipeRead? then p.(readers := LessOne(p.readers)) else p.(writers := LessOne(p.writers));
        pipes[k := if p'.readers == 0 && p'.writers == 0 then None else Some(p')]
  }

  function CloseAt(s: Fds, i: nat): Fds
    requires i < |s.files|
  {
    if s.files[i].None? then s
    else s.(files := s.files[i := None], pipes := CloseEnd(s.pipes, s.files[i].value.pid, s.files[i].value.descriptor))
  }

  function FindFile(files: Files, pid: nat, fd: nat, from: nat := 0): (r: Option<nat>)
    requires from <= |files|
    ensures r.Some? ==> from <= r.value < |files| && files[r.value].Some?
    ensures r.Some? ==> files[r.value].value.pid == pid && files[r.value].value.fd == fd
    ensures r.None? ==> forall k | from <= k < |files| && files[k].Some? ::
              !(files[k].value.pid == pid && files[k].value.fd == fd)
  {
    Find(files, (f: OpenFile) => f.pid == pid && f.fd == fd, from)
  }

  function CloseFd(s: Fds, pid: nat, fd: nat): (Fds, Result<nat, IpcError>)
  {
    match FindFile(s.files, pid, fd)
    case None => (s, Err(InvalidArgument))
    case Some(i) => (CloseAt(s, i), Ok(0))
  }

  /** The descriptor's offset moves on by `n`. */
  function Advance(s: Fds, i: nat, n: nat): Fds
    requires i < |s.files| && s.files[i].Some? && s.files[i].value.descriptor.FileAt?
  {
    var f := s.files[i].value;
    s.(files := s.files[i := Some(f.(descriptor := FileAt(f.descriptor.node, f.descriptor.offset + n)))])
  }

  /**
    read_fd_to_user on a file or a pipe. What the file holds at that moment is `content`: the file system may do
    anything between two reads.
   */
  function ReadFd(s: Fds, pid: nat, fd: nat, content: Bytes, want: nat): (r: (Fds, Result<Bytes, IpcError>))
  {
    match FindFile(s.files, pid, fd)
    case None => (s, Err(InvalidArgument))
    case Some(i) =>
      match s.files[i].value.descriptor
      case FileAt(_, offset) =>
        var got := ReadAt(content, offset, want);
        (Advance(s, i, |got|), Ok(got))
      case PipeRead(id) =>
        (match FindPipe(s.pipes, id, pid)
         case None => (s, Err(InvalidArgument))
         case Some(k) =>
           var (p, got) := Get(s.pipes[k].value, want);
           (s.(pipes := s.pipes[k := Some(p)]), got))
      case _ => (s, Err(InvalidArgument))
  }

  /** write_descriptor on a file or a pipe; a file takes the whole source or, past the size limit, nothing. */
  function WriteFd(s: Fds, pid: nat, fd: nat, source: Bytes): (r: (Fds, Result<nat, IpcError>))
  {
    match FindFile(s.files, pid, fd)
    case None => (s, Err(InvalidArgument))
    case Some(i) =>
      match s.files[i].value.descriptor
      case FileAt(_, offset) =>
        if offset + |source| > MAX_FILE_SIZE then (s, Err(InvalidArgument)) else (Advance(s, i, |source|), Ok(|source|))
      case PipeWrite(id) =>
        (match FindPipe(s.pipes, id, pid)
         case None => (s, Err(InvalidArgument))
         case Some(k) =>
           var (p, n) := Put(s.pipes[k].value, source);
           (s.(pipes := s.pipes[k := Some(p)]), n))
      case _ => (s, Err(InvalidArgument))
  }

  /** close_process_files, as far as descriptors go: the first `n` entries have been looked at. */
  function CloseProcess(s: Fds, pid: nat, n: nat): (r: Fds)
    requires n <= |s.files|
    ensures |r.files| == |s.files| && |r.pipes| == |s.pipes|
  {
    if n == 0 then s
    else
      var before := CloseProcess(s, pid, n - 1);
      if before.files[n - 1].Some? && before.files[n - 1].value.pid == pid then CloseAt(before, n - 1) else before
  }

  // ----- Steps keep the invariant -----

  lemma OpenKeeps(s: Fds, pid: nat, d: Descriptor)
    requires FdsOk(s) && !IsPipeEnd(d) && OffsetOk(d)
    ensures FdsOk(Open(s, pid, d).0)
  {
    var (s', r) := Open(s, pid, d);
    if r.Ok? {
      var i := FreeIndex(s.files).value;
      var file := Some(OpenFile(pid, r.value, d));
      assert s'.files == s.files[i := file];
      forall k | 0 <= k < |s.pipes| && s.pipes[k].Some? ensures PipeOk(s', s.pipes[k].value) {
        CountChange(s.files, i, file, PipeRead(s.pipes[k].value.id));
        CountChange(s.files, i, file, PipeWrite(s.pipes[k].value.id));
        assert PipeOk(s, s.pipes[k].value);
      }
      forall j | 0 <= j < |s'.files| && s'.files[j].Some? ensures EndOk(s', s'.files[j].value) {
        if j != i { assert EndOk(s, s.files[j].value); }
      }
    }
  }

  /** No descriptor refers to a pipe that is not there. */
  lemma NoStrayEnds(s: Fds, id: nat)
    requires FdsOk(s) && forall k | 0 <= k < |s.pipes| && s.pipes[k].Some? :: s.pipes[k].value.id != id
    ensures Count(s.files, PipeRead(id)) == 0 && Count(s.files, PipeWrite(id)) == 0
  {
    forall i | 0 <= i < |s.files| && s.files[i].Some?
      ensures s.files[i].value.descriptor != PipeRead(id) && s.files[i].value.descriptor != PipeWrite(id)
    {
      assert EndOk(s, s.files[i].value);
    }
    CountNone(s.files, PipeRead(id));
    CountNone(s.files, PipeWrite(id));
  }

  lemma CreatePipeKeeps(s: Fds, pid: nat)
    requires FdsOk(s)
    ensures FdsOk(CreatePipe(s, pid).0)
  {
    var (s', r) := CreatePipe(s, pid);
    if r.Ok? {
      PipeMade(s, pid);
    } else {
      forall k | 0 <= k < |s.pipes| && s.pipes[k].Some?
        ensures PipeOk(s', s.pipes[k].value)
      {
        assert PipeOk(s, s.pipes[k].value);
      }
      forall j | 0 <= j < |s.files| && s.files[j].Some?
        ensures EndOk(s', s.files[j].value)
      {
        assert EndOk(s, s.files[j].value);
      }
    }
  }

  lemma PipeMade(s: Fds, pid: nat)
    requires FdsOk(s) && CreatePipe(s, pid).1.Ok?
    ensures FdsOk(CreatePipe(s, pid).0)
  {
    hide CreatePipe, NextFd, FreeIndex, Taken, EndOk, PipeOk, OffsetOk;
    var (s', r) := CreatePipe(s, pid);
    var id := s.nextPipeId;
    var one, two := OpenFile(pid, r.value.0, PipeRead(id)), OpenFile(pid, r.value.1, PipeWrite(id));
    var i, j, k := PipePlaces(s, pid, one, two);
    FdsUnique(s.files, s'.files, i, j, one, two);
    EndsAdded(s, s', i, j, k, one, two);
    OffsetsKept(s.files, i, j, one, two);
    IdsBelow(s, id);
  }

  lemma OffsetsKept(files: Files, i: nat, j: nat, one: OpenFile, two: OpenFile)
    requires i < j < |files| && IsPipeEnd(one.descriptor) && IsPipeEnd(two.descriptor)
    requires forall l | 0 <= l < |files| && files[l].Some? :: OffsetOk(files[l].value.descriptor)
    ensures var files' := files[i := Some(one)][j := Some(two)];
            forall l | 0 <= l < |files'| && files'[l].Some? :: OffsetOk(files'[l].value.descriptor)
  {
  }

  lemma IdsBelow(s: Fds, id: nat)
    requires FdsOk(s) && id == s.nextPipeId
    ensures forall l | 0 <= l < |s.pipes| && s.pipes[l].Some? :: s.pipes[l].value.id < id
  {
    forall l | 0 <= l < |s.pipes| && s.pipes[l].Some?
      ensures s.pipes[l].value.id < id
    {
      assert PipeOk(s, s.pipes[l].value);
    }
  }

  /** Where create_pipe puts the two ends and the pipe. */
  lemma PipePlaces(s: Fds, pid: nat, one: OpenFile, two: OpenFile) returns (i: nat, j: nat, k: nat)
    requires CreatePipe(s, pid).1.Ok?
    requires one == OpenFile(pid, CreatePipe(s, pid).1.value.0, PipeRead(s.nextPipeId))
    requires two == OpenFile(pid, CreatePipe(s, pid).1.value.1, PipeWrite(s.nextPipeId))
    ensures i < j < |s.files| && k < |s.pipes| && s.files[i].None? && s.files[j].None? && s.pipes[k].None?
    ensures one.fd != two.fd && !Taken(s.files, pid, one.fd) && !Taken(s.files, pid, two.fd)
    ensures CreatePipe(s, pid).0 ==
            Fds(s.files[i := Some(one)][j := Some(two)], s.pipes[k := Some(NewPipe(s.nextPipeId, pid))],
                s.nextPipeId + 1)
  {
    hide Taken, NextFd, FreeIndex;
    i := FreeIndex(s.files).value;
    j := FreeIndex(s.files, i + 1).value;
    k := FreeIndex(s.pipes).value;
  }

  lemma FdsUnique(files: Files, files': Files, i: nat, j: nat, one: OpenFile, two: OpenFile)
    requires i < j < |files| && files' == files[i := Some(one)][j := Some(two)] && one.pid == two.pid &&
               one.fd != two.fd
    requires !Taken(files, one.pid, one.fd) && !Taken(files, two.pid, two.fd)
    requires forall a, b | 0 <= a < b < |files| && files[a].Some? && files[b].Some? ::
               (files[a].value.pid, files[a].value.fd) != (files[b].value.pid, files[b].value.fd)
    ensures forall a, b | 0 <= a < b < |files'| && files'[a].Some? && files'[b].Some? ::
              (files'[a].value.pid, files'[a].value.fd) != (files'[b].value.pid, files'[b].value.fd)
  {
  }

  lemma EndsAdded(s: Fds, s': Fds, i: nat, j: nat, k: nat, one: OpenFile, two: OpenFile)
    requires FdsOk(s) && i < j < |s.files| && k < |s.pipes| && s.files[i].None? && s.files[j].None? && s.pipes[k].None?
    requires var id := s.nextPipeId;
             && one.descriptor == PipeRead(id) && two.descriptor == PipeWrite(id) && one.pid == two.pid
             && s' == Fds(s.files[i := Some(one)][j := Some(two)], s.pipes[k := Some(NewPipe(id, one.pid))], id + 1)
    ensures forall l | 0 <= l < |s'.pipes| && s'.pipes[l].Some? :: PipeOk(s', s'.pipes[l].value)
    ensures forall l | 0 <= l < |s'.files| && s'.files[l].Some? :: EndOk(s', s'.files[l].value)
  {
    var id := s.nextPipeId;
    forall l | 0 <= l < |s.pipes| && s.pipes[l].Some?
      ensures s.pipes[l].value.id < id
    {
      assert PipeOk(s, s.pipes[l].value);
    }
    NoStrayEnds(s, id);
    forall d: Descriptor
      ensures Count(s'.files, d) == Count(s.files, d) + CountOne(Some(one), d) + CountOne(Some(two), d)
    {
      CountChange(s.files, i, Some(one), d);
      CountChange(s.files[i := Some(one)], j, Some(two), d);
    }
    hide Count;
    forall l | 0 <= l < |s'.pipes| && s'.pipes[l].Some? ensures PipeOk(s', s'.pipes[l].value) {
      if l != k { assert PipeOk(s, s.pipes[l].value); }
    }
    forall l | 0 <= l < |s'.files| && s'.files[l].Some? ensures EndOk(s', s'.files[l].value) {
      if l == i || l == j {
        assert s'.pipes[k].value.id == id;
      } else {
        PipesGrow(s, s'.pipes, k, s.files[l].value);
      }
    }
  }

  lemma PipesGrow(s: Fds, pipes: Pipes, k: nat, file: OpenFile)
    requires k < |s.pipes| == |pipes| && s.pipes[k].None?
    requires forall l | 0 <= l < |pipes| && l != k :: pipes[l] == s.pipes[l]
    requires EndOk(s, file)
    ensures EndOk(s.(pipes := pipes), file)
  {
    if IsPipeEnd(file.descriptor) {
      var l :| 0 <= l < |s.pipes| && s.pipes[l].Some? && s.pipes[l].value.id == file.descriptor.pipeId &&
          s.pipes[l].value.owner == file.pid;
      assert pipes[l] == s.pipes[l];
    }
  }

  // ----- Closing -----

  /** The pipe of an open end, found under the end's own process. */
  lemma EndPipe(s: Fds, i: nat) returns (k: nat)
    requires FdsOk(s) && i < |s.files| && s.files[i].Some? && IsPipeEnd(s.files[i].value.descriptor)
    ensures var f := s.files[i].value;
            && FindPipe(s.pipes, f.descriptor.pipeId, f.pid) == Some(k) && k < |s.pipes| && PipeOk(s, s.pipes[k].value)
            && (f.descriptor.PipeRead? ==> s.pipes[k].value.readers > 0)
            && (f.descriptor.PipeWrite? ==> s.pipes[k].value.writers > 0)
  {
    var f := s.files[i].value;
    assert EndOk(s, f);
    k := FindPipe(s.pipes, f.descriptor.pipeId, f.pid).value;
    assert PipeOk(s, s.pipes[k].value);
    CountSome(s.files, i, f.descriptor);
  }

  /** Closing an end of pipe `k`: its count drops by one, and the pipe is freed exactly when no end is left. */
  lemma ClosePipeEnd(s: Fds, i: nat, k: nat)
    requires FdsOk(s) && i < |s.files| && s.files[i].Some? && IsPipeEnd(s.files[i].value.descriptor)
    requires FindPipe(s.pipes, s.files[i].value.descriptor.pipeId, s.files[i].value.pid) == Some(k)
    ensures var s', id := CloseAt(s, i), s.pipes[k].value.id;
            && (forall l | 0 <= l < |s.pipes| && l != k :: s'.pipes[l] == s.pipes[l])
            && (s'.pipes[k].None? <==> Count(s'.files, PipeRead(id)) == 0 && Count(s'.files, PipeWrite(id)) == 0)
            && (s'.pipes[k].Some? ==> s'.pipes[k].value.id == id && s'.pipes[k].value.owner == s.pipes[k].value.owner)
            && (s'.pipes[k].Some? ==> PipeOk(s', s'.pipes[k].value))
  {
    hide Count, FindPipe;
    var l := EndPipe(s, i);
    var id := s.pipes[k].value.id;
    CountChange(s.files, i, None, PipeRead(id));
    CountChange(s.files, i, None, PipeWrite(id));
  }

  lemma CloseKeeps(s: Fds, i: nat)
    requires FdsOk(s) && i < |s.files|
    ensures FdsOk(CloseAt(s, i))
  {
    if s.files[i].Some? {
      hide FindPipe, PipeOk, EndOk, OffsetOk;
      var s', f := CloseAt(s, i), s.files[i].value;
      var k := 0;
      if IsPipeEnd(f.descriptor) { k := EndPipe(s, i); }
      CloseIds(s, i, k);
      forall l | 0 <= l < |s'.pipes| && s'.pipes[l].Some? ensures PipeOk(s', s'.pipes[l].value) {
        PipeStays(s, i, k, l);
      }
      forall j | 0 <= j < |s'.files| && s'.files[j].Some? ensures EndOk(s', s'.files[j].value) {
        EndStays(s, i, j, k);
      }
    }
  }

  lemma PipeStays(s: Fds, i: nat, k: nat, l: nat)
    requires FdsOk(s) && i < |s.files| && s.files[i].Some? && l < |s.pipes|
    requires IsPipeEnd(s.files[i].value.descriptor) ==>
               FindPipe(s.pipes, s.files[i].value.descriptor.pipeId, s.files[i].value.pid) == Some(k)
    ensures |CloseAt(s, i).pipes| == |s.pipes|
    ensures CloseAt(s, i).pipes[l].Some? ==> PipeOk(CloseAt(s, i), CloseAt(s, i).pipes[l].value)
  {
    if IsPipeEnd(s.files[i].value.descriptor) { ClosePipeEnd(s, i, k); }
    if (!IsPipeEnd(s.files[i].value.descriptor) || l != k) && s.pipes[l].Some? {
      assert PipeOk(s, s.pipes[l].value);
      CountChange(s.files, i, None, PipeRead(s.pipes[l].value.id));
      CountChange(s.files, i, None, PipeWrite(s.pipes[l].value.id));
    }
    hide Count, FindPipe;
  }

  lemma EndStays(s: Fds, i: nat, j: nat, k: nat)
    requires FdsOk(s) && i < |s.files| && s.files[i].Some? && j < |s.files| && j != i && s.files[j].Some?
    requires IsPipeEnd(s.files[i].value.descriptor) ==>
               FindPipe(s.pipes, s.files[i].value.descriptor.pipeId, s.files[i].value.pid) == Some(k)
    ensures EndOk(CloseAt(s, i), s.files[j].value)
  {
    var s', f := CloseAt(s, i), s.files[j].value;
    assert EndOk(s, f);
    if IsPipeEnd(f.descriptor) {
      var l :| 0 <= l < |s.pipes| && s.pipes[l].Some? && s.pipes[l].value.id == f.descriptor.pipeId &&
          s.pipes[l].value.owner == f.pid;
      if IsPipeEnd(s.files[i].value.descriptor) {
        ClosePipeEnd(s, i, k);
        CountSome(s'.files, j, f.descriptor);
      }
      assert s'.pipes[l].Some?;
    }
  }

  lemma CloseIds(s: Fds, i: nat, k: nat)
    requires FdsOk(s) && i < |s.files| && s.files[i].Some?
    requires IsPipeEnd(s.files[i].value.descriptor) ==>
               FindPipe(s.pipes, s.files[i].value.descriptor.pipeId, s.files[i].value.pid) == Some(k)
    ensures var pipes := CloseAt(s, i).pipes;
            && |pipes| == |s.pipes|
            && forall a, b | 0 <= a < b < |pipes| && pipes[a].Some? && pipes[b].Some? ::
                 pipes[a].value.id != pipes[b].value.id
  {
    if IsPipeEnd(s.files[i].value.descriptor) { ClosePipeEnd(s, i, k); }
    hide Count, PipeOk;
  }

  /** After close_process_files the process has no descriptor and no pipe; descriptors of others are untouched. */
  lemma {:induction false} CloseProcessFacts(s: Fds, pid: nat, n: nat)
    requires FdsOk(s) && n <= |s.files|
    ensures var s' := CloseProcess(s, pid, n);
            && FdsOk(s')
            && (forall i | 0 <= i < |s.files| ::
                  s'.files[i] == if i < n && s.files[i].Some? && s.files[i].value.pid == pid then None else s.files[i])
            && (forall k | 0 <= k < |s.pipes| && s.pipes[k].Some? && s.pipes[k].value.owner != pid ::
                  s'.pipes[k] == s.pipes[k])
  {
    if n > 0 {
      CloseProcessFacts(s, pid, n - 1);
      CloseKeeps(CloseProcess(s, pid, n - 1), n - 1);
    }
  }

  predicate IsEndOf(file: Option<OpenFile>, id: nat)
  {
    file.Some? && IsPipeEnd(file.value.descriptor) && file.value.descriptor.pipeId == id
  }

  /** A pipe lives as long as one of its ends, so none of the process's pipes survives it. */
  lemma NoPipeSurvives(s: Fds, pid: nat, k: nat)
    requires FdsOk(s) && k < |s.pipes|
    ensures var s' := CloseProcess(s, pid, |s.files|);
            s'.pipes[k].Some? ==> s'.pipes[k].value.owner != pid
  {
    var s' := CloseProcess(s, pid, |s.files|);
    CloseProcessFacts(s, pid, |s.files|);
    if s'.pipes[k].Some? {
      var id := s'.pipes[k].value.id;
      assert PipeOk(s', s'.pipes[k].value);
      if i :| 0 <= i < |s'.files| && IsEndOf(s'.files[i], id) {
        assert EndOk(s', s'.files[i].value);
      } else {
        assert forall i | 0 <= i < |s'.files| :: !IsEndOf(s'.files[i], id);
        CountNone(s'.files, PipeRead(id));
        CountNone(s'.files, PipeWrite(id));
        assert false;
      }
    }
  }

  /** A pipe can be made exactly when two table entries and a pipe slot are free: numbers never run out first. */
  lemma CreatePipeIff(s: Fds, pid: nat)
    requires FdsOk(s)
    ensures CreatePipe(s, pid).1.Ok? <==>
              && (exists i, j :: 0 <= i < j < |s.files| && s.files[i].None? && s.files[j].None?)
              && (exists k :: 0 <= k < |s.pipes| && s.pipes[k].None?)
  {
    if i, j :| 0 <= i < j < |s.files| && s.files[i].None? && s.files[j].None? {
      FreeSlotFreeFd(s.files, pid, i);
      var readFd := NextFd(s.files, pid, None).value;
      TwoSlotsTwoFds(s.files, pid, i, j, readFd);
    }
  }

  /** A file can be opened exactly while a table entry is free. */
  lemma OpenIff(s: Fds, pid: nat, d: Descriptor)
    requires FdsOk(s)
    ensures Open(s, pid, d).1.Ok? <==> exists i :: 0 <= i < |s.files| && s.files[i].None?
  {
    if i :| 0 <= i < |s.files| && s.files[i].None? { FreeSlotFreeFd(s.files, pid, i); }
  }

  // ----- Reading and writing -----

  /** An offset moves within the size limit: no pipe end is opened or closed by it. */
  lemma AdvanceKeeps(s: Fds, i: nat, n: nat)
    requires FdsOk(s) && i < |s.files| && s.files[i].Some? && s.files[i].value.descriptor.FileAt?
    requires s.files[i].value.descriptor.offset + n <= MAX_FILE_SIZE
    ensures FdsOk(Advance(s, i, n))
  {
    var s' := Advance(s, i, n);
    forall k | 0 <= k < |s.pipes| && s.pipes[k].Some? ensures PipeOk(s', s.pipes[k].value) {
      assert PipeOk(s, s.pipes[k].value);
      CountChange(s.files, i, s'.files[i], PipeRead(s.pipes[k].value.id));
      CountChange(s.files, i, s'.files[i], PipeWrite(s.pipes[k].value.id));
    }
    hide Count;
    forall j | 0 <= j < |s'.files| && s'.files[j].Some? ensures EndOk(s', s'.files[j].value) {
      if j != i { assert EndOk(s, s.files[j].value); }
    }
  }

  /** Bytes go through one pipe; ends and other pipes stay. */
  lemma FlowKeeps(s: Fds, k: nat, p: PipeEnds)
    requires FdsOk(s) && k < |s.pipes| && s.pipes[k].Some? && Flows(p)
    requires var q := s.pipes[k].value;
             p.id == q.id && p.owner == q.owner && p.readers == q.readers && p.writers == q.writers
    ensures FdsOk(s.(pipes := s.pipes[k := Some(p)]))
  {
    var s' := s.(pipes := s.pipes[k := Some(p)]);
    forall l | 0 <= l < |s'.pipes| && s'.pipes[l].Some? ensures PipeOk(s', s'.pipes[l].value) {
      assert PipeOk(s, s.pipes[l].value);
    }
    hide Count, Flows;
    forall j | 0 <= j < |s.files| && s.files[j].Some? ensures EndOk(s', s.files[j].value) {
      FlowKeepsEnd(s, k, p, s.files[j].value) by { assert EndOk(s, s.files[j].value); }
    }
  }

  lemma FlowKeepsEnd(s: Fds, k: nat, p: PipeEnds, file: OpenFile)
    requires k < |s.pipes| && s.pipes[k].Some? && p.id == s.pipes[k].value.id && p.owner == s.pipes[k].value.owner
    requires EndOk(s, file)
    ensures EndOk(s.(pipes := s.pipes[k := Some(p)]), file)
  {
    if IsPipeEnd(file.descriptor) {
      var l :| 0 <= l < |s.pipes| && s.pipes[l].Some? && s.pipes[l].value.id == file.descriptor.pipeId &&
          s.pipes[l].value.owner == file.pid;
      assert s.pipes[k := Some(p)][l].Some?;
    }
  }

  lemma ReadKeeps(s: Fds, pid: nat, fd: nat, content: Bytes, want: nat)
    requires FdsOk(s) && |content| <= MAX_FILE_SIZE
    ensures FdsOk(ReadFd(s, pid, fd, content, want).0)
  {
    var i := FindFile(s.files, pid, fd);
    if i.Some? {
      match s.files[i.value].value.descriptor
      case FileAt(_, offset) => AdvanceKeeps(s, i.value, |ReadAt(content, offset, want)|);
      case PipeRead(id) =>
        var k := FindPipe(s.pipes, id, pid);
        if k.Some? {
          assert PipeOk(s, s.pipes[k.value].value);
          FlowKeeps(s, k.value, Get(s.pipes[k.value].value, want).0);
        }
      case _ =>
    }
  }

  lemma WriteKeeps(s: Fds, pid: nat, fd: nat, source: Bytes)
    requires FdsOk(s)
    ensures FdsOk(WriteFd(s, pid, fd, source).0)
  {
    var i := FindFile(s.files, pid, fd);
    if i.Some? {
      match s.files[i.value].value.descriptor
      case FileAt(_, offset) => if offset + |source| <= MAX_FILE_SIZE { AdvanceKeeps(s, i.value, |source|); }
      case PipeWrite(id) =>
        var k := FindPipe(s.pipes, id, pid);
        if k.Some? {
          assert PipeOk(s, s.pipes[k.value].value);
          FlowKeeps(s, k.value, Put(s.pipes[k.value].value, source).0);
        }
      case _ =>
    }
  }

  // ----- Runs -----

  datatype FdOp =
    | DoOpen(pid: nat, d: Descriptor)
    | DoPipe(pid: nat)
    | DoRead(pid: nat, fd: nat, content: Bytes, want: nat)
    | DoWrite(pid: nat, fd: nat, source: Bytes)
    | DoClose(pid: nat, fd: nat)
    | DoExit(pid: nat)

  function DoFd(s: Fds, op: FdOp): Fds
  {
    match op
    case DoOpen(pid, d) => Open(s, pid, d).0
    case DoPipe(pid) => CreatePipe(s, pid).0
    case DoRead(pid, fd, content, want) => ReadFd(s, pid, fd, content, want).0
    case DoWrite(pid, fd, source) => WriteFd(s, pid, fd, source).0
    case DoClose(pid, fd) => CloseFd(s, pid, fd).0
    case DoExit(pid) => CloseProcess(s, pid, |s.files|)
  }

  ghost predicate FdRun(states: seq<Fds>, ops: seq<FdOp>)
  {
    && |states| == |ops| + 1
    && forall k | 0 <= k < |ops| ::
         && states[k + 1] == DoFd(states[k], ops[k])
         && (ops[k].DoOpen? ==> (ops[k].d.FileAt? || ops[k].d.DirectoryAt?) && ops[k].d.offset == 0)
         && (ops[k].DoRead? ==> |ops[k].content| <= MAX_FILE_SIZE)
  }

  function NoneOpen(): Fds
  {
    Fds(seq(16, i => None), seq(8, i => None), 1)
  }

  lemma {:induction false} RunKeepsFds(states: seq<Fds>, ops: seq<FdOp>, k: nat)
    requires FdRun(states, ops) && states[0] == NoneOpen() && k < |states|
    ensures FdsOk(states[k])
  {
    if k > 0 {
      RunKeepsFds(states, ops, k - 1);
      var s := states[k - 1];
      match ops[k - 1]
      case DoOpen(pid, d) => OpenKeeps(s, pid, d);
      case DoPipe(pid) => CreatePipeKeeps(s, pid);
      case DoRead(pid, fd, content, want) => ReadKeeps(s, pid, fd, content, want);
      case DoWrite(pid, fd, source) => WriteKeeps(s, pid, fd, source);
      case DoClose(pid, fd) => if FindFile(s.files, pid, fd).Some? { CloseKeeps(s, FindFile(s.files, pid, fd).value); }
      case DoExit(pid) => CloseProcessFacts(s, pid, |s.files|);
    }
  }

  // ----- The tables, changed in place -----

  class DescriptorTable {
    var files: Files
    var pipes: Pipes
    var nextPipeId: nat

    ghost function View(): Fds
      reads this
    {
      Fds(files, pipes, nextPipeId)
    }

    ghost predicate Valid()
      reads this
    {
      FdsOk(View())
    }

    constructor ()
      ensures Valid() && View() == NoneOpen()
    {
      files := seq(16, i => None);
      pipes := seq(8, i => None);
      nextPipeId := 1;
    }

    method IsTaken(pid: nat, fd: nat) returns (taken: bool)
      ensures taken == Taken(files, pid, fd)
    {
      for i := 0 to |files|
        invariant forall j | 0 <= j < i :: !(files[j].Some? && files[j].value.pid == pid && files[j].value.fd == fd)
      {
        if files[i].Some? && files[i].value.pid == pid && files[i].value.fd == fd { return true; }
      }
      return false;
    }

    /** next_fd_for_pid and next_fd_for_pid_excluding. */
    method ChooseFd(pid: nat, excluded: Option<nat>) returns (r: Option<nat>)
      ensures r == NextFd(files, pid, excluded)
    {
      var fd := FIRST_USER_FD;
      while fd < FD_END
        invariant FIRST_USER_FD <= fd <= FD_END
        invariant NextFd(files, pid, excluded, fd) == NextFd(files, pid, excluded)
      {
        var taken := IsTaken(pid, fd);
        if !taken && excluded != Some(fd) { return Some(fd); }
        fd := fd + 1;
      }
      return None;
    }

    method OpenTarget(pid: nat, d: Descriptor) returns (r: Result<nat, IpcError>)
      requires Valid() && !IsPipeEnd(d) && OffsetOk(d)
      modifies this
      ensures Valid() && (View(), r) == Open(old(View()), pid, d)
    {
      OpenKeeps(View(), pid, d);
      var fd := ChooseFd(pid, None);
      if fd.None? { return Err(InvalidArgument); }
      var slot := FreeIndex(files);
      if slot.None? { return Err(InvalidArgument); }
      files := files[slot.value := Some(OpenFile(pid, fd.value, d))];
      return Ok(fd.value);
    }

    method MakePipe(pid: nat) returns (r: Result<(nat, nat), IpcError>)
      requires Valid()
      modifies this
      ensures Valid() && (View(), r) == CreatePipe(old(View()), pid)
    {
      hide FdsOk, NextFd, FreeIndex, Taken;
      CreatePipeKeeps(View(), pid);
      var readFd := ChooseFd(pid, None);
      if readFd.None? { return Err(InvalidArgument); }
      var writeFd := ChooseFd(pid, Some(readFd.value));
      if writeFd.None? { return Err(InvalidArgument); }
      var readSlot := FreeIndex(files);
      if readSlot.None? { return Err(InvalidArgument); }
      var writeSlot := FreeIndex(files, readSlot.value + 1);
      if writeSlot.None? { return Err(InvalidArgument); }
      var id := nextPipeId;
      nextPipeId := nextPipeId + 1;
      var pipeSlot := FreeIndex(pipes);
      if pipeSlot.None? { return Err(WouldBlock); }
      pipes := pipes[pipeSlot.value := Some(NewPipe(id, pid))];
      files := files[readSlot.value := Some(OpenFile(pid, readFd.value, PipeRead(id)))];
      files := files[writeSlot.value := Some(OpenFile(pid, writeFd.value, PipeWrite(id)))];
      return Ok((readFd.value, writeFd.value));
    }

    /** The offset of a file's descriptor moves on. */
    method MoveOn(i: nat, n: nat)
      requires Valid() && i < |files| && files[i].Some? && files[i].value.descriptor.FileAt?
      requires files[i].value.descriptor.offset + n <= MAX_FILE_SIZE
      modifies this`files
      ensures Valid() && View() == Advance(old(View()), i, n)
    {
      AdvanceKeeps(View(), i, n);
      hide FdsOk;
      var file := files[i].value;
      files := files[i := Some(file.(descriptor := FileAt(file.descriptor.node, file.descriptor.offset + n)))];
    }

    /** read_fd_to_user on a descriptor that is not a file's. */
    method ReadPipe(pid: nat, fd: nat, want: nat) returns (r: Result<Bytes, IpcError>)
      requires Valid()
      requires !(FindFile(files, pid, fd).Some? && files[FindFile(files, pid, fd).value].value.descriptor.FileAt?)
      modifies this`pipes
      ensures Valid() && (View(), r) == ReadFd(old(View()), pid, fd, [], want)
    {
      ReadKeeps(View(), pid, fd, [], want);
      hide FdsOk, Find, FindFile, FindPipe, Get;
      var i := FindFile(files, pid, fd);
      if i.None? || !files[i.value].value.descriptor.PipeRead? { return Err(InvalidArgument); }
      var k := FindPipe(pipes, files[i.value].value.descriptor.pipeId, pid);
      if k.None? { return Err(InvalidArgument); }
      var (p, got) := Get(pipes[k.value].value, want);
      pipes := pipes[k.value := Some(p)];
      return got;
    }

    /** write_descriptor on a descriptor that is not a file's. */
    method WritePipe(pid: nat, fd: nat, source: Bytes) returns (r: Result<nat, IpcError>)
      requires Valid()
      requires !(FindFile(files, pid, fd).Some? && files[FindFile(files, pid, fd).value].value.descriptor.FileAt?)
      modifies this`pipes
      ensures Valid() && (View(), r) == WriteFd(old(View()), pid, fd, source)
    {
      WriteKeeps(View(), pid, fd, source);
      hide FdsOk, Find, FindFile, FindPipe, Put;
      var i := FindFile(files, pid, fd);
      if i.None? || !files[i.value].value.descriptor.PipeWrite? { return Err(InvalidArgument); }
      var k := FindPipe(pipes, files[i.value].value.descriptor.pipeId, pid);
      if k.None? { return Err(InvalidArgument); }
      var (p, n) := Put(pipes[k.value].value, source);
      pipes := pipes[k.value := Some(p)];
      return n;
    }

    /** close_descriptor */
    method CloseDescriptor(pid: nat, d: Descriptor)
      modifies this`pipes
      ensures pipes == CloseEnd(old(pipes), pid, d)
    {
      if !IsPipeEnd(d) { return; }
      for k := 0 to |pipes|
        invariant pipes == old(pipes)
        invariant FindPipe(pipes, d.pipeId, pid, k) == FindPipe(pipes, d.pipeId, pid)
      {
        if pipes[k].Some? && pipes[k].value.id == d.pipeId && pipes[k].value.owner == pid {
          var p := pipes[k].value;
          if d.PipeRead? { p := p.(readers := LessOne(p.readers)); } else { p := p.(writers := LessOne(p.writers)); }
          pipes := pipes[k := Some(p)];
          if p.readers == 0 && p.writers == 0 { pipes := pipes[k := None]; }
          return;
        }
      }
    }

    method CloseOne(pid: nat, fd: nat) returns (r: Result<nat, IpcError>)
      requires Valid()
      modifies this
      ensures Valid() && (View(), r) == CloseFd(old(View()), pid, fd)
    {
      for i := 0 to |files|
        invariant View() == old(View())
        invariant FindFile(files, pid, fd, i) == FindFile(files, pid, fd)
      {
        if files[i].Some? && files[i].value.pid == pid && files[i].value.fd == fd {
          CloseKeeps(View(), i);
          var file := files[i].value;
          files := files[i := None];
          CloseDescriptor(pid, file.descriptor);
          return Ok(0);
        }
      }
      return Err(InvalidArgument);
    }

    method CloseProcessFiles(pid: nat)
      requires Valid()
      modifies this
      ensures Valid() && View() == CloseProcess(old(View()), pid, |old(files)|)
      ensures forall i | 0 <= i < |files| && files[i].Some? :: files[i].value.pid != pid
      ensures forall k | 0 <= k < |pipes| && pipes[k].Some? :: pipes[k].value.owner != pid
    {
      for i := 0 to |files|
        invariant |files| == |old(files)| && View() == CloseProcess(old(View()), pid, i)
      {
        if files[i].Some? && files[i].value.pid == pid {
          var file := files[i].value;
          files := files[i := None];
          CloseDescriptor(pid, file.descriptor);
        }
      }
      CloseProcessFacts(old(View()), pid, |old(files)|);
      forall k | 0 <= k < |pipes| && pipes[k].Some?
        ensures pipes[k].value.owner != pid
      {
        NoPipeSurvives(old(View()), pid, k);
      }
    }
  }
}
