/** Reading and writing through descriptors: what keeps every offset inside the data array of the RAM store. */
module FileCalls {
  import opened Base
  import opened FsSpec
  import opened FsTree
  import opened Rings
  import opened Descriptors
  import RamFs

  /** What the descriptor's file holds now; nothing for other descriptors, and for files that are gone. */
  ghost function FileContent(s: Fds, pid: nat, fd: nat, paths: Paths, v: Volume): Option<Bytes>
  {
    match FindFile(s.files, pid, fd)
    case Some(i) =>
      (match s.files[i].value.descriptor
       case FileAt(node, _) =>
         (match ContentOf(paths, v, node)
          case Some(Data(bytes)) => Some(bytes)
          case _ => None)
       case _ => None)
    case None => None
  }

  /** The descriptor is a file's. */
  predicate IsFile(s: Fds, pid: nat, fd: nat)
  {
    FindFile(s.files, pid, fd).Some? && s.files[FindFile(s.files, pid, fd).value].value.descriptor.FileAt?
  }

  lemma OffsetBound(s: Fds, i: nat)
    requires FdsOk(s) && i < |s.files| && s.files[i].Some? && s.files[i].value.descriptor.FileAt?
    ensures s.files[i].value.descriptor.offset <= MAX_FILE_SIZE
  {
    assert OffsetOk(s.files[i].value.descriptor);
  }

  /** What a call on a file's descriptor finds and does. */
  lemma OnFile(s: Fds, pid: nat, fd: nat, paths: Paths, v: Volume, i: nat)
    requires FindFile(s.files, pid, fd) == Some(i) && s.files[i].value.descriptor.FileAt?
    ensures var d := s.files[i].value.descriptor;
            && FileContent(s, pid, fd, paths, v) == (match ContentOf(paths, v, d.node)
                                                     case Some(Data(bytes)) => Some(bytes)
                                                     case _ => None)
            && (forall content, want :: ReadFd(s, pid, fd, content, want) ==
                  (Advance(s, i, |ReadAt(content, d.offset, want)|), Ok(ReadAt(content, d.offset, want))))
            && (forall source {:trigger WriteFd(s, pid, fd, source)} :: d.offset + |source| <= MAX_FILE_SIZE ==>
                  WriteFd(s, pid, fd, source) == (Advance(s, i, |source|), Ok(|source|)))
            && (forall source {:trigger WriteFd(s, pid, fd, source)} :: d.offset + |source| > MAX_FILE_SIZE ==>
                  WriteFd(s, pid, fd, source) == (s, Err(InvalidArgument)))
  {
    hide Find, FindFile, FindPipe, Advance, ReadAt;
  }

  /** read_fd_to_user on a file of the RAM store: the store's read never stops the kernel. */
  method ReadFile(table: DescriptorTable, store: RamFs.WritableStore, pid: nat, fd: nat, want: nat)
    returns (r: Result<Bytes, IpcError>)
    requires table.Valid() && store.Valid() && IsFile(table.View(), pid, fd)
    modifies table`files
    ensures table.Valid()
    ensures var content := FileContent(old(table.View()), pid, fd, store.paths, store.volume);
            if content.None? then r == Err(InvalidArgument) && table.View() == old(table.View())
            else (table.View(), r) == ReadFd(old(table.View()), pid, fd, content.value, want)
  {
    hide FdsOk, RamFs.Lists, Represents, ValidVolume, ReadAt, ReadFd, FileContent, Find, FindFile, Advance;
    var i := FindFile(table.files, pid, fd).value;
    var d := table.files[i].value.descriptor;
    OffsetBound(table.View(), i);
    OnFile(table.View(), pid, fd, store.paths, store.volume, i);
    var got := store.Read(d.node, d.offset, want);
    if got.value.Err? { return Err(InvalidArgument); }
    ReadSmall(store, d.node, d.offset, want);
    table.MoveOn(i, |got.value.value|);
    return Ok(got.value.value);
  }

  /** A read from inside the data array ends inside it. */
  lemma ReadSmall(store: RamFs.WritableStore, node: Inode, offset: nat, want: nat)
    requires store.Valid() && offset <= MAX_FILE_SIZE
    ensures match ContentOf(store.paths, store.volume, node)
            case Some(Data(bytes)) => offset + |ReadAt(bytes, offset, want)| <= MAX_FILE_SIZE
            case _ => true
  {
  }

  /** A write through a file's descriptor: offset and file move together, or neither does. */
  ghost predicate Wrote(s: Fds, s': Fds, paths: Paths, v: Volume, v': Volume, pid: nat, fd: nat, source: Bytes,
                        r: Result<nat, IpcError>)
    requires IsFile(s, pid, fd)
  {
    var d := s.files[FindFile(s.files, pid, fd).value].value.descriptor;
    if FileContent(s, pid, fd, paths, v).None? then r == Err(InvalidArgument) && s' == s && v' == v
    else
      && (s', r) == WriteFd(s, pid, fd, source)
      && v' == if r.Err? then v else Written(paths, v, d.node, d.offset, source)
  }

  /** write_descriptor on a file of the RAM store. */
  method WriteFile(table: DescriptorTable, store: RamFs.WritableStore, pid: nat, fd: nat, source: Bytes)
    returns (r: Result<nat, IpcError>)
    requires table.Valid() && store.Valid() && IsFile(table.View(), pid, fd)
    modifies table`files, store
    ensures table.Valid() && store.Valid() && store.paths == old(store.paths)
    ensures Wrote(old(table.View()), table.View(), store.paths, old(store.volume), store.volume, pid, fd, source, r)
  {
    hide FdsOk, RamFs.Lists, Represents, ValidVolume, WriteFd, FileContent, Find, FindFile, Advance, Overlay;
    var i := FindFile(table.files, pid, fd).value;
    var d := table.files[i].value.descriptor;
    OnFile(table.View(), pid, fd, store.paths, store.volume, i);
    var written := store.Write(d.node, d.offset, source);
    if written.Err? { return Err(InvalidArgument); }
    table.MoveOn(i, |source|);
    return Ok(|source|);
  }
}
