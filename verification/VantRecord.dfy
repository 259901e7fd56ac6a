/** VANTFS directory records: 64 bytes each, eight to a 512-byte block. */
module VantRecord {
  import opened Base
  import opened Numbers
  import opened PathText
  import opened FsSpec

  const BLOCK_SIZE := 512
  const ENTRY_SIZE := 64
  const NAME_BYTES := 32

  /** A directory entry; `name` is the whole 32-byte field, of which the first `nameLen` bytes are the name. */
  datatype DirectoryEntry = DirectoryEntry(
    slot: nat, inode: nat, len: nat, parent: nat, fileType: FileType, name: Bytes, nameLen: nat)
  {
    function Name(): Name
      requires nameLen <= |name|
    {
      name[..nameLen]
    }
  }

  /** A fresh entry: the inode is derived from the slot. */
  function NewEntry(slot: nat, parent: nat, name: Name, fileType: FileType): (e: DirectoryEntry)
    requires |name| <= NAME_BYTES
    ensures |e.name| == NAME_BYTES && e.nameLen == |name| && e.Name() == name
  {
    assert (name + Zeros(NAME_BYTES - |name|))[..|name|] == name;
    DirectoryEntry(slot, slot + 2, 0, parent, fileType, name + Zeros(NAME_BYTES - |name|), |name|)
  }

  /** The 64 bytes write_entry leaves on disk. */
  function EncodeRecord(e: DirectoryEntry): (r: Bytes)
    requires |e.name| == NAME_BYTES
    ensures |r| == ENTRY_SIZE
  {
    [1, e.nameLen % 256, if e.fileType == File then 1 else 2] + Zeros(5)
    + ToLe(e.inode, 8) + ToLe(e.len, 4) + ToLe(e.parent, 4) + e.name + Zeros(8)
  }

  /** One record as read_entries reads it: nothing, an entry, or corruption. */
  function DecodeRecord(slot: nat, r: Bytes): Result<Option<DirectoryEntry>, FsError>
    requires |r| == ENTRY_SIZE
  {
    if r[0] == 0 then Ok(None)
    else if r[1] == 0 || r[1] > NAME_BYTES then Err(Corrupt)
    else if r[2] > 2 then Err(Corrupt)
    else
      var parent := FromLe(r[20..24]);
      Ok(Some(DirectoryEntry(
        slot, FromLe(r[8..16]), FromLe(r[16..20]), if parent == 0 then 1 else parent,
        if r[2] == 2 then Directory else File, r[24..24 + NAME_BYTES], r[1])))
  }

  /** What a record can hold without loss. */
  predicate Encodable(e: DirectoryEntry)
  {
    && |e.name| == NAME_BYTES
    && 1 <= e.nameLen <= NAME_BYTES
    && e.inode < 0x1_0000_0000_0000_0000
    && e.len < 0x1_0000_0000
    && 1 <= e.parent < 0x1_0000_0000
  }

  lemma EncodedFields(e: DirectoryEntry)
    requires |e.name| == NAME_BYTES
    ensures var r := EncodeRecord(e);
            && r[0] == 1 && r[1] == e.nameLen % 256 && r[2] == (if e.fileType == File then 1 else 2)
            && FromLe(r[8..16]) == e.inode % 0x1_0000_0000_0000_0000
            && FromLe(r[16..20]) == e.len % 0x1_0000_0000
            && FromLe(r[20..24]) == e.parent % 0x1_0000_0000
            && r[24..56] == e.name
  {
    var r := EncodeRecord(e);
    assert r[8..16] == ToLe(e.inode, 8);
    assert r[16..20] == ToLe(e.len, 4);
    assert r[20..24] == ToLe(e.parent, 4);
    assert r[24..56] == e.name;
    LeRoundTrip(e.inode, 8);
    LeRoundTrip(e.len, 4);
    LeRoundTrip(e.parent, 4);
    Pow256Values();
  }

  /** An entry survives encoding and decoding exactly when each field fits its place in the record. */
  lemma RecordRoundTrip(e: DirectoryEntry)
    requires |e.name| == NAME_BYTES
    ensures DecodeRecord(e.slot, EncodeRecord(e)) == Ok(Some(e)) <==> Encodable(e)
  {
    hide EncodeRecord, FromLe, ToLe;
    EncodedFields(e);
  }

  /** A record is corrupt exactly when it is in use and its name length or its type is out of range. */
  lemma CorruptIff(slot: nat, r: Bytes)
    requires |r| == ENTRY_SIZE
    ensures DecodeRecord(slot, r) == Err(Corrupt) <==> r[0] != 0 && !(1 <= r[1] <= NAME_BYTES && r[2] <= 2)
    ensures DecodeRecord(slot, r) == Ok(None) <==> r[0] == 0
    ensures DecodeRecord(slot, r).Ok? && DecodeRecord(slot, r).value.Some? ==>
              var e := DecodeRecord(slot, r).value.value;
              e.slot == slot && 1 <= e.nameLen <= NAME_BYTES == |e.name| && e.parent != 0
  {
  }

  /** A record from before directories existed (type 0, parent 0) reads as a file in the root. */
  lemma LegacyRecord(slot: nat, r: Bytes)
    requires |r| == ENTRY_SIZE && r[0] != 0 && 1 <= r[1] <= NAME_BYTES && r[2] == 0 && r[20..24] == [0, 0, 0, 0]
    ensures var d := DecodeRecord(slot, r);
            d.Ok? && d.value.Some? && d.value.value.parent == 1 && d.value.value.fileType == File
  {
    ZeroFromLe(r[20..24]);
  }
}
