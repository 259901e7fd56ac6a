/** Pipes and message queues: fixed rings that deliver what was accepted, in order, across every wrap. */
module Rings {
  import opened Base

  const PIPE_CAPACITY: nat := 256
  const MESSAGE_QUEUE_DEPTH: nat := 8
  const MAX_MESSAGE_SIZE: nat := 64

  datatype IpcError = InvalidArgument | WouldBlock

  /** Place `k` of a ring of `n` whose first element is at `read`. */
  function At(read: nat, k: nat, n: nat): (i: nat)
    requires read < n && k <= n
    ensures i < n
  {
    if read + k < n then read + k else read + k - n
  }

  /** The `len` elements of a ring from index `read` on. */
  ghost function RingContents<T>(ring: seq<T>, read: nat, len: nat): (s: seq<T>)
    requires read < |ring| && len <= |ring|
    ensures |s| == len && forall k: nat | k < len :: s[k] == ring[At(read, k, |ring|)]
  {
    seq(len, (k: nat) requires 0 <= k < len => ring[At(read, k, |ring|)])
  }

  /** Storing behind the last element appends. */
  lemma RingPush<T>(ring: seq<T>, read: nat, len: nat, x: T)
    requires read < |ring| && len < |ring|
    ensures RingContents(ring[At(read, len, |ring|) := x], read, len + 1) == RingContents(ring, read, len) + [x]
  {
  }

  /** Advancing the read index drops the first element, whatever is left in its place. */
  lemma RingPop<T>(ring: seq<T>, read: nat, len: nat, x: T)
    requires read < |ring| && 0 < len <= |ring|
    ensures RingContents(ring[read := x], At(read, 1, |ring|), len - 1) == RingContents(ring, read, len)[1..]
    ensures RingContents(ring, read, len)[0] == ring[read]
  {
  }

  /** One byte more of `all` copied over `was`. */
  lemma CopyOne(all: Bytes, was: Bytes, now: Bytes, k: nat)
    requires k < |all| && k < |was| && now == all[..k] + was[k..]
    ensures now[k := all[k]] == all[..k + 1] + was[k + 1..] && all[k..][1..] == all[k + 1..] && all[k..][0] == all[k]
    ensures all[..k + 1] == all[..k] + [all[k]]
  {
  }

  // ----- Pipes -----

  /** A pipe as a value: its open ends, what it buffers, and all it has accepted and delivered. */
  datatype PipeEnds = PipeEnds(
    id: nat, owner: nat, readers: nat, writers: nat, buffered: Bytes, accepted: Bytes, delivered: Bytes)

  /** Everything accepted so far has been delivered or is buffered, in that order. */
  ghost predicate Flows(p: PipeEnds) { |p.buffered| <= PIPE_CAPACITY && p.accepted == p.delivered + p.buffered }

  /** Pipe::write: as much as fits. */
  function Put(p: PipeEnds, source: Bytes): (r: (PipeEnds, Result<nat, IpcError>))
    ensures Flows(p) ==> Flows(r.0)
    ensures r.1.Ok? ==> r.1.value <= |source| && r.0.accepted == p.accepted + source[..r.1.value]
    ensures r.0.delivered == p.delivered
    ensures r.1.Err? ==> r.0 == p
    ensures r.1 == Err(InvalidArgument) <==> p.readers == 0
    ensures r.1 == Err(WouldBlock) <==> p.readers > 0 && |p.buffered| >= PIPE_CAPACITY
    ensures r.1.Ok? ==> r.1.value == Min(|source|, PIPE_CAPACITY - |p.buffered|)
  {
    if p.readers == 0 then (p, Err(InvalidArgument))
    else if |p.buffered| >= PIPE_CAPACITY then (p, Err(WouldBlock))
    else
      var n := Min(|source|, PIPE_CAPACITY - |p.buffered|);
      (p.(buffered := p.buffered + source[..n], accepted := p.accepted + source[..n]), Ok(n))
  }

  /** Pipe::read: as much as is there and wanted; nothing without writers is the end, with writers it blocks. */
  function Get(p: PipeEnds, want: nat): (r: (PipeEnds, Result<Bytes, IpcError>))
    ensures Flows(p) ==> Flows(r.0)
    ensures r.1.Ok? ==> |r.1.value| <= want && r.0.delivered == p.delivered + r.1.value && r.0.accepted == p.accepted
    ensures r.1.Err? ==> r.0 == p
    ensures r.1.Err? <==> p.buffered == [] && p.writers > 0
    ensures r.1.Ok? ==> |r.1.value| == Min(want, |p.buffered|)
  {
    if p.buffered == [] then (p, if p.writers == 0 then Ok([]) else Err(WouldBlock))
    else
      var n := Min(want, |p.buffered|);
      (p.(buffered := p.buffered[n..], delivered := p.delivered + p.buffered[..n]), Ok(p.buffered[..n]))
  }

  /** What went in comes out: a read after a write returns what was buffered and then what the write took. */
  lemma PutThenGet(p: PipeEnds, source: Bytes, want: nat)
    requires Flows(p) && Put(p, source).1.Ok?
    ensures var (p', n) := Put(p, source);
            var all := p.buffered + source[..n.value];
            var (p'', got) := Get(p', want);
            && (all != [] ==> got == Ok(all[..Min(want, |all|)]) && p''.buffered == all[Min(want, |all|)..])
            && (all == [] ==> got == if p.writers == 0 then Ok([]) else Err(WouldBlock))
  {
  }

  class Pipe {
    const id: nat
    const ownerPid: nat
    const bytes: array<Byte>
    var readIndex: nat
    var len: nat
    var readers: nat
    var writers: nat
    ghost var accepted: Bytes
    ghost var delivered: Bytes

    ghost function Buffered(): Bytes
      reads this, bytes
      requires bytes.Length == PIPE_CAPACITY && readIndex < PIPE_CAPACITY && len <= PIPE_CAPACITY
    {
      RingContents(bytes[..], readIndex, len)
    }

    ghost predicate Valid()
      reads this, bytes
    {
      && bytes.Length == PIPE_CAPACITY && readIndex < PIPE_CAPACITY && len <= PIPE_CAPACITY
      && accepted == delivered + Buffered()
    }

    ghost function View(): PipeEnds
      reads this, bytes
      requires Valid()
    {
      PipeEnds(id, ownerPid, readers, writers, Buffered(), accepted, delivered)
    }

    constructor (id: nat, ownerPid: nat)
      ensures Valid() && fresh(bytes) && View() == PipeEnds(id, ownerPid, 1, 1, [], [], [])
    {
      this.id, this.ownerPid := id, ownerPid;
      bytes := new Byte[PIPE_CAPACITY](_ => 0);
      readIndex, len, readers, writers := 0, 0, 1, 1;
      accepted, delivered := [], [];
    }

    /** One round of the copy loop of write. */
    method PushByte(byte: Byte)
      requires Valid() && len < PIPE_CAPACITY
      modifies this`len, this`accepted, bytes
      ensures Valid() && len == old(len) + 1
      ensures accepted == old(accepted) + [byte] && Buffered() == old(Buffered()) + [byte]
    {
      var index := (readIndex + len) % PIPE_CAPACITY;
      assert index == At(readIndex, len, PIPE_CAPACITY);
      RingPush(bytes[..], readIndex, len, byte);
      ghost var ring := bytes[..];
      bytes[index] := byte;
      assert bytes[..] == ring[index := byte];
      len := len + 1;
      accepted := accepted + [byte];
    }

    /** One round of the copy loop of read. */
    method PopByte() returns (byte: Byte)
      requires Valid() && len > 0
      modifies this`len, this`readIndex, this`delivered
      ensures Valid() && len == old(len) - 1
      ensures byte == old(Buffered())[0] && Buffered() == old(Buffered())[1..] && delivered == old(delivered) + [byte]
    {
      RingPop(bytes[..], readIndex, len, bytes[readIndex]);
      assert bytes[..][readIndex := bytes[readIndex]] == bytes[..];
      byte := bytes[readIndex];
      var next := (readIndex + 1) % PIPE_CAPACITY;
      assert next == At(readIndex, 1, PIPE_CAPACITY);
      readIndex := next;
      len := len - 1;
      delivered := delivered + [byte];
    }

    method Write(source: Bytes) returns (r: Result<nat, IpcError>)
      requires Valid()
      modifies this`len, this`accepted, bytes
      ensures Valid() && (View(), r) == Put(old(View()), source)
    {
      if readers == 0 { return Err(InvalidArgument); }
      if len == PIPE_CAPACITY { return Err(WouldBlock); }
      var count: nat := Min(|source|, PIPE_CAPACITY - len);
      for k := 0 to count
        invariant len == old(len) + k && Valid()
        invariant accepted == old(accepted) + source[..k]
        invariant Buffered() == old(Buffered()) + source[..k]
      {
        PushByte(source[k]);
        TakeSnoc(source, k);
        assert old(accepted) + source[..k + 1] == old(accepted) + source[..k] + [source[k]];
        assert old(Buffered()) + source[..k + 1] == old(Buffered()) + source[..k] + [source[k]];
      }
      return Ok(count);
    }

    method Read(destination: array<Byte>) returns (r: Result<nat, IpcError>)
      requires Valid() && destination != bytes
      modifies this`len, this`readIndex, this`delivered, destination
      ensures Valid() && View() == Get(old(View()), destination.Length).0
      ensures match Get(old(View()), destination.Length).1
              case Err(e) => r == Err(e) && destination[..] == old(destination[..])
              case Ok(got) => r == Ok(|got|) && destination[..] == got + old(destination[..])[|got|..]
    {
      if len == 0 { return if writers == 0 then Ok(0) else Err(WouldBlock); }
      var count: nat := Min(destination.Length, len);
      ghost var all := Buffered();
      for k := 0 to count
        invariant len == old(len) - k && Valid() && accepted == old(accepted)
        invariant Buffered() == all[k..] && delivered == old(delivered) + all[..k]
        invariant destination[..] == all[..k] + old(destination[..])[k..]
      {
        ghost var before := destination[..];
        var byte := PopByte();
        destination[k] := byte;
        assert destination[..] == before[k := byte];
        CopyOne(all, old(destination[..]), before, k);
      }
      return Ok(count);
    }
  }

  // ----- Message queues -----

  datatype Message = Message(bytes: Bytes, len: nat)

  const EMPTY_MESSAGE := Message(Zeros(MAX_MESSAGE_SIZE), 0)

  predicate MessageOk(m: Message) { |m.bytes| == MAX_MESSAGE_SIZE && m.len <= MAX_MESSAGE_SIZE }

  /** What a receiver gets; bytes of an earlier, longer message may lie behind it. */
  function Payload(m: Message): Bytes
    requires MessageOk(m)
  {
    m.bytes[..m.len]
  }

  ghost function Payloads(ms: seq<Message>): (s: seq<Bytes>)
    requires forall k | 0 <= k < |ms| :: MessageOk(ms[k])
    ensures |s| == |ms| && forall k | 0 <= k < |ms| :: s[k] == Payload(ms[k])
  {
    seq(|ms|, (k: nat) requires k < |ms| => Payload(ms[k]))
  }

  /** Copy to the front of the destination. */
  method CopyInto(destination: array<Byte>, source: Bytes)
    requires |source| <= destination.Length
    modifies destination
    ensures destination[..] == source + old(destination[..])[|source|..]
  {
    forall k | 0 <= k < |source| { destination[k] := source[k]; }
  }

  class MessageQueue {
    const id: nat
    const ownerPid: nat
    const messages: array<Message>
    var readIndex: nat
    var len: nat
    ghost var sent: seq<Bytes>
    ghost var received: seq<Bytes>

    ghost predicate Shape()
      reads this, messages
    {
      && messages.Length == MESSAGE_QUEUE_DEPTH && readIndex < MESSAGE_QUEUE_DEPTH && len <= MESSAGE_QUEUE_DEPTH
      && forall k | 0 <= k < messages.Length :: MessageOk(messages[k])
    }

    ghost function Queued(): seq<Bytes>
      reads this, messages
      requires Shape()
    {
      Payloads(RingContents(messages[..], readIndex, len))
    }

    /** Every message sent has been received or is queued, in order and with its boundaries. */
    ghost predicate Valid()
      reads this, messages
    {
      Shape() && sent == received + Queued()
    }

    constructor (id: nat, ownerPid: nat)
      ensures Valid() && fresh(messages) && this.id == id && this.ownerPid == ownerPid && sent == [] && received == []
    {
      this.id, this.ownerPid := id, ownerPid;
      messages := new Message[MESSAGE_QUEUE_DEPTH](_ => EMPTY_MESSAGE);
      readIndex, len := 0, 0;
      sent, received := [], [];
    }

    method Send(source: Bytes) returns (r: Result<nat, IpcError>)
      requires Valid()
      modifies this`len, this`sent, messages
      ensures Valid()
      ensures (source == [] || |source| > MAX_MESSAGE_SIZE) ==> r == Err(InvalidArgument)
      ensures 0 < |source| <= MAX_MESSAGE_SIZE && old(len) == MESSAGE_QUEUE_DEPTH ==> r == Err(WouldBlock)
      ensures r.Err? ==> sent == old(sent) && Queued() == old(Queued())
      ensures 0 < |source| <= MAX_MESSAGE_SIZE && old(len) < MESSAGE_QUEUE_DEPTH ==>
                r == Ok(|source|) && sent == old(sent) + [source] && Queued() == old(Queued()) + [source]
    {
      if source == [] || |source| > MAX_MESSAGE_SIZE { return Err(InvalidArgument); }
      if len == MESSAGE_QUEUE_DEPTH { return Err(WouldBlock); }
      var index := (readIndex + len) % MESSAGE_QUEUE_DEPTH;
      assert index == At(readIndex, len, MESSAGE_QUEUE_DEPTH);
      var message := Message(Patch(messages[index].bytes, 0, source), |source|);
      assert Payload(message) == source;
      RingPush(messages[..], readIndex, len, message);
      ghost var ring := messages[..];
      messages[index] := message;
      assert messages[..] == ring[index := message];
      len := len + 1;
      sent := sent + [source];
      assert Queued() == old(Queued()) + [source];
      return Ok(|source|);
    }

    /** A destination too small for the message is refused and the message stays. */
    method Receive(destination: array<Byte>) returns (r: Result<nat, IpcError>)
      requires Valid()
      modifies this`len, this`readIndex, this`received, messages, destination
      ensures Valid() && sent == old(sent)
      ensures old(len) == 0 ==> r == Err(WouldBlock)
      ensures old(len) > 0 && destination.Length < |old(Queued())[0]| ==> r == Err(InvalidArgument)
      ensures r.Err? ==> received == old(received) && Queued() == old(Queued())
      ensures r.Err? ==> destination[..] == old(destination[..])
      ensures old(len) > 0 && destination.Length >= |old(Queued())[0]| ==>
                && r == Ok(|old(Queued())[0]|)
                && destination[..] == old(Queued())[0] + old(destination[..])[r.value..]
                && received == old(received) + [old(Queued())[0]] && Queued() == old(Queued())[1..]
    {
      if len == 0 { return Err(WouldBlock); }
      var message := messages[readIndex];
      FirstQueued();
      if destination.Length < message.len { return Err(InvalidArgument); }
      CopyInto(destination, message.bytes[..message.len]);
      DropFirst();
      received := received + [Payload(message)];
      return Ok(message.len);
    }

    lemma FirstQueued()
      requires Shape() && len > 0
      ensures |Queued()| == len && Payload(messages[readIndex]) == Queued()[0]
    {
      RingPop(messages[..], readIndex, len, EMPTY_MESSAGE);
    }

    /** The slot of the first message is cleared and the read index moves on. */
    method DropFirst()
      requires Shape() && len > 0
      modifies this`len, this`readIndex, messages
      ensures Shape() && len == old(len) - 1 && Queued() == old(Queued())[1..]
    {
      RingPop(messages[..], readIndex, len, EMPTY_MESSAGE);
      ghost var ring := messages[..];
      messages[readIndex] := EMPTY_MESSAGE;
      assert messages[..] == ring[readIndex := EMPTY_MESSAGE];
      var next := (readIndex + 1) % MESSAGE_QUEUE_DEPTH;
      assert next == At(readIndex, 1, MESSAGE_QUEUE_DEPTH);
      readIndex := next;
      len := len - 1;
    }
  }
}
