/** The readers as they work: the bytes not yet read, taken field by field, with loops that
    fill maps and lists (`decodeWireValue`, `decodeSnapshotData`, `decodeReliableEnvelope`, `DecodePacket`
    in Go; `ByteReader` and `decode_packet` in Rust). Every method is the decoding function of the codec
    modules, applied to the bytes that are left. */
module WireReader {
  import opened Bits
  import opened Wire
  import opened Sorting
  import opened Wrappers
  import opened Bytes
  import opened ValueCodec
  import opened SnapshotCodec
  import opened PacketCodec

  /** The result is what `parse` gives, and after a success what is left is what `parse` leaves. */
  ghost predicate Agrees<T>(result: Option<T>, rest: seq<byte>, parse: Parse<T>) {
    match parse
    case Parsed(value, tail) => result == Some(value) && rest == tail
    case Failed => result == None
  }

  /** `values` are already read, `parse` reads the others. */
  function Prepend<T>(values: seq<T>, parse: Parse<seq<T>>): Parse<seq<T>> {
    match parse
    case Parsed(others, rest) => Parsed(values + others, rest)
    case Failed => Failed
  }

  lemma PrependNothing<T>(parse: Parse<seq<T>>)
    ensures Prepend([], parse) == parse
  {
    if parse.Parsed? {
      assert [] + parse.value == parse.value;
    }
  }

  lemma FramesDone(dialect: Dialect, rest: seq<byte>, messages: seq<WireMessage>)
    ensures Prepend(messages, DecodeFrames(dialect, rest, 0)) == Parsed(messages, rest)
  {
    assert messages + [] == messages;
  }

  lemma PrependStep<T>(values: seq<T>, value: T, others: Parse<seq<T>>)
    ensures Prepend(values + [value], others) == Prepend(values, Prepend([value], others))
    ensures Prepend([], others) == others
  {
    if others.Parsed? {
      assert values + [value] + others.value == values + ([value] + others.value);
      assert [] + others.value == others.value;
    }
  }

  /** One round of a loop: from `before` rounds to go at the old position to `after` at the new one. */
  ghost predicate Continues<T, U>(result: Option<T>, before: Parse<U>, after: Parse<U>) {
    if result.None? then before == Failed else before == after
  }

  class Reader {
    const dialect: Dialect
    var rest: seq<byte>

    constructor (dialect: Dialect, data: seq<byte>)
      ensures this.dialect == dialect && rest == data
    {
      this.dialect, rest := dialect, data;
    }

    /** `bytes.Reader.Read` into a fresh buffer, or `read_exact`. */
    method ReadBuffer(n: nat) returns (r: Option<seq<byte>>)
      modifies this
      ensures Agrees(r, rest, Read(dialect, old(rest), n))
    {
      if dialect.Rust? && |rest| < n {
        return None;
      }
      if dialect.Go? && rest == [] {
        return None;
      }
      if |rest| < n {
        r := Some(rest + Zeros(n - |rest|));
        rest := [];
        return;
      }
      r := Some(rest[..n]);
      rest := rest[n..];
    }

    method TakeByte() returns (r: Option<byte>)
      modifies this
      ensures Agrees(r, rest, ReadByte(old(rest)))
    {
      if rest == [] {
        return None;
      }
      r := Some(rest[0]);
      rest := rest[1..];
    }

    method TakeUint16() returns (r: Option<u16>)
      modifies this
      ensures Agrees(r, rest, ReadU16(dialect, old(rest)))
    {
      var bytes := ReadBuffer(2);
      if bytes.None? {
        return None;
      }
      Widths();
      return Some(FromBigEndian(bytes.value));
    }

    method TakeUint32() returns (r: Option<u32>)
      modifies this
      ensures Agrees(r, rest, ReadU32(dialect, old(rest)))
    {
      var bytes := ReadBuffer(4);
      if bytes.None? {
        return None;
      }
      Widths();
      return Some(FromBigEndian(bytes.value));
    }

    method TakeUint64() returns (r: Option<u64>)
      modifies this
      ensures Agrees(r, rest, ReadU64(dialect, old(rest)))
    {
      var bytes := ReadBuffer(8);
      if bytes.None? {
        return None;
      }
      Widths();
      return Some(FromBigEndian(bytes.value));
    }

    method TakeString() returns (r: Option<Str>)
      modifies this
      ensures Agrees(r, rest, ReadString(dialect, old(rest)))
    {
      var length := TakeUint16();
      if length.None? || length.value > MAX_STRING || length.value > |rest| {
        return None;
      }
      r := ReadBuffer(length.value);
      if r.Some? && dialect.Rust? && !Utf8(r.value) {
        return None;
      }
    }

    method DecodeWireValue(depth: nat) returns (r: Option<Value>)
      modifies this
      ensures Agrees(r, rest, DecodeValue(dialect, old(rest), depth))
      decreases |rest|, 0
    {
      if depth > MAX_DEPTH {
        return None;
      }
      var kind := TakeByte();
      if kind.None? {
        return None;
      }
      match kind.value
      case 0 => return Some(Null);
      case 1 =>
        var flag := TakeByte();
        return if flag.None? then None else Some(Bool(flag.value != 0));
      case 2 =>
        var word := TakeUint64();
        return if word.None? then None else Some(Int64(WordToSigned(word.value)));
      case 3 =>
        var word := TakeUint64();
        return if word.None? then None else Some(Uint64(word.value));
      case 4 =>
        var word := TakeUint64();
        return if word.None? then None else Some(Float64(word.value));
      case 5 =>
        var text := TakeString();
        return if text.None? then None else Some(Text(text.value));
      case 6 =>
        var count := TakeUint16();
        if count.None? {
          return None;
        }
        var fields := DecodeFields(count.value, depth + 1);
        return if fields.None? then None else Some(Object(fields.value));
      case 7 =>
        var count := TakeUint16();
        if count.None? {
          return None;
        }
        var items := DecodeList(count.value, depth + 1);
        return if items.None? then None else Some(List(items.value));
      case _ => return None;
    }

    /** The loop over the entries of an object. */
    method DecodeFields(count: nat, depth: nat) returns (r: Option<map<Str, Value>>)
      modifies this
      ensures Agrees(r, rest, DecodeEntries(dialect, old(rest), count, depth, map[]))
      decreases |rest|, 2
    {
      r := Some(map[]);
      ghost var left, expected := count, DecodeEntries(dialect, rest, count, depth, r.value);
      for index := 0 to count
        invariant |rest| <= |old(rest)| && r.Some? && left == count - index
        invariant DecodeEntries(dialect, rest, left, depth, r.value) == expected
      {
        r := DecodeField(left, depth, r.value);
        if r.None? {
          return;
        }
        left := left - 1;
      }
    }

    /** One entry; a repeated key overwrites. */
    method DecodeField(ghost left: nat, depth: nat, fields: map<Str, Value>) returns (r: Option<map<Str, Value>>)
      requires left > 0
      modifies this
      ensures (r.Some? ==> |rest| <= |old(rest)|)
      ensures Continues(r, DecodeEntries(dialect, old(rest), left, depth, fields),
                        DecodeEntries(dialect, rest, left - 1, depth, if r.Some? then r.value else map[]))
      decreases |rest|, 1
    {
      var key := TakeString();
      if key.None? {
        return None;
      }
      var value := DecodeWireValue(depth);
      if value.None? {
        return None;
      }
      return Some(fields[key.value := value.value]);
    }

    method DecodeList(count: nat, depth: nat) returns (r: Option<seq<Value>>)
      modifies this
      ensures Agrees(r, rest, DecodeItems(dialect, old(rest), count, depth))
      decreases |rest|, 2
    {
      var values: seq<Value> := [];
      ghost var left := count;
      PrependStep(values, Null, DecodeItems(dialect, rest, count, depth));
      for index := 0 to count
        invariant |rest| <= |old(rest)| && left == count - index
        invariant Prepend(values, DecodeItems(dialect, rest, left, depth))
               == DecodeItems(dialect, old(rest), count, depth)
      {
        var value := DecodeWireValue(depth);
        if value.None? {
          return None;
        }
        left := left - 1;
        PrependStep(values, value.value, DecodeItems(dialect, rest, left, depth));
        values := values + [value.value];
      }
      assert values + [] == values;
      return Some(values);
    }
  
    /** The objects of one type. */
    method DecodeObjects() returns (r: Option<map<Str, Value>>)
      modifies this
      ensures Agrees(r, rest, DecodeGroup(dialect, old(rest)))
    {
      var count := TakeUint16();
      if count.None? {
        return None;
      }
      r := DecodeFields(count.value, 0);
    }

    method DecodeTypes(count: nat) returns (r: Option<SnapshotCodec.Snapshot>)
      modifies this
      ensures Agrees(r, rest, DecodeGroups(dialect, old(rest), count, map[]))
    {
      r := Some(map[]);
      ghost var left, expected := count, DecodeGroups(dialect, rest, count, r.value);
      for index := 0 to count
        invariant r.Some? && left == count - index
        invariant DecodeGroups(dialect, rest, left, r.value) == expected
      {
        r := DecodeType(left, r.value);
        if r.None? {
          return;
        }
        left := left - 1;
      }
    }

    method DecodeType(ghost left: nat, snapshot: SnapshotCodec.Snapshot) returns (r: Option<SnapshotCodec.Snapshot>)
      requires left > 0
      modifies this
      ensures Continues(r, DecodeGroups(dialect, old(rest), left, snapshot),
                        DecodeGroups(dialect, rest, left - 1, if r.Some? then r.value else map[]))
    {
      var objectType := TakeString();
      if objectType.None? {
        return None;
      }
      var objects := DecodeObjects();
      if objects.None? {
        return None;
      }
      return Some(snapshot[objectType.value := objects.value]);
    }

    /** `decodeSnapshotData` */
    method DecodeSnapshotData() returns (r: Option<SnapshotCodec.Snapshot>)
      modifies this
      ensures Agrees(r, rest, DecodeSnapshot(dialect, old(rest)))
    {
      var count := TakeUint16();
      if count.None? {
        return None;
      }
      r := DecodeTypes(count.value);
    }

    /** One framed message of a packet. */
    method DecodeMessage() returns (r: Option<WireMessage>)
      modifies this
      ensures Agrees(r, rest, DecodeFrame(dialect, old(rest)))
    {
      if |rest| < MESSAGE_HEADER {
        return None;
      }
      var kind := TakeUint16();
      if kind.None? {
        return None;
      }
      var length := TakeUint32();
      if length.None? || length.value > MAX_MESSAGE || length.value > |rest| {
        return None;
      }
      var payload := ReadBuffer(length.value);
      if payload.None? {
        return None;
      }
      if kind.value == RELIABLE_KIND {
        r := DecodeReliableEnvelope(dialect, payload.value);
      } else {
        r := Some(WireMessage(kind.value, payload.value, UNRELIABLE, 0));
      }
    }

    method DecodeMessages(count: nat) returns (r: Option<seq<WireMessage>>)
      modifies this
      ensures Agrees(r, rest, DecodeFrames(dialect, old(rest), count))
    {
      r := Some([]);
      ghost var left, expected := count, DecodeFrames(dialect, rest, count);
      PrependNothing(expected);
      for index := 0 to count
        invariant r.Some? && left == count - index
        invariant Prepend(r.value, DecodeFrames(dialect, rest, left)) == expected
      {
        r := DecodeNext(left, r.value);
        if r.None? {
          return;
        }
        left := left - 1;
      }
      FramesDone(dialect, rest, r.value);
    }

    method DecodeNext(ghost left: nat, messages: seq<WireMessage>) returns (r: Option<seq<WireMessage>>)
      requires left > 0
      modifies this
      ensures Continues(r, Prepend(messages, DecodeFrames(dialect, old(rest), left)),
                        Prepend(if r.Some? then r.value else [], DecodeFrames(dialect, rest, left - 1)))
    {
      var message := DecodeMessage();
      if message.None? {
        return None;
      }
      PrependStep(messages, message.value, DecodeFrames(dialect, rest, left - 1));
      return Some(messages + [message.value]);
    }

    method TakeCount() returns (r: Option<byte>)
      modifies this
      ensures Agrees(r, rest, DecodeCount(dialect, old(rest)))
    {
      var magic := TakeUint16();
      if magic.None? || magic.value != MAGIC {
        return None;
      }
      var version := TakeByte();
      if version.None? || version.value != VERSION {
        return None;
      }
      var count := TakeByte();
      if count.None? || count.value == 0 || count.value > MAX_MESSAGES {
        return None;
      }
      var reserved := TakeUint32();
      return if reserved.None? then None else count;
    }

    method TakeBody(available: nat, count: nat) returns (r: Option<Packet>)
      modifies this
      ensures Agrees(r, rest, DecodeNumbers(dialect, old(rest), available, count))
    {
      var sequence := TakeUint64();
      if sequence.None? {
        return None;
      }
      var ack := TakeUint64();
      if ack.None? {
        return None;
      }
      var ackBits := TakeUint64();
      if ackBits.None? {
        return None;
      }
      var length := TakeUint32();
      if length.None? || length.value != available {
        return None;
      }
      var messages := DecodeMessages(count);
      if messages.None? || rest != [] {
        return None;
      }
      return Some(Packet(sequence.value, ack.value, ackBits.value, messages.value));
    }

    method TakePacket() returns (r: Option<Packet>)
      requires |rest| >= PACKET_HEADER && (dialect.Go? ==> |rest| - PACKET_HEADER <= MAX_PAYLOAD)
      modifies this
      ensures Agrees(r, rest, DecodePacket(dialect, old(rest)))
    {
      r := None;
      var available := |rest| - PACKET_HEADER;
      var count := TakeCount();
      if count.Some? {
        r := TakeBody(available, count.value);
      }
    }

    /** The reliable envelope, which must take up all that is left. */
    method TakeEnvelope() returns (r: Option<WireMessage>)
      modifies this
      ensures Agrees(r, rest, DecodeEnvelope(dialect, old(rest)))
    {
      var delivery := TakeByte();
      if delivery.None? || !Reliable(delivery.value) {
        return None;
      }
      var id := TakeUint64();
      if id.None? || (dialect.Go? && id.value == 0) {
        return None;
      }
      r := TakeInner(delivery.value, id.value);
    }

    method TakeInner(delivery: byte, id: u64) returns (r: Option<WireMessage>)
      modifies this
      ensures Agrees(r, rest, DecodeInner(dialect, delivery, id, old(rest)))
    {
      var kind := TakeUint16();
      if kind.None? {
        return None;
      }
      var length := TakeUint32();
      if length.None? || (dialect.Go? && length.value > MAX_MESSAGE) || length.value > |rest| {
        return None;
      }
      var inner := ReadBuffer(length.value);
      if inner.None? || rest != [] {
        return None;
      }
      return Some(WireMessage(kind.value, inner.value, delivery, id));
    }
  }

  /** `decodeReliableEnvelope`, over a reader of its own. */
  method DecodeReliableEnvelope(dialect: Dialect, payload: seq<byte>) returns (r: Option<WireMessage>)
    ensures Agrees(r, [], DecodeEnvelope(dialect, payload))
  {
    var reader := new Reader(dialect, payload);
    r := reader.TakeEnvelope();
  }

  /** `DecodePacket` and `decode_packet`. */
  method DecodeDatagram(dialect: Dialect, data: seq<byte>) returns (r: Option<Packet>)
    ensures Agrees(r, [], DecodePacket(dialect, data))
  {
    if |data| < PACKET_HEADER || (dialect.Go? && |data| - PACKET_HEADER > MAX_PAYLOAD) {
      return None;
    }
    var reader := new Reader(dialect, data);
    r := reader.TakePacket();
  }
}
