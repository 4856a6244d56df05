/** The writer as it works: fields are appended to a buffer, maps are written in the order of their sorted
    keys (`encodeWireValue`, `encodeSnapshotData`, `encodeReliableEnvelope`, `EncodePacketWithAcks`). Every
    method appends what the encoding function of the codec modules gives, or fails where it refuses. */
module WireWriter {
  import opened Bits
  import opened Wire
  import opened Sorting
  import opened Bytes
  import opened ValueCodec
  import opened SnapshotCodec
  import opened PacketCodec

  /** What the buffer will hold once `encoding` is appended to it. */
  function Onto(buffer: seq<byte>, encoding: Encoding): Encoding {
    match encoding
    case Encoded(bytes) => Encoded(buffer + bytes)
    case Refused => Refused
  }

  ghost predicate Wrote(ok: bool, before: seq<byte>, after: seq<byte>, encoding: Encoding) {
    ok == encoding.Encoded? && (ok ==> after == before + encoding.bytes)
  }

  /** One round of a loop: what was to come at the old buffer is what is left to come at the new one. */
  ghost predicate Moves(ok: bool, before: Encoding, after: Encoding) {
    if ok then before == after else before == Refused
  }

  lemma OntoStep(buffer: seq<byte>, first: seq<byte>, others: Encoding)
    ensures Onto(buffer, Onto(first, others)) == Onto(buffer + first, others)
  {
    if others.Encoded? {
      Assoc(buffer, first, others.bytes);
    }
  }

  /** `sort.Strings` over the keys of a map. */
  method SortKeys(keys: set<Str>) returns (sorted: seq<Str>)
    ensures sorted == SortedKeys(keys)
  {
    StrTotal();
    sorted := [];
    var left := keys;
    while left != {}
      invariant left <= keys
      invariant Ascending(sorted, StrLess) && ElementSet(sorted) == keys - left
      decreases |left|
    {
      var key :| key in left;
      left := left - {key};
      sorted := InsertSorted(sorted, StrLess, key);
    }
    AscendingUnique(sorted, SortedKeys(keys), StrLess);
  }

  function Join(first: Encoding, others: Encoding): Encoding {
    if first.Refused? then Refused else Onto(first.bytes, others)
  }

  lemma FramesUnfold(left: seq<WireMessage>)
    requires left != []
    ensures EncodeFrames(left) == Join(EncodeFrame(left[0]), EncodeFrames(left[1..]))
  {
  }

  lemma JoinStep(buffer: seq<byte>, first: Encoding, others: Encoding, ok: bool, bytes: seq<byte>)
    requires Wrote(ok, [], bytes, first)
    ensures Onto(buffer, Join(first, others)) == if ok then Onto(buffer + bytes, others) else Refused
  {
    if ok {
      assert [] + first.bytes == first.bytes;
      OntoStep(buffer, bytes, others);
    }
  }

  class Writer {
    var buffer: seq<byte>

    constructor ()
      ensures buffer == []
    {
      buffer := [];
    }

    method Append(bytes: seq<byte>)
      modifies this
      ensures buffer == old(buffer) + bytes
    {
      buffer := buffer + bytes;
    }

    method AppendString(text: Str) returns (ok: bool)
      modifies this
      ensures Wrote(ok, old(buffer), buffer, WriteString(text))
    {
      if |text| > MAX_STRING {
        return false;
      }
      Append(WriteU16(|text|));
      Append(text);
      return true;
    }

    method EncodeWireValue(value: Value, depth: nat) returns (ok: bool)
      modifies this
      ensures Wrote(ok, old(buffer), buffer, EncodeValue(value, depth))
      decreases value, 2, 0
    {
      if depth > MAX_DEPTH {
        return false;
      }
      match value
      case Null =>
        Append([0]);
        return true;
      case Bool(flag) =>
        Append([1, if flag then 1 else 0]);
        return true;
      case Int64(signed) =>
        Append([2] + WriteU64(SignedToWord(signed)));
        return true;
      case Uint64(unsigned) =>
        Append([3] + WriteU64(unsigned));
        return true;
      case Float64(pattern) =>
        Append([4] + WriteU64(pattern));
        return true;
      case Text(text) =>
        Append([5]);
        ok := AppendString(text);
      case Object(fields) =>
        if |fields| > MAX_COUNT {
          return false;
        }
        var keys := SortKeys(fields.Keys);
        Append([6] + WriteU16(|fields|));
        KeysBelong(fields, keys);
        ok := AppendEntries(value, keys, depth + 1);
      case List(items) =>
        if |items| > MAX_COUNT {
          return false;
        }
        Append([7] + WriteU16(|items|));
        ok := AppendItems(value, depth + 1);
    }

    /** The loop over the entries of a map in key order. */
    method AppendEntries(parent: Value, keys: seq<Str>, depth: nat) returns (ok: bool)
      requires parent.Object? && forall k <- keys :: k in parent.fields
      modifies this
      ensures Wrote(ok, old(buffer), buffer, EncodeEntries(parent, keys, depth))
      decreases parent, 1, 1
    {
      ghost var expected := Onto(buffer, EncodeEntries(parent, keys, depth));
      ghost var left := keys;
      assert keys[0..] == keys;
      for index := 0 to |keys|
        invariant left == keys[index..]
        invariant Onto(buffer, EncodeEntries(parent, left, depth)) == expected
      {
        ok := AppendEntry(parent, keys[index], left, depth);
        if !ok {
          return;
        }
        left := left[1..];
      }
      assert buffer + [] == buffer;
      return true;
    }

    method AppendEntry(parent: Value, key: Str, ghost left: seq<Str>, depth: nat) returns (ok: bool)
      requires left != [] && key == left[0]
      requires parent.Object? && forall k <- left :: k in parent.fields
      modifies this
      ensures Moves(ok, Onto(old(buffer), EncodeEntries(parent, left, depth)),
                    Onto(buffer, EncodeEntries(parent, left[1..], depth)))
      decreases parent, 1, 0
    {
      ok := AppendString(key);
      if !ok {
        return;
      }
      ok := EncodeWireValue(parent.fields[key], depth);
      if !ok {
        return;
      }
      ghost var first := WriteString(key).bytes + EncodeValue(parent.fields[key], depth).bytes;
      Assoc(old(buffer), WriteString(key).bytes, EncodeValue(parent.fields[key], depth).bytes);
      OntoStep(old(buffer), first, EncodeEntries(parent, left[1..], depth));
    }

    method AppendItems(list: Value, depth: nat) returns (ok: bool)
      requires list.List?
      modifies this
      ensures Wrote(ok, old(buffer), buffer, EncodeItems(list, |list.items|, depth))
      decreases list, 1, 1
    {
      ghost var expected := Onto(buffer, EncodeItems(list, |list.items|, depth));
      for index := 0 to |list.items|
        invariant Onto(buffer, EncodeItems(list, |list.items| - index, depth)) == expected
      {
        ok := AppendItem(list, index, |list.items| - index, depth);
        if !ok {
          return;
        }
      }
      assert buffer + [] == buffer;
      return true;
    }

    method AppendItem(list: Value, index: nat, ghost left: nat, depth: nat) returns (ok: bool)
      requires list.List? && index < |list.items| && left == |list.items| - index
      modifies this
      ensures Moves(ok, Onto(old(buffer), EncodeItems(list, left, depth)),
                    Onto(buffer, EncodeItems(list, left - 1, depth)))
      decreases list, 1, 0
    {
      ok := EncodeWireValue(list.items[index], depth);
      if !ok {
        return;
      }
      OntoStep(old(buffer), EncodeValue(list.items[index], depth).bytes, EncodeItems(list, left - 1, depth));
    }

    /** `encodeSnapshotData` */
    method EncodeSnapshotData(snapshot: SnapshotCodec.Snapshot) returns (ok: bool)
      modifies this
      ensures Wrote(ok, old(buffer), buffer, EncodeSnapshot(snapshot))
    {
      if |snapshot| > MAX_COUNT {
        return false;
      }
      var types := SortKeys(snapshot.Keys);
      Append(WriteU16(|snapshot|));
      KeysBelong(snapshot, types);
      ok := AppendTypes(snapshot, types);
      if ok {
        Assoc(old(buffer), WriteU16(|snapshot|), EncodeGroups(snapshot, types).bytes);
      }
    }

    method AppendTypes(snapshot: SnapshotCodec.Snapshot, types: seq<Str>) returns (ok: bool)
      requires forall t <- types :: t in snapshot
      modifies this
      ensures Wrote(ok, old(buffer), buffer, EncodeGroups(snapshot, types))
    {
      ghost var expected := Onto(buffer, EncodeGroups(snapshot, types));
      ghost var left := types;
      assert types[0..] == types;
      for index := 0 to |types|
        invariant left == types[index..]
        invariant Onto(buffer, EncodeGroups(snapshot, left)) == expected
      {
        ok := AppendType(snapshot, types[index], left);
        if !ok {
          return;
        }
        left := left[1..];
      }
      assert buffer + [] == buffer;
      return true;
    }

    method AppendType(snapshot: SnapshotCodec.Snapshot, objectType: Str, ghost left: seq<Str>) returns (ok: bool)
      requires left != [] && objectType == left[0] && forall t <- left :: t in snapshot
      modifies this
      ensures Moves(ok, Onto(old(buffer), EncodeGroups(snapshot, left)),
                    Onto(buffer, EncodeGroups(snapshot, left[1..])))
    {
      ok := AppendString(objectType);
      if !ok {
        return;
      }
      ok := AppendObjects(snapshot[objectType]);
      if !ok {
        return;
      }
      ghost var first := WriteString(objectType).bytes + EncodeGroup(snapshot[objectType]).bytes;
      Assoc(old(buffer), WriteString(objectType).bytes, EncodeGroup(snapshot[objectType]).bytes);
      OntoStep(old(buffer), first, EncodeGroups(snapshot, left[1..]));
    }

    method AppendObjects(objects: map<Str, Value>) returns (ok: bool)
      modifies this
      ensures Wrote(ok, old(buffer), buffer, EncodeGroup(objects))
    {
      if |objects| > MAX_COUNT {
        return false;
      }
      var ids := SortKeys(objects.Keys);
      Append(WriteU16(|objects|));
      KeysBelong(objects, ids);
      ok := AppendEntries(Object(objects), ids, 0);
      if ok {
        Assoc(old(buffer), WriteU16(|objects|), EncodeEntries(Object(objects), ids, 0).bytes);
      }
    }

    /** The loop over the messages of a packet. */
    method AppendMessages(messages: seq<WireMessage>) returns (ok: bool)
      modifies this
      ensures Wrote(ok, old(buffer), buffer, EncodeFrames(messages))
    {
      ghost var left, expected := messages, Onto(buffer, EncodeFrames(messages));
      assert messages[0..] == messages;
      for index := 0 to |messages|
        invariant left == messages[index..]
        invariant Onto(buffer, EncodeFrames(left)) == expected
      {
        ok := AppendMessage(messages[index], left);
        if !ok {
          return;
        }
        left := left[1..];
      }
      assert buffer + [] == buffer;
      return true;
    }

    method AppendMessage(message: WireMessage, ghost left: seq<WireMessage>) returns (ok: bool)
      requires left != [] && message == left[0]
      modifies this
      ensures Moves(ok, Onto(old(buffer), EncodeFrames(left)), Onto(buffer, EncodeFrames(left[1..])))
    {
      var frame;
      ok, frame := EncodeMessageFrame(message);
      FramesUnfold(left);
      JoinStep(buffer, EncodeFrame(message), EncodeFrames(left[1..]), ok, frame);
      if ok {
        Append(frame);
      }
    }

    method AppendPacket(count: byte, sequence: u64, ack: u64, ackBits: u64, payload: seq<byte>)
      requires |payload| <= MAX_PAYLOAD && buffer == []
      modifies this
      ensures buffer == WithHeader(count, sequence, ack, ackBits, payload)
    {
      Append(WriteU16(MAGIC));
      Append([VERSION]);
      Append([count]);
      Append(WriteU32(0));
      Append(WriteU64(sequence));
      Append(WriteU64(ack));
      Append(WriteU64(ackBits));
      Append(WriteU32(|payload|));
      Append(payload);
      HeaderBytes(WriteU16(MAGIC), [VERSION], [count], WriteU32(0), WriteU64(sequence),
                  WriteU64(ack), WriteU64(ackBits), WriteU32(|payload|), payload);
    }
  }

  lemma KeysBelong<V>(m: map<Str, V>, keys: seq<Str>)
    requires keys == SortedKeys(m.Keys)
    ensures forall k <- keys :: k in m
  {
    assert forall k <- keys :: k in ElementSet(keys);
  }

  // ----- packets -----

  method EncodeReliableEnvelope(message: WireMessage) returns (ok: bool, bytes: seq<byte>)
    ensures Wrote(ok, [], bytes, EncodeEnvelope(message))
  {
    if !Reliable(message.delivery) || message.deliveryId == 0 || |message.payload| > MAX_MESSAGE {
      return false, [];
    }
    var writer := new Writer();
    writer.Append([message.delivery]);
    writer.Append(WriteU64(message.deliveryId));
    writer.Append(WriteU16(message.kind));
    writer.Append(WriteU32(|message.payload|));
    writer.Append(message.payload);
    EnvelopeBytes([message.delivery], WriteU64(message.deliveryId), WriteU16(message.kind),
                  WriteU32(|message.payload|), message.payload);
    if |writer.buffer| > MAX_MESSAGE {
      return false, [];
    }
    return true, writer.buffer;
  }

  lemma EnvelopeBytes(a: seq<byte>, b: seq<byte>, c: seq<byte>, d: seq<byte>, e: seq<byte>)
    ensures [] + a + b + c + d + e == a + (b + (c + (d + e)))
  {
  }

  method EncodeMessageFrame(message: WireMessage) returns (ok: bool, frame: seq<byte>)
    ensures Wrote(ok, [], frame, EncodeFrame(message))
  {
    var kind, payload := message.kind, message.payload;
    if Reliable(message.delivery) {
      ok, payload := EncodeReliableEnvelope(message);
      if !ok {
        return false, [];
      }
      kind := RELIABLE_KIND;
    } else if message.delivery != UNRELIABLE {
      return false, [];
    }
    if |payload| > MAX_MESSAGE {
      return false, [];
    }
    return true, FrameHeader(kind, |payload|) + payload;
  }

  /** `EncodePacketWithAcks` */
  method EncodePacketWithAcks(packet: Packet) returns (ok: bool, bytes: seq<byte>)
    ensures Wrote(ok, [], bytes, EncodePacket(packet))
  {
    ok, bytes := false, [];
    if 0 < |packet.messages| <= MAX_MESSAGES {
      var payload := new Writer();
      var framed := payload.AppendMessages(packet.messages);
      NoPrefix(payload.buffer, EncodeFrames(packet.messages), framed);
      if framed && |payload.buffer| <= MAX_PAYLOAD {
        var writer := new Writer();
        writer.AppendPacket(|packet.messages|, packet.sequence, packet.ack, packet.ackBits, payload.buffer);
        ok, bytes := true, writer.buffer;
        NoPrefix(bytes, Encoded(bytes), true);
      }
    }
  }

  lemma NoPrefix(buffer: seq<byte>, encoding: Encoding, ok: bool)
    ensures Wrote(ok, [], buffer, encoding) <==> ok == encoding.Encoded? && (ok ==> buffer == encoding.bytes)
  {
  }

  lemma HeaderBytes(a: seq<byte>, b: seq<byte>, c: seq<byte>, d: seq<byte>, e: seq<byte>, f: seq<byte>,
                    g: seq<byte>, h: seq<byte>, i: seq<byte>)
    ensures [] + a + b + c + d + e + f + g + h + i == a + (b + (c + (d + (e + (f + (g + (h + i)))))))
  {
    EnvelopeBytes(e, f, g, h, i);
    EnvelopeBytes(a, b, c, d, e + (f + (g + (h + i))));
    assert [] + a + b + c + d + e + f + g + h + i == [] + a + b + c + d + (e + f + g + h + i);
  }
}
