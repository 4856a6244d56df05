/** The wire format byte by byte: what the writers of `PacketCodec`, `ValueCodec` and `SnapshotCodec` put
    where, what they refuse, and what the readers insist on, with every constant written out. */
module Layout {
  import opened Bits
  import opened Wire
  import opened Sorting
  import opened Bytes
  import opened ValueCodec
  import opened PacketCodec
  import SnapshotCodec

  function Concat(parts: seq<seq<byte>>): seq<byte> {
    if parts == [] then [] else parts[0] + Concat(parts[1..])
  }

  // ----- packets -----

  /** The header is 36 bytes: the letters ES, version 1, the number of messages, four zeros, sequence,
      acknowledgement, its bits, and the length of the frames that follow. */
  lemma PacketLayout(packet: Packet)
    requires EncodePacket(packet).Encoded?
    ensures var frames := EncodeFrames(packet.messages).bytes;
      && EncodePacket(packet).bytes
         == [0x45, 0x53, 1, |packet.messages|, 0, 0, 0, 0]
            + (WriteU64(packet.sequence) + (WriteU64(packet.ack) + (WriteU64(packet.ackBits)
               + (WriteU32(|frames|) + frames))))
      && |EncodePacket(packet).bytes| == 36 + |frames|
  {
    var frames := EncodeFrames(packet.messages).bytes;
    var count: byte := |packet.messages|;
    U16Layout(0x4553);
    ZeroWord();
    var numbers := WithNumbers(packet.sequence, packet.ack, packet.ackBits, frames);
    HeaderJoins(count, numbers);
  }

  lemma ZeroWord()
    ensures WriteU32(0) == [0, 0, 0, 0]
  {
    U32Layout(0);
    U16Layout(0);
  }

  lemma HeaderJoins(count: byte, numbers: seq<byte>)
    ensures [0x45, 0x53] + ([1] + ([count] + ([0, 0, 0, 0] + numbers))) == [0x45, 0x53, 1, count, 0, 0, 0, 0] + numbers
  {
  }

  /** The writer refuses a packet without messages or with more than 32, with a message that it refuses, or
      with more than 60 KiB of frames. */
  lemma PacketLimits(packet: Packet)
    ensures EncodePacket(packet).Refused? <==>
      || |packet.messages| == 0 || |packet.messages| > 32
      || (exists message <- packet.messages :: EncodeFrame(message).Refused?)
      || |Concat(Frames(packet.messages))| > 61440
  {
    FramesLayout(packet.messages);
  }

  /** The frames of the messages, in their order. */
  function Frames(messages: seq<WireMessage>): seq<seq<byte>> {
    if messages == [] then []
    else
      var first := EncodeFrame(messages[0]);
      [if first.Encoded? then first.bytes else []] + Frames(messages[1..])
  }

  lemma {:induction false} FramesLayout(messages: seq<WireMessage>)
    ensures EncodeFrames(messages)
         == if exists message <- messages :: EncodeFrame(message).Refused? then Refused
            else Encoded(Concat(Frames(messages)))
  {
    if messages != [] {
      FramesLayout(messages[1..]);
      assert messages == [messages[0]] + messages[1..];
    }
  }

  /** An unreliable message is its kind, its length and its payload. A reliable one has kind 7, and as payload
      its class byte, 1 for ordered and 2 for unordered, its id, kind, length and payload. No class but 0, 1
      and 2 is written, no reliable message without an id, and nothing over 48 KiB. */
  lemma FrameLayout(message: WireMessage)
    ensures var kind, payload := [message.kind / 0x100, message.kind % 0x100], message.payload;
      EncodeFrame(message)
      == if message.delivery == 0 && |payload| <= 49152 then Encoded(kind + (WriteU32(|payload|) + payload))
         else if message.delivery in {1, 2} && message.deliveryId != 0 && 15 + |payload| <= 49152 then
           Encoded([0, 7] + (WriteU32(15 + |payload|)
                   + ([message.delivery] + (WriteU64(message.deliveryId) + (kind + (WriteU32(|payload|) + payload))))))
         else Refused
  {
    U16Layout(message.kind);
    U16Layout(7);
    var kind, payload := [message.kind / 0x100, message.kind % 0x100], message.payload;
    if message.delivery == 0 && |payload| <= 49152 {
      Assoc(kind, WriteU32(|payload|), payload);
    } else if EncodeEnvelope(message).Encoded? {
      Assoc([0, 7], WriteU32(15 + |payload|), EncodeEnvelope(message).bytes);
    }
  }

  /** Whatever the readers accept starts with ES and version 1, announces 1 to 32 messages, and has exactly the
      announced length behind its 36 bytes of header; Go's reader takes no more than 60 KiB there. */
  lemma ReadersInsist(dialect: Dialect, data: seq<byte>)
    requires DecodePacket(dialect, data).Parsed?
    ensures |data| >= 36 && data[..3] == [0x45, 0x53, 1] && 1 <= data[3] <= 32
    ensures |DecodePacket(dialect, data).value.messages| == data[3]
    ensures |data| == 36 + FromBigEndian(data[32..36])
    ensures dialect.Go? ==> |data| <= 36 + 61440
  {
    PacketAccepted(dialect, data);
    LengthInsists(dialect, data, data[3]);
  }

  lemma LengthInsists(dialect: Dialect, data: seq<byte>, count: nat)
    requires |data| >= 36 && DecodeNumbers(dialect, data[8..], |data| - 36, count).Parsed?
    ensures |data| == 36 + FromBigEndian(data[32..36])
    ensures |DecodeNumbers(dialect, data[8..], |data| - 36, count).value.messages| == count
  {
    NumbersInsist(dialect, data[8..], |data| - 36, count);
    InnerSlice(data, 8, 24, 28);
  }

  lemma InnerSlice(data: seq<byte>, from: nat, i: nat, j: nat)
    requires i <= j && from + j <= |data|
    ensures data[from..][i..j] == data[from + i..from + j]
  {
  }

  lemma TwoBytes(a: byte, b: byte)
    ensures FromBigEndian([a, b]) == a * 0x100 + b
  {
    assert [a, b][..1] == [a] && [a][..0] == [];
  }

  lemma {:induction false} FrameCount(dialect: Dialect, input: seq<byte>, count: nat)
    requires DecodeFrames(dialect, input, count).Parsed?
    ensures |DecodeFrames(dialect, input, count).value| == count
    decreases count
  {
    if count > 0 {
      FrameCount(dialect, DecodeFrame(dialect, input).rest, count - 1);
    }
  }

  lemma NumbersInsist(dialect: Dialect, input: seq<byte>, available: nat, count: nat)
    requires |input| >= 28 && DecodeNumbers(dialect, input, available, count).Parsed?
    ensures FromBigEndian(input[24..28]) == available
    ensures |DecodeNumbers(dialect, input, available, count).value.messages| == count
  {
    var r1, r2, r3 := input[8..], input[8..][8..], input[8..][8..][8..];
    assert r3 == input[24..] && r3[..4] == input[24..28];
    FrameCount(dialect, r3[4..], count);
  }

  // ----- what the readers accept, exactly -----

  /** The message that an envelope of these bytes holds. */
  function EnvelopeContent(bytes: seq<byte>): WireMessage
    requires |bytes| >= 15
  {
    Widths();
    WireMessage(FromBigEndian(bytes[9..11]), bytes[15..], bytes[0], FromBigEndian(bytes[1..9]))
  }

  /** An envelope has a class, 1 or 2, eight bytes of id, two of kind and four of length, and then just the
      payload of that length. Go also asks for an id, and for a payload, of at most 48 KiB. */
  lemma EnvelopeAccepted(dialect: Dialect, bytes: seq<byte>)
    ensures DecodeEnvelope(dialect, bytes)
         == if |bytes| >= 15 && bytes[0] in {1, 2} && |bytes| == 15 + FromBigEndian(bytes[11..15])
               && (dialect.Go? ==> EnvelopeContent(bytes).deliveryId != 0 && 15 < |bytes| <= 15 + 49152)
            then Parsed(EnvelopeContent(bytes), []) else Failed
  {
    if |bytes| >= 15 {
      EnvelopeHead(dialect, bytes);
      InnerAccepted(dialect, bytes[0], EnvelopeContent(bytes).deliveryId, bytes[9..]);
      assert bytes[9..][..2] == bytes[9..11] && bytes[9..][2..6] == bytes[11..15] && bytes[9..][6..] == bytes[15..];
    } else {
      ShortEnvelope(dialect, bytes);
    }
  }

  lemma EnvelopeHead(dialect: Dialect, bytes: seq<byte>)
    requires |bytes| >= 15
    ensures DecodeEnvelope(dialect, bytes)
         == if bytes[0] in {1, 2} && (dialect.Go? ==> EnvelopeContent(bytes).deliveryId != 0)
            then DecodeInner(dialect, bytes[0], EnvelopeContent(bytes).deliveryId, bytes[9..]) else Failed
  {
    assert bytes[1..][..8] == bytes[1..9] && bytes[1..][8..] == bytes[9..];
  }

  lemma InnerAccepted(dialect: Dialect, delivery: byte, id: u64, input: seq<byte>)
    requires |input| >= 6
    ensures var length := FromBigEndian(input[2..6]);
      DecodeInner(dialect, delivery, id, input)
      == if |input| == 6 + length && (dialect.Go? ==> 0 < length <= 49152)
         then
           (Widths(); Parsed(WireMessage(FromBigEndian(input[..2]), input[6..], delivery, id), []))
         else Failed
  {
    var afterKind := input[2..];
    assert afterKind[..4] == input[2..6] && afterKind[4..] == input[6..];
    assert input[6..][..|input| - 6] == input[6..] && input[6..][|input| - 6..] == [];
  }

  lemma ShortEnvelope(dialect: Dialect, bytes: seq<byte>)
    requires |bytes| < 15
    ensures DecodeEnvelope(dialect, bytes).Failed?
  {
  }

  /** The unreliable message that a frame of this length holds. */
  function FrameContent(input: seq<byte>, length: nat): WireMessage
    requires 6 + length <= |input|
  {
    Widths();
    WireMessage(FromBigEndian(input[..2]), input[6..6 + length], 0, 0)
  }

  /** A frame has two bytes of kind and four of length, at most 48 KiB, and then at least that many bytes; kind 7
      announces an envelope, and every other one an unreliable message. Go does not take an empty payload at the
      very end. */
  lemma FrameAccepted(dialect: Dialect, input: seq<byte>)
    ensures var length := if |input| < 6 then 0 else FromBigEndian(input[2..6]);
      DecodeFrame(dialect, input)
      == if |input| < 6 || length > 49152 || |input| < 6 + length || (dialect.Go? && |input| == 6) then Failed
         else if FromBigEndian(input[..2]) == 7 then
           match DecodeEnvelope(dialect, input[6..6 + length])
           case Parsed(message, _) => Parsed(message, input[6 + length..])
           case Failed => Failed
         else Parsed(FrameContent(input, length), input[6 + length..])
  {
    if |input| >= 6 {
      FrameHead(dialect, input);
      var body, length := input[6..], FromBigEndian(input[2..6]);
      if |body| >= length {
        assert body[..length] == input[6..6 + length] && body[length..] == input[6 + length..];
      }
    }
  }

  lemma FrameHead(dialect: Dialect, input: seq<byte>)
    requires |input| >= 6
    ensures ReadU16(dialect, input) == (Widths(); Parsed(FromBigEndian(input[..2]), input[2..]))
    ensures ReadU32(dialect, input[2..]) == (Widths(); Parsed(FromBigEndian(input[2..6]), input[6..]))
  {
    assert input[2..][..4] == input[2..6] && input[2..][4..] == input[6..];
  }

  lemma HeaderOf(dialect: Dialect, data: seq<byte>)
    requires |data| >= 36
    ensures DecodeCount(dialect, data)
         == if data[..3] == [0x45, 0x53, 1] && 1 <= data[3] <= 32 then Parsed(data[3], data[8..]) else Failed
  {
    TwoBytes(data[0], data[1]);
    assert data[..2] == [data[0], data[1]] && data[..3] == [data[0], data[1], data[2]];
    assert data[2..][1..] == data[3..] && data[3..][1..] == data[4..];
    WordSkipped(dialect, data);
  }

  lemma WordSkipped(dialect: Dialect, data: seq<byte>)
    requires |data| >= 8
    ensures ReadU32(dialect, data[4..]).Parsed? && ReadU32(dialect, data[4..]).rest == data[8..]
  {
    assert data[4..][4..] == data[8..];
  }

  /** A packet starts with ES, version 1 and a count of 1 to 32, and the rest is read from the ninth byte on: the
      four bytes in between are not looked at. Go takes no more than 60 KiB behind the header. */
  lemma PacketAccepted(dialect: Dialect, data: seq<byte>)
    requires |data| >= 36
    ensures DecodePacket(dialect, data)
         == if (dialect.Rust? || |data| <= 36 + 61440) && data[..3] == [0x45, 0x53, 1] && 1 <= data[3] <= 32
            then DecodeNumbers(dialect, data[8..], |data| - 36, data[3]) else Failed
  {
    HeaderOf(dialect, data);
  }

  // ----- values -----

  /** Every kind of value has its own first byte, 0 to 7; numbers follow as eight bytes, negative ones in two's
      complement; strings and collections start with their size in two bytes. */
  lemma ValueLayout(value: Value, depth: nat)
    requires EncodeValue(value, depth).Encoded?
    ensures var bytes := EncodeValue(value, depth).bytes;
      match value
      case Null => bytes == [0]
      case Bool(flag) => bytes == [1, if flag then 1 else 0]
      case Int64(x) => bytes == [2] + WriteU64(if x < 0 then x + 0x1_0000_0000_0000_0000 else x)
      case Uint64(x) => bytes == [3] + WriteU64(x)
      case Float64(pattern) => bytes == [4] + WriteU64(pattern)
      case Text(text) => bytes == [5, |text| / 0x100, |text| % 0x100] + text
      case Object(fields) => bytes == [6, |fields| / 0x100, |fields| % 0x100] + bytes[3..]
      case List(items) => bytes == [7, |items| / 0x100, |items| % 0x100] + bytes[3..]
  {
    match value
    case Text(text) => U16Layout(|text|);
    case Object(fields) => U16Layout(|fields|);
    case List(items) => U16Layout(|items|);
    case _ =>
  }

  ghost function Written(value: Value, depth: nat): seq<byte> {
    var encoded := EncodeValue(value, depth);
    if encoded.Encoded? then encoded.bytes else []
  }

  ghost function Items(items: seq<Value>, depth: nat): seq<seq<byte>> {
    if items == [] then [] else [Written(items[0], depth)] + Items(items[1..], depth)
  }

  lemma ItemsStep(list: Value, count: nat, depth: nat)
    requires list.List? && 0 < count <= |list.items|
    ensures var item := list.items[|list.items| - count];
      EncodeItems(list, count, depth)
      == if EncodeValue(item, depth).Refused? || EncodeItems(list, count - 1, depth).Refused? then Refused
         else Encoded(Written(item, depth) + EncodeItems(list, count - 1, depth).bytes)
  {
  }

  /** The encoding of these items, one after the other, or none if one of them is refused. */
  ghost predicate WritesItems(items: seq<Value>, depth: nat, encoding: Encoding) {
    && (encoding.Refused? <==> exists item <- items :: EncodeValue(item, depth).Refused?)
    && (encoding.Encoded? ==> encoding.bytes == Concat(Items(items, depth)))
  }

  lemma {:induction false} ItemsLayout(list: Value, count: nat, depth: nat)
    requires list.List? && count <= |list.items|
    ensures WritesItems(list.items[|list.items| - count..], depth, EncodeItems(list, count, depth))
  {
    if count > 0 {
      var item, others := list.items[|list.items| - count], list.items[|list.items| - (count - 1)..];
      ItemsLayout(list, count - 1, depth);
      ItemsStep(list, count, depth);
      OneMoreItem(item, others, depth, EncodeItems(list, count - 1, depth), EncodeItems(list, count, depth));
      assert list.items[|list.items| - count..] == [item] + others;
    }
  }

  lemma OneMoreItem(item: Value, others: seq<Value>, depth: nat, rest: Encoding, whole: Encoding)
    requires WritesItems(others, depth, rest)
    requires whole == if EncodeValue(item, depth).Refused? || rest.Refused? then Refused
                      else Encoded(Written(item, depth) + rest.bytes)
    ensures WritesItems([item] + others, depth, whole)
  {
    assert ([item] + others)[1..] == others;
    var parts := Items(others, depth);
    assert ([Written(item, depth)] + parts)[1..] == parts;
    assert forall x :: x in [item] + others <==> x == item || x in others;
  }

  /** A list is written as its items in order. It is refused more than 16 levels deep, with more than 65535
      items, and with an item that is refused one level deeper. */
  lemma ListLayout(items: seq<Value>, depth: nat)
    ensures EncodeValue(List(items), depth).Refused? <==>
      depth > 16 || |items| > 65535 || exists item <- items :: EncodeValue(item, depth + 1).Refused?
    ensures EncodeValue(List(items), depth).Encoded? ==>
      EncodeValue(List(items), depth).bytes[3..] == Concat(Items(items, depth + 1))
  {
    ItemsLayout(List(items), |items|, depth + 1);
    assert items[|items| - |items|..] == items;
  }

  /** A field is its name and its value. */
  ghost function Field(fields: map<Str, Value>, k: Str, depth: nat): seq<byte>
    requires k in fields
  {
    [|k| / 0x100 % 0x100, |k| % 0x100] + k + Written(fields[k], depth)
  }

  ghost function Fields(fields: map<Str, Value>, keys: seq<Str>, depth: nat): seq<seq<byte>>
    requires forall k <- keys :: k in fields
  {
    if keys == [] then [] else [Field(fields, keys[0], depth)] + Fields(fields, keys[1..], depth)
  }

  /** The writer refuses the field with this name. */
  ghost predicate FieldRefused(fields: map<Str, Value>, k: Str, depth: nat)
    requires k in fields
  {
    |k| > 2048 || EncodeValue(fields[k], depth).Refused?
  }

  lemma FieldsStep(parent: Value, keys: seq<Str>, depth: nat)
    requires parent.Object? && keys != [] && forall k <- keys :: k in parent.fields
    ensures EncodeEntries(parent, keys, depth)
         == if FieldRefused(parent.fields, keys[0], depth) || EncodeEntries(parent, keys[1..], depth).Refused?
            then Refused
            else Encoded(Field(parent.fields, keys[0], depth) + EncodeEntries(parent, keys[1..], depth).bytes)
  {
    NameLayout(keys[0]);
  }

  lemma NameLayout(k: Str)
    ensures WriteString(k)
         == if |k| > 2048 then Refused else Encoded([|k| / 0x100 % 0x100, |k| % 0x100] + k)
  {
    StringLayout(k);
  }

  lemma {:induction false} FieldsLayout(parent: Value, keys: seq<Str>, depth: nat)
    requires parent.Object? && forall k <- keys :: k in parent.fields
    ensures EncodeEntries(parent, keys, depth).Refused? <==> exists k <- keys :: FieldRefused(parent.fields, k, depth)
    ensures EncodeEntries(parent, keys, depth).Encoded? ==>
      EncodeEntries(parent, keys, depth).bytes == Concat(Fields(parent.fields, keys, depth))
  {
    if keys != [] {
      FieldsLayout(parent, keys[1..], depth);
      FieldsStep(parent, keys, depth);
      assert keys == [keys[0]] + keys[1..];
      var others := Fields(parent.fields, keys[1..], depth);
      assert ([Field(parent.fields, keys[0], depth)] + others)[1..] == others;
    }
  }

  /** `keys` are the names of the fields, each once, in ascending byte order. */
  ghost predicate NamesInOrder(fields: map<Str, Value>, keys: seq<Str>) {
    && (forall k :: k in keys <==> k in fields)
    && forall i, j :: 0 <= i < j < |keys| ==> StrLess(keys[i], keys[j])
  }

  /** An object is written as its fields by ascending name. It is refused more than 16 levels deep, with more
      than 65535 fields, and with a name over 2048 bytes or a field that is refused one level deeper. */
  lemma ObjectLayout(fields: map<Str, Value>, depth: nat)
    ensures EncodeValue(Object(fields), depth).Refused? <==>
      || depth > 16 || |fields| > 65535
      || exists k <- fields :: FieldRefused(fields, k, depth + 1)
    ensures EncodeValue(Object(fields), depth).Encoded? ==>
      exists keys | NamesInOrder(fields, keys) ::
        EncodeValue(Object(fields), depth).bytes[3..] == Concat(Fields(fields, keys, depth + 1))
  {
    var keys := SortedKeys(fields.Keys);
    SelectedAll(Object(fields), keys);
    assert forall k :: k in keys <==> k in ElementSet(keys);
    FieldsLayout(Object(fields), keys, depth + 1);
    assert NamesInOrder(fields, keys);
  }

  /** Other values are refused only more than 16 levels deep, and strings over 2048 bytes. */
  lemma LeafLimits(value: Value, depth: nat)
    requires !value.Object? && !value.List?
    ensures EncodeValue(value, depth).Refused? <==> depth > 16 || (value.Text? && |value.text| > 2048)
  {
  }

  /** The readers take no value more than 16 levels deep and no first byte but 0 to 7, which says the kind. */
  lemma ValueReadersInsist(dialect: Dialect, input: seq<byte>, depth: nat)
    requires DecodeValue(dialect, input, depth).Parsed?
    ensures depth <= 16 && input != [] && input[0] <= 7
    ensures var value := DecodeValue(dialect, input, depth).value;
      && (value.Null? <==> input[0] == 0) && (value.Bool? <==> input[0] == 1)
      && (value.Int64? <==> input[0] == 2) && (value.Uint64? <==> input[0] == 3)
      && (value.Float64? <==> input[0] == 4) && (value.Text? <==> input[0] == 5)
      && (value.Object? <==> input[0] == 6) && (value.List? <==> input[0] == 7)
  {
  }

  /** A flag is true for every byte but 0. */
  lemma FlagRead(dialect: Dialect, flag: byte, rest: seq<byte>, depth: nat)
    requires depth <= 16
    ensures DecodeValue(dialect, [1] + ([flag] + rest), depth) == Parsed(Bool(flag != 0), rest)
  {
    DecodeTagged(dialect, 1, [flag] + rest, depth);
    assert ([flag] + rest)[1..] == rest;
  }

  /** A list in a list, `levels` times, around a null: the readers take 16 levels and no more. */
  function Nest(levels: nat): seq<byte> {
    if levels == 0 then [0] else [7] + (WriteU16(1) + Nest(levels - 1))
  }

  lemma OneItem(dialect: Dialect, input: seq<byte>, depth: nat)
    ensures DecodeItems(dialect, input, 1, depth)
         == match DecodeValue(dialect, input, depth)
            case Parsed(value, rest) => Parsed([value], rest)
            case Failed => Failed
  {
    var first := DecodeValue(dialect, input, depth);
    if first.Parsed? {
      assert DecodeItems(dialect, first.rest, 1 - 1, depth) == Parsed([], first.rest);
      assert [first.value] + [] == [first.value];
    }
  }

  /** The nest comes back with nothing left, at any depth that leaves room for it, and else not at all. */
  ghost predicate NestComesBack(dialect: Dialect, levels: nat, depth: nat) {
    var r := DecodeValue(dialect, Nest(levels), depth);
    if depth + levels <= 16 then r.Parsed? && r.rest == [] else r.Failed?
  }

  lemma {:induction false} DepthLimit(dialect: Dialect, levels: nat, depth: nat)
    ensures NestComesBack(dialect, levels, depth)
    decreases levels
  {
    if depth > 16 || levels == 0 {
      NestEnds(dialect, levels, depth);
    } else {
      DepthLimit(dialect, levels - 1, depth + 1);
      NestStep(dialect, levels, depth);
    }
  }

  lemma NestEnds(dialect: Dialect, levels: nat, depth: nat)
    requires depth > 16 || levels == 0
    ensures NestComesBack(dialect, levels, depth)
  {
  }

  lemma NestStep(dialect: Dialect, levels: nat, depth: nat)
    requires depth <= 16 && levels > 0 && NestComesBack(dialect, levels - 1, depth + 1)
    ensures NestComesBack(dialect, levels, depth)
  {
    var body := Nest(levels - 1);
    DecodeCountedList(dialect, 1, body, depth);
    OneItem(dialect, body, depth + 1);
  }

  // ----- snapshots -----

  /** The objects of a type are written as the fields of an object of depth 0. */
  ghost predicate GroupRefused(snapshot: SnapshotCodec.Snapshot, t: Str)
    requires t in snapshot
  {
    |t| > 2048 || |snapshot[t]| > 65535 || exists id <- snapshot[t] :: FieldRefused(snapshot[t], id, 0)
  }

  /** One type of a snapshot: its name, the number of its objects, and the objects by ascending id. */
  ghost predicate IsGroup(snapshot: SnapshotCodec.Snapshot, t: Str, bytes: seq<byte>)
    requires t in snapshot
  {
    var n := |snapshot[t]|;
    n <= 65535 && |t| <= 2048
    && exists ids | NamesInOrder(snapshot[t], ids) ::
         bytes == [|t| / 0x100, |t| % 0x100] + t + ([n / 0x100, n % 0x100] + Concat(Fields(snapshot[t], ids, 0)))
  }

  lemma GroupLayout(snapshot: SnapshotCodec.Snapshot, t: Str)
    requires t in snapshot
    ensures var name, group := WriteString(t), SnapshotCodec.EncodeGroup(snapshot[t]);
      && (name.Refused? || group.Refused? <==> GroupRefused(snapshot, t))
      && (name.Encoded? && group.Encoded? ==> IsGroup(snapshot, t, name.bytes + group.bytes))
  {
    var objects := snapshot[t];
    var ids := SortedKeys(objects.Keys);
    StringLayout(t);
    SelectedAll(Object(objects), ids);
    assert forall k :: k in ids <==> k in ElementSet(ids);
    FieldsLayout(Object(objects), ids, 0);
    assert NamesInOrder(objects, ids);
    if |objects| <= 65535 {
      U16Layout(|objects|);
    }
  }

  /** `parts` are the types of the snapshot under these names. */
  ghost predicate AreGroups(snapshot: SnapshotCodec.Snapshot, types: seq<Str>, parts: seq<seq<byte>>)
    requires forall t <- types :: t in snapshot
  {
    |parts| == |types| && forall i :: 0 <= i < |types| ==> IsGroup(snapshot, types[i], parts[i])
  }

  lemma {:induction false} GroupsLayout(snapshot: SnapshotCodec.Snapshot, types: seq<Str>)
    returns (parts: seq<seq<byte>>)
    requires forall t <- types :: t in snapshot
    ensures var groups := SnapshotCodec.EncodeGroups(snapshot, types);
      && (groups.Refused? <==> exists t <- types :: GroupRefused(snapshot, t))
      && (groups.Encoded? ==> AreGroups(snapshot, types, parts) && groups.bytes == Concat(parts))
  {
    parts := [];
    if types != [] {
      var others := GroupsLayout(snapshot, types[1..]);
      GroupLayout(snapshot, types[0]);
      assert types == [types[0]] + types[1..];
      if SnapshotCodec.EncodeGroups(snapshot, types).Encoded? {
        var first := WriteString(types[0]).bytes + SnapshotCodec.EncodeGroup(snapshot[types[0]]).bytes;
        parts := [first] + others;
        assert parts[1..] == others;
      }
    }
  }

  /** The types by ascending name, each once, after their number. */
  ghost predicate TypesInOrder(snapshot: SnapshotCodec.Snapshot, types: seq<Str>) {
    && (forall t :: t in types <==> t in snapshot)
    && forall i, j :: 0 <= i < j < |types| ==> StrLess(types[i], types[j])
  }

  /** A snapshot is the number of its types in two bytes and then the types by ascending name. It is refused
      with more than 65535 types, or with a type that is refused: for its name's length, for more than 65535
      objects, or for one of its objects. */
  lemma SnapshotLayout(snapshot: SnapshotCodec.Snapshot)
    ensures var encoded, n := SnapshotCodec.EncodeSnapshot(snapshot), |snapshot|;
      && (encoded.Refused? <==> n > 65535 || exists t <- snapshot :: GroupRefused(snapshot, t))
      && (encoded.Encoded? ==>
            exists types, parts | TypesInOrder(snapshot, types) && AreGroups(snapshot, types, parts) ::
              encoded.bytes == [n / 0x100, n % 0x100] + Concat(parts))
  {
    var types := SortedKeys(snapshot.Keys);
    assert forall t :: t in types <==> t in ElementSet(types);
    var parts := GroupsLayout(snapshot, types);
    assert TypesInOrder(snapshot, types);
    if |snapshot| <= 65535 {
      U16Layout(|snapshot|);
    }
  }
}
