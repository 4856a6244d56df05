/** Packet framing and the reliable envelope: the Go writer `EncodePacketWithAcks` against the Go
    reader `DecodePacket` and the Rust reader `decode_packet`. */
module PacketCodec {
  import opened Bits
  import opened Wire
  import opened Bytes

  const MAGIC: u16 := 0x4553
  const VERSION: byte := 1
  const PACKET_HEADER: nat := 36
  const MESSAGE_HEADER: nat := 6
  const MAX_PAYLOAD: nat := 60 * 1024
  const MAX_MESSAGE: nat := 48 * 1024
  const MAX_MESSAGES: nat := 32
  const RELIABLE_KIND: u16 := 7

  datatype Packet = Packet(sequence: u64, ack: u64, ackBits: u64, messages: seq<WireMessage>)

  // ----- writer -----

  function EncodeEnvelope(message: WireMessage): Encoding {
    if !Reliable(message.delivery) || message.deliveryId == 0 || |message.payload| > MAX_MESSAGE then Refused
    else
      var bytes := [message.delivery] + (WriteU64(message.deliveryId)
                   + (WriteU16(message.kind) + (WriteU32(|message.payload|) + message.payload)));
      if |bytes| > MAX_MESSAGE then Refused else Encoded(bytes)
  }

  function FrameHeader(kind: u16, length: u32): (r: seq<byte>)
    ensures |r| == MESSAGE_HEADER
  {
    WriteU16(kind) + WriteU32(length)
  }

  function EncodeFrame(message: WireMessage): (r: Encoding)
    ensures r.Encoded? ==> |r.bytes| >= MESSAGE_HEADER
  {
    if Reliable(message.delivery) then
      var envelope :- EncodeEnvelope(message);
      Encoded(FrameHeader(RELIABLE_KIND, |envelope|) + envelope)
    else if message.delivery != UNRELIABLE || |message.payload| > MAX_MESSAGE then Refused
    else Encoded(FrameHeader(message.kind, |message.payload|) + message.payload)
  }

  function EncodeFrames(messages: seq<WireMessage>): Encoding {
    if messages == [] then Encoded([])
    else
      var first :- EncodeFrame(messages[0]);
      var others :- EncodeFrames(messages[1..]);
      Encoded(first + others)
  }

  /** The packet header in front of `frames`. */
  function WithHeader(count: byte, sequence: u64, ack: u64, ackBits: u64, frames: seq<byte>): (r: seq<byte>)
    requires |frames| <= MAX_PAYLOAD
    ensures |r| == PACKET_HEADER + |frames|
  {
    WriteU16(MAGIC) + ([VERSION] + ([count] + (WriteU32(0) + WithNumbers(sequence, ack, ackBits, frames))))
  }

  function WithNumbers(sequence: u64, ack: u64, ackBits: u64, frames: seq<byte>): (r: seq<byte>)
    requires |frames| <= MAX_PAYLOAD
    ensures |r| == 28 + |frames|
  {
    WriteU64(sequence) + (WriteU64(ack) + (WriteU64(ackBits) + (WriteU32(|frames|) + frames)))
  }

  function EncodePacket(packet: Packet): Encoding {
    if |packet.messages| == 0 || |packet.messages| > MAX_MESSAGES then Refused
    else
      var frames :- EncodeFrames(packet.messages);
      if |frames| > MAX_PAYLOAD then Refused
      else Encoded(WithHeader(|packet.messages|, packet.sequence, packet.ack, packet.ackBits, frames))
  }

  // ----- readers -----

  function DecodeEnvelope(dialect: Dialect, payload: seq<byte>): (r: Parse<WireMessage>)
    ensures r.Parsed? ==> r.rest == []
  {
    var (delivery, afterClass) :- ReadByte(payload);
    if !Reliable(delivery) then Failed
    else
      var (id, afterId) :- ReadU64(dialect, afterClass);
      if dialect.Go? && id == 0 then Failed else DecodeInner(dialect, delivery, id, afterId)
  }

  /** The message inside an envelope, after class and id. */
  function DecodeInner(dialect: Dialect, delivery: byte, id: u64, input: seq<byte>): (r: Parse<WireMessage>)
    ensures r.Parsed? ==> r.rest == []
  {
    var (kind, afterKind) :- ReadU16(dialect, input);
    var (length, body) :- ReadU32(dialect, afterKind);
    if dialect.Go? && length > MAX_MESSAGE then Failed
    else
      var (inner, rest) :- ReadField(dialect, body, length);
      if rest != [] then Failed else Parsed(WireMessage(kind, inner, delivery, id), [])
  }

  function DecodeFrame(dialect: Dialect, input: seq<byte>): Parse<WireMessage> {
    if |input| < MESSAGE_HEADER then Failed
    else
      var (kind, afterKind) :- ReadU16(dialect, input);
      var (length, body) :- ReadU32(dialect, afterKind);
      if length > MAX_MESSAGE then Failed
      else
        var (payload, rest) :- ReadField(dialect, body, length);
        if kind == RELIABLE_KIND then
          var (message, _) :- DecodeEnvelope(dialect, payload);
          Parsed(message, rest)
        else Parsed(WireMessage(kind, payload, UNRELIABLE, 0), rest)
  }

  function DecodeFrames(dialect: Dialect, input: seq<byte>, count: nat): Parse<seq<WireMessage>>
    decreases count
  {
    if count == 0 then Parsed([], input)
    else
      var (first, rest) :- DecodeFrame(dialect, input);
      var (others, tail) :- DecodeFrames(dialect, rest, count - 1);
      Parsed([first] + others, tail)
  }

  function DecodePacket(dialect: Dialect, data: seq<byte>): Parse<Packet> {
    if |data| < PACKET_HEADER || (dialect.Go? && |data| - PACKET_HEADER > MAX_PAYLOAD) then Failed
    else
      var (count, numbers) :- DecodeCount(dialect, data);
      DecodeNumbers(dialect, numbers, |data| - PACKET_HEADER, count)
  }

  /** Magic, version, message count and the reserved word. */
  function DecodeCount(dialect: Dialect, data: seq<byte>): Parse<byte> {
    var (magic, afterMagic) :- ReadU16(dialect, data);
    if magic != MAGIC then Failed
    else
      var (version, afterVersion) :- ReadByte(afterMagic);
      if version != VERSION then Failed
      else
        var (count, afterCount) :- ReadByte(afterVersion);
        if count == 0 || count > MAX_MESSAGES then Failed
        else
          var (_, rest) :- ReadU32(dialect, afterCount);
          Parsed(count, rest)
  }

  /** Sequence, acknowledgements, payload length and the frames. */
  function DecodeNumbers(dialect: Dialect, input: seq<byte>, available: nat, count: nat): (r: Parse<Packet>)
    ensures r.Parsed? ==> r.rest == []
  {
    var (sequence, r1) :- ReadU64(dialect, input);
    var (ack, r2) :- ReadU64(dialect, r1);
    var (ackBits, r3) :- ReadU64(dialect, r2);
    var (length, body) :- ReadU32(dialect, r3);
    if length != available then Failed
    else
      var (messages, rest) :- DecodeFrames(dialect, body, count);
      if rest != [] then Failed else Parsed(Packet(sequence, ack, ackBits, messages), [])
  }

  // ----- round trip -----

  /** What a reader can know of a message: ids of unreliable messages are not sent. */
  function Received(message: WireMessage): WireMessage {
    if Reliable(message.delivery) then message else message.(deliveryId := 0)
  }

  function ReceivedAll(messages: seq<WireMessage>): seq<WireMessage> {
    if messages == [] then [] else [Received(messages[0])] + ReceivedAll(messages[1..])
  }

  /** A message, followed by `more` bytes, that this reader gives back. An unreliable message of
      kind 7 would be taken for an envelope; Go cannot read an empty payload with nothing behind. */
  predicate Carries(dialect: Dialect, message: WireMessage, more: bool) {
    if Reliable(message.delivery) then dialect.Rust? || message.payload != []
    else message.kind != RELIABLE_KIND && (dialect.Rust? || message.payload != [] || more)
  }

  predicate CarriesAll(dialect: Dialect, messages: seq<WireMessage>) {
    forall i :: 0 <= i < |messages| ==> Carries(dialect, messages[i], i < |messages| - 1)
  }

  lemma EnvelopeRoundTrip(dialect: Dialect, message: WireMessage)
    requires EncodeEnvelope(message).Encoded?
    ensures DecodeEnvelope(dialect, EncodeEnvelope(message).bytes)
         == if dialect.Rust? || message.payload != [] then Parsed(message, []) else Failed
  {
    var length: u32 := |message.payload|;
    var e4 := WriteU32(length) + message.payload;
    var e3 := WriteU16(message.kind) + e4;
    var e2 := WriteU64(message.deliveryId) + e3;
    assert ([message.delivery] + e2)[1..] == e2;
    U64Back(dialect, message.deliveryId, e3);
    U16Back(dialect, message.kind, e4);
    U32Back(dialect, length, message.payload);
    ReadBack(dialect, message.payload, []);
    assert message.payload + [] == message.payload;
  }

  lemma FrameBack(dialect: Dialect, kind: u16, payload: seq<byte>, rest: seq<byte>)
    requires |payload| <= MAX_MESSAGE
    ensures DecodeFrame(dialect, FrameHeader(kind, |payload|) + payload + rest)
         == if !Readable(dialect, payload, rest) then Failed
            else if kind == RELIABLE_KIND then
              match DecodeEnvelope(dialect, payload)
              case Parsed(message, _) => Parsed(message, rest)
              case Failed => Failed
            else Parsed(WireMessage(kind, payload, UNRELIABLE, 0), rest)
  {
    var length: u32 := |payload|;
    Assoc4(WriteU16(kind), WriteU32(length), payload, rest);
    U16Back(dialect, kind, WriteU32(length) + (payload + rest));
    U32Back(dialect, length, payload + rest);
    ReadBack(dialect, payload, rest);
  }

  lemma EnvelopeIsReliable(dialect: Dialect, payload: seq<byte>)
    ensures DecodeEnvelope(dialect, payload).Parsed? ==> Reliable(DecodeEnvelope(dialect, payload).value.delivery)
  {
  }

  /** One frame comes back as it was sent iff the reader can carry it. */
  lemma FrameRoundTrip(dialect: Dialect, message: WireMessage, rest: seq<byte>)
    requires EncodeFrame(message).Encoded?
    ensures var r := DecodeFrame(dialect, EncodeFrame(message).bytes + rest);
      if Carries(dialect, message, rest != []) then r == Parsed(Received(message), rest)
      else r.Failed? || r.value != Received(message)
  {
    if Reliable(message.delivery) {
      var envelope := EncodeEnvelope(message).bytes;
      FrameBack(dialect, RELIABLE_KIND, envelope, rest);
      EnvelopeRoundTrip(dialect, message);
    } else {
      FrameBack(dialect, message.kind, message.payload, rest);
      EnvelopeIsReliable(dialect, message.payload);
    }
  }

  lemma {:induction false} FramesRoundTrip(dialect: Dialect, messages: seq<WireMessage>)
    requires EncodeFrames(messages).Encoded?
    ensures var r := DecodeFrames(dialect, EncodeFrames(messages).bytes, |messages|);
      if CarriesAll(dialect, messages) then r == Parsed(ReceivedAll(messages), [])
      else r.Failed? || r.value != ReceivedAll(messages)
  {
    if messages != [] {
      var others := EncodeFrames(messages[1..]).bytes;
      FrameRoundTrip(dialect, messages[0], others);
      FramesRoundTrip(dialect, messages[1..]);
      FramesNonEmpty(messages[1..]);
      CarriesStep(dialect, messages);
      var first := DecodeFrame(dialect, EncodeFrame(messages[0]).bytes + others);
      if first.Parsed? {
        var tail := DecodeFrames(dialect, first.rest, |messages| - 1);
        if tail.Parsed? {
          ListsDiffer(first.value, tail.value, Received(messages[0]), ReceivedAll(messages[1..]));
        }
      }
    }
  }

  lemma ListsDiffer(a: WireMessage, x: seq<WireMessage>, b: WireMessage, y: seq<WireMessage>)
    ensures [a] + x == [b] + y <==> a == b && x == y
  {
    assert ([a] + x)[0] == a && ([a] + x)[1..] == x;
    assert ([b] + y)[0] == b && ([b] + y)[1..] == y;
  }

  lemma FramesNonEmpty(messages: seq<WireMessage>)
    requires EncodeFrames(messages).Encoded?
    ensures EncodeFrames(messages).bytes == [] <==> messages == []
  {
  }

  lemma CarriesStep(dialect: Dialect, messages: seq<WireMessage>)
    requires messages != []
    ensures CarriesAll(dialect, messages)
        <==> Carries(dialect, messages[0], |messages| > 1) && CarriesAll(dialect, messages[1..])
  {
    var rest := messages[1..];
    assert forall i :: 0 <= i < |rest| ==> rest[i] == messages[i + 1];
    if Carries(dialect, messages[0], |messages| > 1) && CarriesAll(dialect, rest) {
      forall i | 0 <= i < |messages|
        ensures Carries(dialect, messages[i], i < |messages| - 1)
      {
        assert i > 0 ==> messages[i] == rest[i - 1];
      }
    }
    if CarriesAll(dialect, messages) {
      forall i | 0 <= i < |rest|
        ensures Carries(dialect, rest[i], i < |rest| - 1)
      {
        assert Carries(dialect, messages[i + 1], i + 1 < |messages| - 1);
      }
    }
  }

  lemma CountBack(dialect: Dialect, count: byte, numbers: seq<byte>)
    requires 1 <= count <= MAX_MESSAGES
    ensures DecodeCount(dialect, WriteU16(MAGIC) + ([VERSION] + ([count] + (WriteU32(0) + numbers))))
         == Parsed(count, numbers)
  {
    var h4 := WriteU32(0) + numbers;
    var h3 := [count] + h4;
    var h2 := [VERSION] + h3;
    U16Back(dialect, MAGIC, h2);
    assert h2[1..] == h3 && h3[1..] == h4;
    U32Back(dialect, 0, numbers);
  }

  lemma NumbersBack(dialect: Dialect, packet: Packet, frames: seq<byte>, count: nat)
    requires |frames| <= MAX_PAYLOAD
    ensures DecodeNumbers(
              dialect, WithNumbers(packet.sequence, packet.ack, packet.ackBits, frames), |frames|, count)
         == match DecodeFrames(dialect, frames, count)
            case Parsed(messages, rest) =>
              if rest != [] then Failed else Parsed(packet.(messages := messages), [])
            case Failed => Failed
  {
    var h3 := WriteU32(|frames|) + frames;
    var h2 := WriteU64(packet.ackBits) + h3;
    U64Back(dialect, packet.sequence, WriteU64(packet.ack) + h2);
    U64Back(dialect, packet.ack, h2);
    U64Back(dialect, packet.ackBits, h3);
    U32Back(dialect, |frames|, frames);
  }

  /** The packet round trip, for every packet the Go writer accepts: the reader gives back the
      sequence, the acknowledgements and all messages if, and only if, it can carry each of them. */
  lemma PacketRoundTrip(dialect: Dialect, packet: Packet)
    requires EncodePacket(packet).Encoded?
    ensures DecodePacket(dialect, EncodePacket(packet).bytes)
         == Parsed(packet.(messages := ReceivedAll(packet.messages)), [])
        <==> CarriesAll(dialect, packet.messages)
  {
    var frames := EncodeFrames(packet.messages).bytes;
    CountBack(dialect, |packet.messages|, WithNumbers(packet.sequence, packet.ack, packet.ackBits, frames));
    NumbersBack(dialect, packet, frames, |packet.messages|);
    FramesRoundTrip(dialect, packet.messages);
  }

  lemma SingleMessage(dialect: Dialect, message: WireMessage)
    ensures ReceivedAll([message]) == [Received(message)]
    ensures CarriesAll(dialect, [message]) <==> Carries(dialect, message, false)
  {
    assert [message][1..] == [];
  }

  /** A packet of one message, as the server and the clients send them. */
  lemma SinglePacket(dialect: Dialect, sequence: u64, ack: u64, ackBits: u64, message: WireMessage)
    requires EncodePacket(Packet(sequence, ack, ackBits, [message])).Encoded?
    ensures DecodePacket(dialect, EncodePacket(Packet(sequence, ack, ackBits, [message])).bytes)
         == Parsed(Packet(sequence, ack, ackBits, [Received(message)]), [])
        <==> Carries(dialect, message, false)
  {
    SingleMessage(dialect, message);
    PacketRoundTrip(dialect, Packet(sequence, ack, ackBits, [message]));
  }

  /** Whether a packet can be encoded, and how long it is, depends on its messages alone; so a
      message that was encoded once can be sent again under any later sequence and acks. */
  lemma ReencodingKeepsLength(packet: Packet, sequence: u64, ack: u64, ackBits: u64)
    requires EncodePacket(packet).Encoded?
    ensures var again := EncodePacket(packet.(sequence := sequence, ack := ack, ackBits := ackBits));
      again.Encoded? && |again.bytes| == |EncodePacket(packet).bytes|
  {
  }
}
