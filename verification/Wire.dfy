/** The framed message and the delivery classes shared by the server and its clients. */
module Wire {
  import opened Bits

  type byte = x: int | 0 <= x < 0x100
  type u16 = x: int | 0 <= x < 0x1_0000
  type u32 = x: int | 0 <= x < 0x1_0000_0000

  const UNRELIABLE: byte := 0
  const RELIABLE_ORDERED: byte := 1
  const RELIABLE_UNORDERED: byte := 2

  /** `delivery` is the raw class byte, so that invalid classes can be written down. */
  datatype WireMessage = WireMessage(kind: u16, payload: seq<byte>, delivery: byte, deliveryId: u64)

  predicate Reliable(delivery: byte) {
    delivery == RELIABLE_ORDERED || delivery == RELIABLE_UNORDERED
  }

  /** What a client negotiated; a client that never sent a hello keeps every class. */
  datatype Terms = Terms(negotiated: bool, capabilities: u64)

  const UNNEGOTIATED: Terms := Terms(false, 0)

  /** `clientSupportsReliable`: capability bit 1 is ordered, bit 2 unordered delivery. */
  predicate Supports(terms: Terms, delivery: byte) {
    || !Reliable(delivery)
    || !terms.negotiated
    || (delivery == RELIABLE_ORDERED && BitAt(terms.capabilities, 1))
    || (delivery == RELIABLE_UNORDERED && BitAt(terms.capabilities, 2))
  }

  /** Class by class: ordered delivery is the capability worth 2, unordered delivery the one worth 4, and
      everything else, like every class before a hello, needs none. */
  lemma SupportsMeaning(terms: Terms, delivery: byte)
    ensures Supports(terms, delivery) <==>
      || delivery !in {1, 2} || !terms.negotiated
      || (terms.capabilities / (if delivery == 1 then 2 else 4)) % 2 == 1
  {
    assert BitAt(terms.capabilities, 1) <==> terms.capabilities / 2 % 2 == 1;
    assert BitAt(terms.capabilities, 2) <==> BitAt(terms.capabilities / 2, 1);
    assert terms.capabilities / 2 / 2 == terms.capabilities / 4;
  }
}
