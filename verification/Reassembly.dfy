/** Duplicate suppression and ordered reassembly of reliable messages: the Go server's
    `acceptReliableIncomingMessages` and its Rust and C# counterparts. */
module Reassembly {
  import opened Bits
  import opened Wire

  datatype Inbox = Inbox(
    next: nat,
    buffer: map<u64, WireMessage>,
    orderedReceived: set<u64>,
    unorderedReceived: set<u64>)

  const EMPTY: Inbox := Inbox(1, map[], {}, {})

  datatype Outcome = Outcome(inbox: Inbox, accepted: seq<WireMessage>)

  // ----- specification of the step -----

  /** Releases the buffered run that starts at `next`. */
  function Drain(inbox: Inbox): Outcome
    decreases inbox.buffer.Keys
  {
    if inbox.next in inbox.buffer then
      var message := inbox.buffer[inbox.next];
      var rest := Drain(inbox.(next := inbox.next + 1,
                               buffer := inbox.buffer - {inbox.next},
                               orderedReceived := inbox.orderedReceived + {message.deliveryId}));
      Outcome(rest.inbox, [message] + rest.accepted)
    else
      Outcome(inbox, [])
  }

  function AcceptOrdered(inbox: Inbox, message: WireMessage): Outcome {
    var id := message.deliveryId;
    if id in inbox.orderedReceived || id in inbox.buffer || id < inbox.next then
      Outcome(inbox, [])
    else if id > inbox.next then
      Outcome(inbox.(buffer := inbox.buffer[id := message]), [])
    else
      var rest := Drain(inbox.(next := id + 1, orderedReceived := inbox.orderedReceived + {id}));
      Outcome(rest.inbox, [message] + rest.accepted)
  }

  /** A reliable message that takes part in de-duplication at all. */
  predicate Counts(terms: Terms, message: WireMessage) {
    Reliable(message.delivery) && Supports(terms, message.delivery) && message.deliveryId != 0
  }

  function AcceptOne(terms: Terms, inbox: Inbox, message: WireMessage): Outcome {
    if message.delivery == UNRELIABLE then
      Outcome(inbox, [message])
    else if !Counts(terms, message) then
      Outcome(inbox, [])
    else if message.delivery == RELIABLE_ORDERED then
      AcceptOrdered(inbox, message)
    else if message.deliveryId in inbox.unorderedReceived then
      Outcome(inbox, [])
    else
      Outcome(inbox.(unorderedReceived := inbox.unorderedReceived + {message.deliveryId}), [message])
  }

  function AcceptAll(terms: Terms, inbox: Inbox, messages: seq<WireMessage>): Outcome {
    if messages == [] then Outcome(inbox, [])
    else
      var before := AcceptAll(terms, inbox, messages[..|messages| - 1]);
      var last := AcceptOne(terms, before.inbox, messages[|messages| - 1]);
      Outcome(last.inbox, before.accepted + last.accepted)
  }

  // ----- reference definitions, free of any receiver state -----

  function OfClass(messages: seq<WireMessage>, delivery: byte): seq<WireMessage> {
    if messages == [] then []
    else
      var before := OfClass(messages[..|messages| - 1], delivery);
      var last := messages[|messages| - 1];
      if last.delivery == delivery then before + [last] else before
  }

  /** The first arrival of every id of one class. */
  function Arrived(terms: Terms, messages: seq<WireMessage>, delivery: byte): map<u64, WireMessage> {
    if messages == [] then map[]
    else
      var before := Arrived(terms, messages[..|messages| - 1], delivery);
      var last := messages[|messages| - 1];
      if last.delivery == delivery && Counts(terms, last) && last.deliveryId !in before
      then before[last.deliveryId := last] else before
  }

  /** The first arrivals of the unordered ids, in order of arrival. */
  function UnorderedStream(terms: Terms, messages: seq<WireMessage>): seq<WireMessage> {
    if messages == [] then []
    else
      var before := messages[..|messages| - 1];
      var last := messages[|messages| - 1];
      if last.delivery == RELIABLE_UNORDERED && Counts(terms, last)
         && last.deliveryId !in Arrived(terms, before, RELIABLE_UNORDERED)
      then UnorderedStream(terms, before) + [last] else UnorderedStream(terms, before)
  }

  /** `next` is the least positive id missing from `arrived`. */
  ghost predicate LeastMissing(arrived: map<u64, WireMessage>, next: nat) {
    && next >= 1 && next !in arrived
    && forall i :: 1 <= i < next ==> i in arrived
  }

  /** The messages with ids from `first` up to, not including, `next`, in id order. */
  ghost function Stretch(arrived: map<u64, WireMessage>, first: nat, next: nat): seq<WireMessage>
    requires forall i :: first <= i < next ==> i in arrived
  {
    if next <= first then [] else Stretch(arrived, first, next - 1) + [arrived[next - 1]]
  }

  ghost function Above(arrived: map<u64, WireMessage>, bound: nat): map<u64, WireMessage> {
    map i | i in arrived && i > bound :: arrived[i]
  }

  ghost predicate WellKeyed(arrived: map<u64, WireMessage>, delivery: byte) {
    forall i <- arrived :: i != 0 && arrived[i].deliveryId == i && arrived[i].delivery == delivery
  }

  /** What a receiver holds once exactly the ordered messages `arrived` have come in. */
  ghost predicate Holds(inbox: Inbox, arrived: map<u64, WireMessage>) {
    && LeastMissing(arrived, inbox.next)
    && inbox.buffer == Above(arrived, inbox.next)
    && (forall i :: i in inbox.orderedReceived <==> 1 <= i < inbox.next)
  }

  // ----- proofs -----

  lemma {:induction false} StretchSplit(arrived: map<u64, WireMessage>, first: nat, next: nat)
    requires forall i :: first <= i < next ==> i in arrived
    requires first < next
    ensures Stretch(arrived, first, next) == [arrived[first]] + Stretch(arrived, first + 1, next)
  {
    if first + 1 < next {
      StretchSplit(arrived, first, next - 1);
    }
  }

  lemma {:induction false} StretchJoin(arrived: map<u64, WireMessage>, first: nat, middle: nat, next: nat)
    requires forall i :: first <= i < next ==> i in arrived
    requires first <= middle <= next
    ensures Stretch(arrived, first, middle) + Stretch(arrived, middle, next) == Stretch(arrived, first, next)
  {
    if middle < next {
      StretchJoin(arrived, first, middle, next - 1);
    }
  }

  lemma {:induction false} StretchGrows(
    arrived: map<u64, WireMessage>, more: map<u64, WireMessage>, first: nat, next: nat)
    requires forall i :: first <= i < next ==> i in arrived
    requires forall i <- arrived :: i in more && more[i] == arrived[i]
    ensures Stretch(arrived, first, next) == Stretch(more, first, next)
  {
    if first < next {
      StretchGrows(arrived, more, first, next - 1);
    }
  }

  lemma {:induction false} ArrivedWellKeyed(terms: Terms, messages: seq<WireMessage>, delivery: byte)
    ensures WellKeyed(Arrived(terms, messages, delivery), delivery)
  {
    if messages != [] {
      ArrivedWellKeyed(terms, messages[..|messages| - 1], delivery);
    }
  }

  /** Draining stops at the least missing id and releases exactly the run before it. */
  lemma {:induction false} DrainReleases(inbox: Inbox, arrived: map<u64, WireMessage>)
    requires WellKeyed(arrived, RELIABLE_ORDERED)
    requires inbox.next >= 1 && forall i :: 1 <= i < inbox.next ==> i in arrived
    requires inbox.buffer == Above(arrived, inbox.next - 1)
    requires forall i :: i in inbox.orderedReceived <==> 1 <= i < inbox.next
    ensures Holds(Drain(inbox).inbox, arrived)
    ensures Drain(inbox).inbox.unorderedReceived == inbox.unorderedReceived
    ensures Drain(inbox).inbox.next >= inbox.next
    ensures Drain(inbox).accepted == Stretch(arrived, inbox.next, Drain(inbox).inbox.next)
    decreases inbox.buffer.Keys
  {
    if inbox.next in inbox.buffer {
      var message := inbox.buffer[inbox.next];
      var step := inbox.(next := inbox.next + 1,
                         buffer := inbox.buffer - {inbox.next},
                         orderedReceived := inbox.orderedReceived + {message.deliveryId});
      assert step.buffer == Above(arrived, step.next - 1);
      DrainReleases(step, arrived);
      StretchSplit(arrived, inbox.next, Drain(step).inbox.next);
    } else {
      assert inbox.next !in arrived;
    }
  }

  /** One ordered arrival keeps `Holds` and extends the delivered stretch. */
  lemma AcceptOrderedHolds(inbox: Inbox, arrived: map<u64, WireMessage>, message: WireMessage)
    requires WellKeyed(arrived, RELIABLE_ORDERED) && Holds(inbox, arrived)
    requires message.delivery == RELIABLE_ORDERED && message.deliveryId != 0
    ensures var id := message.deliveryId;
      var arrived' := if id in arrived then arrived else arrived[id := message];
      var result := AcceptOrdered(inbox, message);
      && WellKeyed(arrived', RELIABLE_ORDERED)
      && Holds(result.inbox, arrived')
      && result.inbox.unorderedReceived == inbox.unorderedReceived
      && result.inbox.next >= inbox.next
      && result.accepted == Stretch(arrived', inbox.next, result.inbox.next)
  {
    var id := message.deliveryId;
    if id == inbox.next {
      var arrived' := arrived[id := message];
      var step := inbox.(next := id + 1, orderedReceived := inbox.orderedReceived + {id});
      assert step.buffer == Above(arrived', step.next - 1);
      DrainReleases(step, arrived');
      StretchSplit(arrived', id, Drain(step).inbox.next);
    } else if id > inbox.next && id !in inbox.buffer {
      assert id !in arrived;
      assert inbox.buffer[id := message] == Above(arrived[id := message], inbox.next);
    }
  }

  lemma {:induction false} OfClassAppend(left: seq<WireMessage>, right: seq<WireMessage>, delivery: byte)
    ensures OfClass(left + right, delivery) == OfClass(left, delivery) + OfClass(right, delivery)
  {
    if right == [] {
      assert left + right == left;
    } else {
      assert (left + right)[..|left + right| - 1] == left + right[..|right| - 1];
      OfClassAppend(left, right[..|right| - 1], delivery);
    }
  }

  lemma {:induction false} StretchIsOrdered(arrived: map<u64, WireMessage>, first: nat, next: nat, delivery: byte)
    requires WellKeyed(arrived, RELIABLE_ORDERED)
    requires forall i :: first <= i < next ==> i in arrived
    ensures var stretch := Stretch(arrived, first, next);
      OfClass(stretch, delivery) == if delivery == RELIABLE_ORDERED then stretch else []
  {
    if first < next {
      StretchIsOrdered(arrived, first, next - 1, delivery);
      OfClassAppend(Stretch(arrived, first, next - 1), [arrived[next - 1]], delivery);
    }
  }

  /** After any arrivals, in any order and with any duplicates, the receiver's state and all
      three delivered streams are functions of the arrivals alone: ordered messages come out as
      ids 1..n in order, once each, with n + 1 the least id missing; unordered ones once each, at
      their first arrival; unreliable ones as they came. */
  lemma {:induction false} EveryArrivalOrder(terms: Terms, messages: seq<WireMessage>)
    ensures WellKeyed(Arrived(terms, messages, RELIABLE_ORDERED), RELIABLE_ORDERED)
    ensures Determined(terms, messages, AcceptAll(terms, EMPTY, messages))
  {
    ArrivedWellKeyed(terms, messages, RELIABLE_ORDERED);
    if messages == [] {
      assert Above(map[], 1) == map[];
    } else {
      var earlier := messages[..|messages| - 1];
      EveryArrivalOrder(terms, earlier);
      OneMoreArrival(terms, earlier, messages[|messages| - 1], AcceptAll(terms, EMPTY, earlier));
      assert messages == earlier + [messages[|messages| - 1]];
    }
  }

  ghost predicate Determined(terms: Terms, messages: seq<WireMessage>, result: Outcome) {
    var arrived := Arrived(terms, messages, RELIABLE_ORDERED);
    && Holds(result.inbox, arrived)
    && result.inbox.unorderedReceived == Arrived(terms, messages, RELIABLE_UNORDERED).Keys
    && OfClass(result.accepted, RELIABLE_ORDERED) == Stretch(arrived, 1, result.inbox.next)
    && OfClass(result.accepted, RELIABLE_UNORDERED) == UnorderedStream(terms, messages)
    && OfClass(result.accepted, UNRELIABLE) == OfClass(messages, UNRELIABLE)
  }

  /** The induction step of `EveryArrivalOrder`. */
  lemma OneMoreArrival(terms: Terms, earlier: seq<WireMessage>, message: WireMessage, before: Outcome)
    requires WellKeyed(Arrived(terms, earlier, RELIABLE_ORDERED), RELIABLE_ORDERED)
    requires Determined(terms, earlier, before)
    ensures var last := AcceptOne(terms, before.inbox, message);
      Determined(terms, earlier + [message], Outcome(last.inbox, before.accepted + last.accepted))
  {
    var last := AcceptOne(terms, before.inbox, message);
    assert (earlier + [message])[..|earlier|] == earlier;
    OfClassAppend(before.accepted, last.accepted, RELIABLE_ORDERED);
    OfClassAppend(before.accepted, last.accepted, RELIABLE_UNORDERED);
    OfClassAppend(before.accepted, last.accepted, UNRELIABLE);
    if message.delivery == RELIABLE_ORDERED && Counts(terms, message) {
      OrderedArrival(before.inbox, Arrived(terms, earlier, RELIABLE_ORDERED), message);
    } else {
      OtherArrival(terms, before.inbox, message);
    }
  }

  /** Any other message leaves the ordered part alone and delivers at most itself. */
  lemma OtherArrival(terms: Terms, inbox: Inbox, message: WireMessage)
    requires !(message.delivery == RELIABLE_ORDERED && Counts(terms, message))
    ensures var result := AcceptOne(terms, inbox, message);
      && result.inbox.next == inbox.next && result.inbox.buffer == inbox.buffer
      && result.inbox.orderedReceived == inbox.orderedReceived
      && (result.accepted == [] || result.accepted == [message])
      && OfClass(result.accepted, RELIABLE_ORDERED) == []
      && OfClass(result.accepted, RELIABLE_UNORDERED)
         == (if message.delivery == RELIABLE_UNORDERED then result.accepted else [])
      && OfClass(result.accepted, UNRELIABLE) == (if message.delivery == UNRELIABLE then result.accepted else [])
  {
    assert [message][..0] == [];
  }

  /** The ordered case of the induction step: the new stretch continues the old one. */
  lemma OrderedArrival(inbox: Inbox, arrived: map<u64, WireMessage>, message: WireMessage)
    requires WellKeyed(arrived, RELIABLE_ORDERED) && Holds(inbox, arrived)
    requires message.delivery == RELIABLE_ORDERED && message.deliveryId != 0
    ensures var arrived' := if message.deliveryId in arrived then arrived else arrived[message.deliveryId := message];
      var result := AcceptOrdered(inbox, message);
      && Holds(result.inbox, arrived')
      && result.inbox.unorderedReceived == inbox.unorderedReceived
      && Stretch(arrived, 1, inbox.next) + OfClass(result.accepted, RELIABLE_ORDERED)
         == Stretch(arrived', 1, result.inbox.next)
      && OfClass(result.accepted, RELIABLE_UNORDERED) == []
      && OfClass(result.accepted, UNRELIABLE) == []
  {
    var arrived' := if message.deliveryId in arrived then arrived else arrived[message.deliveryId := message];
    var result := AcceptOrdered(inbox, message);
    AcceptOrderedHolds(inbox, arrived, message);
    StretchGrows(arrived, arrived', 1, inbox.next);
    StretchJoin(arrived', 1, inbox.next, result.inbox.next);
    StretchIsOrdered(arrived', inbox.next, result.inbox.next, RELIABLE_ORDERED);
    StretchIsOrdered(arrived', inbox.next, result.inbox.next, RELIABLE_UNORDERED);
    StretchIsOrdered(arrived', inbox.next, result.inbox.next, UNRELIABLE);
  }

  lemma AcceptSingle(terms: Terms, inbox: Inbox, message: WireMessage)
    ensures AcceptAll(terms, inbox, [message]) == AcceptOne(terms, inbox, message)
  {
    assert [message][..0] == [];
  }

  /** How the arrivals were batched into packets does not matter. */
  lemma {:induction false} BatchingIrrelevant(
    terms: Terms, inbox: Inbox, first: seq<WireMessage>, second: seq<WireMessage>)
    ensures var left := AcceptAll(terms, inbox, first);
      var right := AcceptAll(terms, left.inbox, second);
      AcceptAll(terms, inbox, first + second) == Outcome(right.inbox, left.accepted + right.accepted)
  {
    if second == [] {
      assert first + second == first;
    } else {
      assert (first + second)[..|first + second| - 1] == first + second[..|second| - 1];
      BatchingIrrelevant(terms, inbox, first, second[..|second| - 1]);
    }
  }

  /** Two reliable messages of one class with the same id are the same message. */
  ghost predicate FixedById(messages: seq<WireMessage>) {
    forall a <- messages, b <- messages ::
      Reliable(a.delivery) && a.delivery == b.delivery && a.deliveryId == b.deliveryId ==> a == b
  }

  lemma {:induction false} ArrivedMeaning(
    terms: Terms, messages: seq<WireMessage>, delivery: byte, message: WireMessage)
    requires FixedById(messages)
    ensures (message.deliveryId in Arrived(terms, messages, delivery)
             && Arrived(terms, messages, delivery)[message.deliveryId] == message)
            <==> message in messages && message.delivery == delivery && Counts(terms, message)
  {
    if messages != [] {
      var earlier := messages[..|messages| - 1];
      var last := messages[|messages| - 1];
      assert messages == earlier + [last];
      ArrivedMeaning(terms, earlier, delivery, message);
      ArrivedMeaning(terms, earlier, delivery, last);
      ArrivedWellKeyed(terms, earlier, delivery);
      var before := Arrived(terms, earlier, delivery);
      if last.deliveryId in before {
        ArrivedMeaning(terms, earlier, delivery, before[last.deliveryId]);
      }
    }
  }

  /** Confluence: with payloads fixed by id, two arrival sequences that contain the same ordered
      messages leave the same reassembly state and have delivered the same ordered stream. */
  lemma Confluence(terms: Terms, xs: seq<WireMessage>, ys: seq<WireMessage>)
    requires FixedById(xs) && FixedById(ys)
    requires forall m: WireMessage :: m.delivery == RELIABLE_ORDERED ==> (m in xs <==> m in ys)
    ensures var x := AcceptAll(terms, EMPTY, xs);
      var y := AcceptAll(terms, EMPTY, ys);
      && x.inbox.next == y.inbox.next
      && x.inbox.buffer == y.inbox.buffer
      && x.inbox.orderedReceived == y.inbox.orderedReceived
      && OfClass(x.accepted, RELIABLE_ORDERED) == OfClass(y.accepted, RELIABLE_ORDERED)
  {
    var ax := Arrived(terms, xs, RELIABLE_ORDERED);
    var ay := Arrived(terms, ys, RELIABLE_ORDERED);
    EveryArrivalOrder(terms, xs);
    EveryArrivalOrder(terms, ys);
    forall i <- ax
      ensures i in ay && ay[i] == ax[i]
    {
      ArrivedMeaning(terms, xs, RELIABLE_ORDERED, ax[i]);
      ArrivedMeaning(terms, ys, RELIABLE_ORDERED, ax[i]);
    }
    forall i <- ay
      ensures i in ax && ax[i] == ay[i]
    {
      ArrivedMeaning(terms, ys, RELIABLE_ORDERED, ay[i]);
      ArrivedMeaning(terms, xs, RELIABLE_ORDERED, ay[i]);
    }
    assert ax == ay;
  }

  /** An ordered id that never arrives holds back every larger one, for good. */
  lemma GapStalls(terms: Terms, messages: seq<WireMessage>, gap: u64)
    requires gap >= 1
    requires forall m <- messages :: m.delivery == RELIABLE_ORDERED ==> m.deliveryId != gap
    ensures forall m <- OfClass(AcceptAll(terms, EMPTY, messages).accepted, RELIABLE_ORDERED) :: m.deliveryId < gap
  {
    EveryArrivalOrder(terms, messages);
    var arrived := Arrived(terms, messages, RELIABLE_ORDERED);
    ArrivedFrom(terms, messages, RELIABLE_ORDERED);
    assert gap !in arrived;
    StretchIds(arrived, 1, AcceptAll(terms, EMPTY, messages).inbox.next);
  }

  lemma {:induction false} ArrivedFrom(terms: Terms, messages: seq<WireMessage>, delivery: byte)
    ensures forall i <- Arrived(terms, messages, delivery) :: Arrived(terms, messages, delivery)[i] in messages
  {
    if messages != [] {
      ArrivedFrom(terms, messages[..|messages| - 1], delivery);
      assert messages == messages[..|messages| - 1] + [messages[|messages| - 1]];
    }
  }

  lemma {:induction false} StretchIds(arrived: map<u64, WireMessage>, first: nat, next: nat)
    requires WellKeyed(arrived, RELIABLE_ORDERED)
    requires forall i :: first <= i < next ==> i in arrived
    ensures forall m <- Stretch(arrived, first, next) :: first <= m.deliveryId < next
    ensures next >= first ==> |Stretch(arrived, first, next)| == next - first
  {
    if first < next {
      StretchIds(arrived, first, next - 1);
    }
  }

  lemma {:induction false} StretchContains(arrived: map<u64, WireMessage>, first: nat, next: nat, id: nat)
    requires forall i :: first <= i < next ==> i in arrived
    requires first <= id < next
    ensures |Stretch(arrived, first, next)| == next - first
    ensures Stretch(arrived, first, next)[id - first] == arrived[id]
    decreases next
  {
    if id < next - 1 {
      StretchContains(arrived, first, next - 1, id);
    } else if first < next - 1 {
      StretchContains(arrived, first, next - 1, first);
    }
  }

  lemma {:induction false} OfClassMeaning(messages: seq<WireMessage>, delivery: byte, message: WireMessage)
    ensures message in OfClass(messages, delivery) <==> message in messages && message.delivery == delivery
  {
    if messages != [] {
      OfClassMeaning(messages[..|messages| - 1], delivery, message);
      assert messages == messages[..|messages| - 1] + [messages[|messages| - 1]];
    }
  }

  lemma {:induction false} UnorderedStreamMeaning(terms: Terms, messages: seq<WireMessage>, id: u64)
    requires id in Arrived(terms, messages, RELIABLE_UNORDERED)
    ensures Arrived(terms, messages, RELIABLE_UNORDERED)[id] in UnorderedStream(terms, messages)
  {
    var earlier := messages[..|messages| - 1];
    if id in Arrived(terms, earlier, RELIABLE_UNORDERED) {
      UnorderedStreamMeaning(terms, earlier, id);
    }
  }

  lemma ArrivedOnlyGrows(terms: Terms, messages: seq<WireMessage>)
    requires messages != []
    ensures forall i <- Arrived(terms, messages[..|messages| - 1], RELIABLE_UNORDERED) ::
      i in Arrived(terms, messages, RELIABLE_UNORDERED)
  {
  }

  /** No unordered id is delivered twice. */
  lemma {:induction false} UnorderedOnce(terms: Terms, messages: seq<WireMessage>)
    ensures var stream := UnorderedStream(terms, messages);
      && (forall m <- stream :: m.deliveryId in Arrived(terms, messages, RELIABLE_UNORDERED))
      && (forall i, j :: 0 <= i < j < |stream| ==> stream[i].deliveryId != stream[j].deliveryId)
  {
    if messages != [] {
      var earlier := messages[..|messages| - 1];
      UnorderedOnce(terms, earlier);
      ArrivedOnlyGrows(terms, messages);
      var before := UnorderedStream(terms, earlier);
      var last := messages[|messages| - 1];
      var stream := UnorderedStream(terms, messages);
      assert stream == before || stream == before + [last];
      forall i, j | 0 <= i < j < |stream|
        ensures stream[i].deliveryId != stream[j].deliveryId
      {
        assert stream[i] == before[i] && before[i] in before;
      }
    }
  }

  /** Everything delivered reliably had arrived. */
  lemma AcceptedFrom(terms: Terms, messages: seq<WireMessage>)
    ensures var accepted := AcceptAll(terms, EMPTY, messages).accepted;
      forall m <- OfClass(accepted, RELIABLE_ORDERED) + OfClass(accepted, RELIABLE_UNORDERED) :: m in messages
  {
    EveryArrivalOrder(terms, messages);
    ArrivedFrom(terms, messages, RELIABLE_ORDERED);
    StretchFrom(Arrived(terms, messages, RELIABLE_ORDERED), 1, AcceptAll(terms, EMPTY, messages).inbox.next, messages);
    UnorderedFrom(terms, messages);
  }

  lemma {:induction false} StretchFrom(
    arrived: map<u64, WireMessage>, first: nat, next: nat, messages: seq<WireMessage>)
    requires forall i :: first <= i < next ==> i in arrived
    requires forall i <- arrived :: arrived[i] in messages
    ensures forall m <- Stretch(arrived, first, next) :: m in messages
  {
    if first < next {
      StretchFrom(arrived, first, next - 1, messages);
    }
  }

  lemma {:induction false} UnorderedFrom(terms: Terms, messages: seq<WireMessage>)
    ensures forall m <- UnorderedStream(terms, messages) :: m in messages
  {
    if messages != [] {
      UnorderedFrom(terms, messages[..|messages| - 1]);
      assert messages == messages[..|messages| - 1] + [messages[|messages| - 1]];
    }
  }

  /** A message has been handed to the application or waits in the ordered buffer. */
  ghost predicate Handled(inbox: Inbox, delivered: seq<WireMessage>, message: WireMessage) {
    || message in delivered
    || (message.delivery == RELIABLE_ORDERED
        && message.deliveryId in inbox.buffer && inbox.buffer[message.deliveryId] == message)
  }

  lemma OrderedIsHandled(terms: Terms, messages: seq<WireMessage>, message: WireMessage)
    requires FixedById(messages) && message in messages && Counts(terms, message)
    requires message.delivery == RELIABLE_ORDERED
    ensures var result := AcceptAll(terms, EMPTY, messages);
      Handled(result.inbox, result.accepted, message)
  {
    EveryArrivalOrder(terms, messages);
    var result := AcceptAll(terms, EMPTY, messages);
    var arrived, id := Arrived(terms, messages, RELIABLE_ORDERED), message.deliveryId;
    ArrivedMeaning(terms, messages, RELIABLE_ORDERED, message);
    if id < result.inbox.next {
      StretchContains(arrived, 1, result.inbox.next, id);
      assert Stretch(arrived, 1, result.inbox.next)[id - 1] == message;
      OfClassMeaning(result.accepted, RELIABLE_ORDERED, message);
    }
  }

  /** Every reliable message that arrived has been handled. */
  lemma ArrivedIsHandled(terms: Terms, messages: seq<WireMessage>, message: WireMessage)
    requires FixedById(messages) && message in messages && Counts(terms, message)
    ensures var result := AcceptAll(terms, EMPTY, messages);
      Handled(result.inbox, result.accepted, message)
  {
    if message.delivery == RELIABLE_ORDERED {
      OrderedIsHandled(terms, messages, message);
    } else {
      EveryArrivalOrder(terms, messages);
      ArrivedMeaning(terms, messages, RELIABLE_UNORDERED, message);
      UnorderedStreamMeaning(terms, messages, message.deliveryId);
      OfClassMeaning(AcceptAll(terms, EMPTY, messages).accepted, RELIABLE_UNORDERED, message);
    }
  }

  /** Nothing else is: what has been handled reliably had arrived. */
  lemma HandledFrom(terms: Terms, messages: seq<WireMessage>, message: WireMessage)
    requires Reliable(message.delivery)
    requires var result := AcceptAll(terms, EMPTY, messages);
      Handled(result.inbox, result.accepted, message)
    ensures message in messages
  {
    var result := AcceptAll(terms, EMPTY, messages);
    EveryArrivalOrder(terms, messages);
    OfClassMeaning(result.accepted, message.delivery, message);
    AcceptedFrom(terms, messages);
    ArrivedFrom(terms, messages, RELIABLE_ORDERED);
  }

  /** Which reliable messages take part: those with an id, of class 1 while ordered delivery was not negotiated
      away, or of class 2 while unordered delivery was not. */
  lemma CountsMeaning(terms: Terms, message: WireMessage)
    ensures Counts(terms, message) <==>
      message.deliveryId != 0
      && ((message.delivery == 1 && (!terms.negotiated || terms.capabilities / 2 % 2 == 1))
          || (message.delivery == 2 && (!terms.negotiated || terms.capabilities / 4 % 2 == 1)))
  {
    SupportsMeaning(terms, message.delivery);
  }

  lemma {:induction false} DrainFrom(inbox: Inbox)
    ensures forall m <- Drain(inbox).accepted :: m in inbox.buffer.Values
    decreases inbox.buffer.Keys
  {
    if inbox.next in inbox.buffer {
      DrainFrom(inbox.(next := inbox.next + 1,
                       buffer := inbox.buffer - {inbox.next},
                       orderedReceived := inbox.orderedReceived + {inbox.buffer[inbox.next].deliveryId}));
    }
  }

  /** Nothing of any other class, and nothing reliable without an id, is ever delivered. */
  lemma {:induction false} AcceptedClasses(terms: Terms, messages: seq<WireMessage>)
    ensures forall m <- AcceptAll(terms, EMPTY, messages).accepted ::
      m.delivery == 0 || (m.delivery in {1, 2} && m.deliveryId != 0)
  {
    if messages != [] {
      var earlier, last := messages[..|messages| - 1], messages[|messages| - 1];
      AcceptedClasses(terms, earlier);
      EveryArrivalOrder(terms, earlier);
      var inbox := AcceptAll(terms, EMPTY, earlier).inbox;
      assert forall m <- inbox.buffer.Values :: m.delivery == RELIABLE_ORDERED && m.deliveryId != 0;
      DrainFrom(inbox.(next := last.deliveryId + 1, orderedReceived := inbox.orderedReceived + {last.deliveryId}));
    }
  }

  /** A class that is supported is treated as without negotiation; one that is not is dropped. */
  lemma AcceptUnderTerms(terms: Terms, inbox: Inbox, message: WireMessage)
    ensures AcceptAll(terms, inbox, [message])
         == if Supports(terms, message.delivery) then AcceptAll(UNNEGOTIATED, inbox, [message]) else Outcome(inbox, [])
  {
    AcceptSingle(terms, inbox, message);
    AcceptSingle(UNNEGOTIATED, inbox, message);
  }

  // ----- the code -----

  /** The reassembly fields of `UDPClient`; the Rust and C# clients carry the same ones and run
      the same loop with every class supported. */
  class Receiver {
    var reliableOrderedNext: nat
    var reliableOrderedBuffer: map<u64, WireMessage>
    var reliableOrderedReceived: set<u64>
    var reliableUnorderedReceived: set<u64>

    ghost function View(): Inbox
      reads this
    {
      Inbox(reliableOrderedNext, reliableOrderedBuffer, reliableOrderedReceived, reliableUnorderedReceived)
    }

    constructor ()
      ensures View() == EMPTY
    {
      reliableOrderedNext := 1;
      reliableOrderedBuffer := map[];
      reliableOrderedReceived := {};
      reliableUnorderedReceived := {};
    }

    method AcceptReliableIncomingMessages(terms: Terms, messages: seq<WireMessage>) returns (accepted: seq<WireMessage>)
      modifies this
      ensures Outcome(View(), accepted) == AcceptAll(terms, old(View()), messages)
    {
      accepted := [];
      for index := 0 to |messages|
        invariant Outcome(View(), accepted) == AcceptAll(terms, old(View()), messages[..index])
      {
        var message := messages[index];
        assert messages[..index + 1][..index] == messages[..index];
        if message.delivery == UNRELIABLE {
          accepted := accepted + [message];
        } else if Reliable(message.delivery) && Supports(terms, message.delivery) && message.deliveryId != 0 {
          if message.delivery == RELIABLE_UNORDERED {
            if message.deliveryId !in reliableUnorderedReceived {
              reliableUnorderedReceived := reliableUnorderedReceived + {message.deliveryId};
              accepted := accepted + [message];
            }
          } else {
            var released := AcceptOrderedMessage(message);
            accepted := accepted + released;
          }
        }
      }
      assert messages[..|messages|] == messages;
    }

    method AcceptOrderedMessage(message: WireMessage) returns (released: seq<WireMessage>)
      requires message.delivery == RELIABLE_ORDERED
      modifies this
      ensures Outcome(View(), released) == AcceptOrdered(old(View()), message)
    {
      var id := message.deliveryId;
      released := [];
      if id in reliableOrderedReceived || id in reliableOrderedBuffer {
        return;
      }
      if id > reliableOrderedNext {
        reliableOrderedBuffer := reliableOrderedBuffer[id := message];
        return;
      }
      if id < reliableOrderedNext {
        return;
      }
      released := [message];
      reliableOrderedReceived := reliableOrderedReceived + {id};
      reliableOrderedNext := reliableOrderedNext + 1;
      ghost var start := View();
      while reliableOrderedNext in reliableOrderedBuffer
        invariant released + Drain(View()).accepted == [message] + Drain(start).accepted
        invariant Drain(View()).inbox == Drain(start).inbox
        decreases reliableOrderedBuffer.Keys
      {
        var buffered := reliableOrderedBuffer[reliableOrderedNext];
        reliableOrderedBuffer := reliableOrderedBuffer - {reliableOrderedNext};
        released := released + [buffered];
        reliableOrderedReceived := reliableOrderedReceived + {buffered.deliveryId};
        reliableOrderedNext := reliableOrderedNext + 1;
      }
    }
  }
}
