/** The retry list of the C# client (`EnservaUdpClient`) and its link to the end-to-end model: what an
    acknowledgement removes from the list has been handled by the server, while it supports the class.
    A list entry is identified by its message, which is tracked once. */
module CSharpSender {
  import opened Bits
  import opened Wire
  import PacketCodec
  import AckWindow
  import Transport

  const MAX_ATTEMPTS: nat := 5
  const RETRY_MILLISECONDS: int := 100

  datatype Pending = Pending(message: WireMessage, sent: set<u64>, attempts: nat, nextRetryAt: int)

  /** The sending fields. `underway` and `wire` remember the sends whose packet is not out yet, and the
      reliable packets that are. */
  datatype Client = Client(
    nextSequence: nat, nextOrderedId: nat, nextUnorderedId: nat, pending: seq<Pending>,
    underway: set<Transport.Reserved>, wire: set<Transport.Reserved>)

  const FRESH: Client := Client(1, 1, 1, [], {}, {})

  // ----- steps -----

  function Filter(list: seq<Pending>, keep: Pending -> bool): seq<Pending> {
    if list == [] then []
    else (if keep(list[0]) then [list[0]] else []) + Filter(list[1..], keep)
  }

  /** The kept ones, last first. */
  function FilterBackwards(list: seq<Pending>, keep: Pending -> bool): seq<Pending> {
    if list == [] then []
    else FilterBackwards(list[1..], keep) + if keep(list[0]) then [list[0]] else []
  }

  predicate IsAcked(ack: u64, ackBits: u64, p: Pending) {
    exists q <- p.sent :: AckWindow.PacketSequenceAcked(ack, ackBits, q)
  }

  function NotAcked(ack: u64, ackBits: u64): Pending -> bool {
    (p: Pending) => !IsAcked(ack, ackBits, p)
  }

  function MayRetry(): Pending -> bool {
    (p: Pending) => p.attempts < MAX_ATTEMPTS
  }

  function IsDue(now: int): Pending -> bool {
    (p: Pending) => p.attempts < MAX_ATTEMPTS && p.nextRetryAt <= now
  }

  function NextId(c: Client, delivery: byte): nat {
    if delivery == RELIABLE_ORDERED then c.nextOrderedId else c.nextUnorderedId
  }

  predicate HasRoom(c: Client) {
    c.nextSequence < TWO_64
  }

  function NewSend(c: Client, draft: WireMessage): Transport.Reserved
    requires HasRoom(c) && NextId(c, draft.delivery) < TWO_64
  {
    Transport.Reserved(draft.(deliveryId := NextId(c, draft.delivery)), c.nextSequence)
  }

  /** Id and sequence are taken. */
  function Create(c: Client, draft: WireMessage): Client {
    if !HasRoom(c) || !Reliable(draft.delivery) || NextId(c, draft.delivery) >= TWO_64 then c
    else
      c.(nextSequence := c.nextSequence + 1,
         nextOrderedId := c.nextOrderedId + (if draft.delivery == RELIABLE_ORDERED then 1 else 0),
         nextUnorderedId := c.nextUnorderedId + (if draft.delivery == RELIABLE_ORDERED then 0 else 1),
         underway := c.underway + {NewSend(c, draft)})
  }

  function PutOnWire(c: Client, r: Transport.Reserved): Client {
    if r !in c.underway then c else c.(underway := c.underway - {r}, wire := c.wire + {r})
  }

  function Track(c: Client, r: Transport.Reserved, now: int): Client {
    c.(pending := c.pending + [Pending(r.message, {r.sequence}, 1, now + RETRY_MILLISECONDS)])
  }

  function RemoveAcked(c: Client, ack: u64, ackBits: u64): Client {
    c.(pending := Filter(c.pending, NotAcked(ack, ackBits)))
  }

  /** The first half of `UpdateAsync`. */
  function Collect(c: Client): Client {
    c.(pending := Filter(c.pending, MayRetry()))
  }

  /** A message goes out again under the next sequence. */
  function Retransmit(c: Client, message: WireMessage): Client
    requires HasRoom(c)
  {
    c.(nextSequence := c.nextSequence + 1, wire := c.wire + {Transport.Reserved(message, c.nextSequence)})
  }

  /** Booking a retry on the entry of its message; an entry removed meanwhile stays removed. */
  function Book(list: seq<Pending>, message: WireMessage, q: u64, now: int): seq<Pending> {
    if list == [] then []
    else if list[0].message == message then
      [Pending(message, list[0].sent + {q}, list[0].attempts + 1, now + RETRY_MILLISECONDS)] + list[1..]
    else [list[0]] + Book(list[1..], message, q, now)
  }

  // ----- the list as a set of entries -----

  function EntryOf(p: Pending): Transport.Entry {
    Transport.Entry(p.message, p.sent)
  }

  ghost function Entries(list: seq<Pending>): set<Transport.Entry> {
    set p | p in list :: EntryOf(p)
  }

  /** Every message is tracked once. */
  ghost predicate Distinct(list: seq<Pending>) {
    forall i, j :: 0 <= i < j < |list| ==> list[i].message != list[j].message
  }

  lemma {:induction false} FilterMeaning(list: seq<Pending>, keep: Pending -> bool)
    ensures forall p :: p in Filter(list, keep) <==> p in list && keep(p)
    ensures Distinct(list) ==> Distinct(Filter(list, keep))
  {
    if list != [] {
      FilterMeaning(list[1..], keep);
      assert forall p :: p in list <==> p == list[0] || p in list[1..];
      if Distinct(list) {
        assert Distinct(list[1..]);
        forall p <- Filter(list[1..], keep)
          ensures p.message != list[0].message
        {
          assert p in list[1..];
        }
      }
    }
  }

  lemma EntriesAdd(list: seq<Pending>, p: Pending)
    ensures Entries(list + [p]) == Entries(list) + {EntryOf(p)}
  {
    assert forall x :: x in list + [p] <==> x in list || x == p;
  }

  lemma {:induction false} BookMeaning(list: seq<Pending>, message: WireMessage, q: u64, now: int)
    requires Distinct(list)
    ensures Distinct(Book(list, message, q, now))
    ensures |Book(list, message, q, now)| == |list|
    ensures forall i :: 0 <= i < |list| ==>
      Book(list, message, q, now)[i] == if list[i].message != message then list[i]
        else Pending(message, list[i].sent + {q}, list[i].attempts + 1, now + RETRY_MILLISECONDS)
  {
    if list != [] && list[0].message != message {
      assert Distinct(list[1..]);
      BookMeaning(list[1..], message, q, now);
    }
  }

  lemma EntriesBook(list: seq<Pending>, i: nat, q: u64, now: int)
    requires Distinct(list) && i < |list|
    ensures Entries(Book(list, list[i].message, q, now))
         == Entries(list) - {EntryOf(list[i])} + {Transport.Entry(list[i].message, list[i].sent + {q})}
  {
    var booked := Book(list, list[i].message, q, now);
    BookMeaning(list, list[i].message, q, now);
    assert booked[i] in booked;
    forall j | 0 <= j < |list| && j != i
      ensures booked[j] == list[j] && EntryOf(list[j]) != EntryOf(list[i])
    {
    }
    forall e <- Entries(list) - {EntryOf(list[i])}
      ensures e in Entries(booked)
    {
      var j :| 0 <= j < |list| && EntryOf(list[j]) == e;
      assert booked[j] in booked;
    }
    forall e <- Entries(booked)
      ensures e in Entries(list) - {EntryOf(list[i])} + {Transport.Entry(list[i].message, list[i].sent + {q})}
    {
      var j :| 0 <= j < |booked| && EntryOf(booked[j]) == e;
    }
  }

  lemma {:induction false} BookAbsent(list: seq<Pending>, message: WireMessage, q: u64, now: int)
    requires forall p <- list :: p.message != message
    ensures Book(list, message, q, now) == list
  {
    if list != [] {
      BookAbsent(list[1..], message, q, now);
    }
  }

  // ----- what is due, and when -----

  /** What `UpdateAsync` keeps and what it collects: entries with five attempts are dropped, and of the others
      those whose time has come are sent again. */
  lemma CollectMeaning(c: Client, now: int, p: Pending)
    ensures p in Collect(c).pending <==> p in c.pending && p.attempts < 5
    ensures p in FilterBackwards(c.pending, IsDue(now)) <==> p in c.pending && p.attempts < 5 && p.nextRetryAt <= now
  {
    FilterMeaning(c.pending, MayRetry());
    FilterMeaning(c.pending, IsDue(now));
    BackwardsIsReverse(c.pending, IsDue(now));
    var kept, due := Filter(c.pending, IsDue(now)), FilterBackwards(c.pending, IsDue(now));
    if p in due {
      var k :| 0 <= k < |due| && due[k] == p;
      assert kept[|due| - 1 - k] == p;
    }
    if p in kept {
      var k :| 0 <= k < |kept| && kept[k] == p;
      assert due[|kept| - 1 - k] == p;
    }
  }

  /** What is due goes out in the reverse order of the list. */
  lemma {:induction false} BackwardsIsReverse(list: seq<Pending>, keep: Pending -> bool)
    ensures |FilterBackwards(list, keep)| == |Filter(list, keep)|
    ensures forall k :: 0 <= k < |Filter(list, keep)| ==>
      FilterBackwards(list, keep)[k] == Filter(list, keep)[|Filter(list, keep)| - 1 - k]
  {
    if list != [] {
      BackwardsIsReverse(list[1..], keep);
    }
  }

  /** What is kept stays in order. */
  lemma {:induction false} FilterJoins(a: seq<Pending>, b: seq<Pending>, keep: Pending -> bool)
    ensures Filter(a + b, keep) == Filter(a, keep) + Filter(b, keep)
  {
    if a == [] {
      assert a + b == b && Filter(a, keep) + Filter(b, keep) == Filter(b, keep);
    } else {
      FilterJoins(a[1..], b, keep);
      assert (a + b)[1..] == a[1..] + b;
      var first := if keep(a[0]) then [a[0]] else [];
      assert Filter(a + b, keep) == first + (Filter(a[1..], keep) + Filter(b, keep));
    }
  }

  /** A message just tracked is due 100 milliseconds later, and not before. */
  lemma FirstRetry(c: Client, r: Transport.Reserved, now: int, later: int)
    ensures var tracked := Track(c, r, now).pending;
      && tracked[..|tracked| - 1] == c.pending
      && (IsDue(later)(tracked[|tracked| - 1]) <==> later >= now + 100)
  {
  }

  /** A retry counts as one attempt, puts the next one off by 100 milliseconds, and is the last if it was
      the fifth: an entry is sent five times in all and then dropped. */
  lemma NextRetry(list: seq<Pending>, i: nat, q: u64, now: int, later: int)
    requires Distinct(list) && i < |list|
    ensures var booked := Book(list, list[i].message, q, now);
      && |booked| == |list|
      && (IsDue(later)(booked[i]) <==> list[i].attempts < 4 && later >= now + 100)
      && (MayRetry()(booked[i]) <==> list[i].attempts < 4)
      && booked[i].sent == list[i].sent + {q} && booked[i].attempts == list[i].attempts + 1
      && forall j :: 0 <= j < |list| && j != i ==> booked[j] == list[j]
  {
    BookMeaning(list, list[i].message, q, now);
  }

  /** An entry stays exactly while none of its sequences is acknowledged. */
  lemma AckedMeaning(c: Client, ack: u64, ackBits: u64, p: Pending)
    ensures p in RemoveAcked(c, ack, ackBits).pending <==>
      p in c.pending && forall q <- p.sent ::
        q == 0 || q > ack || (q < ack && (q + 64 < ack || !BitAt(ackBits, ack - 1 - q)))
  {
    FilterMeaning(c.pending, NotAcked(ack, ackBits));
    forall q <- p.sent
      ensures !AckWindow.PacketSequenceAcked(ack, ackBits, q) <==>
              q == 0 || q > ack || (q < ack && (q + 64 < ack || !BitAt(ackBits, ack - 1 - q)))
    {
    }
  }

  // ----- the client and the server together -----

  datatype Event =
    | Creates(draft: WireMessage)                   // a reliable send takes its id and its sequence
    | Fails(failed: Transport.Reserved)             // its packet could not be sent
    | Wires(sent: Transport.Reserved)               // its packet goes out
    | Tracks(tracked: Transport.Reserved, now: int)
    | Unreliably(kind: u16, payload: seq<byte>)
    | Collects
    | Retransmits(again: Transport.Reserved)        // a message whose packet was `again` goes out once more
    | Books(carried: Transport.Reserved, now: int)  // that packet is booked, at some later time
    | AckIn(index: nat)
    | Receive(sequence: u64)                        // a packet arrives at the server
    | Emit                                          // the server sends its acknowledgement state
    | Negotiate(terms: Terms)

  predicate IsTracked(c: Client, message: WireMessage) {
    exists p <- c.pending :: p.message == message
  }

  function Abandon(c: Client, r: Transport.Reserved): Client {
    c.(underway := c.underway - {r})
  }

  /** Everything at the client but acknowledgements. */
  function Act(c: Client, event: Event): Client {
    match event
    case Creates(draft) => Create(c, draft)
    case Fails(r) => Abandon(c, r)
    case Wires(r) => PutOnWire(c, r)
    case Tracks(r, now) => if r in c.wire && !IsTracked(c, r.message) then Track(c, r, now) else c
    case Unreliably(kind, _) =>
      if HasRoom(c) && kind != PacketCodec.RELIABLE_KIND then c.(nextSequence := c.nextSequence + 1) else c
    case Collects => Collect(c)
    case Retransmits(r) => if r in c.wire && HasRoom(c) then Retransmit(c, r.message) else c
    case Books(r, now) =>
      if r in c.wire then c.(pending := Book(c.pending, r.message, r.sequence, now)) else c
    case _ => c
  }

  /** The list entries that `Collect` removes, as expiries. */
  function Expiries(list: seq<Pending>): seq<Transport.Event> {
    if list == [] then []
    else (if MayRetry()(list[0]) then [] else [Transport.Expire(EntryOf(list[0]))]) + Expiries(list[1..])
  }

  function Booking(list: seq<Pending>, r: Transport.Reserved): seq<Transport.Event> {
    if list == [] then []
    else if list[0].message == r.message then [Transport.Book(EntryOf(list[0]), r.sequence)]
    else Booking(list[1..], r)
  }

  /** The same as events of the end-to-end model. */
  function Shadow(c: Client, event: Event): seq<Transport.Event> {
    match event
    case Creates(draft) => [Transport.Reserve(draft)]
    case Fails(r) => [Transport.Abandon(r)]
    case Wires(r) => [Transport.Emit(r)]
    case Tracks(r, _) => if r in c.wire then [Transport.Track(r.sequence)] else []
    case Unreliably(kind, payload) => [Transport.Send(kind, payload, UNRELIABLE)]
    case Collects => Expiries(c.pending)
    case Retransmits(r) => if r in c.wire then [Transport.Resend(r.sequence)] else []
    case Books(r, _) => if r in c.wire then Booking(c.pending, r) else []
    case AckIn(i) => [Transport.AckArrives(i)]
    case Receive(sequence) => [Transport.Deliver(sequence)]
    case Emit => [Transport.EmitAck]
    case Negotiate(terms) => [Transport.Negotiate(terms)]
  }

  /** The client's fields are those of the sender in the end-to-end model. */
  ghost predicate Mirrors(c: Client, t: Transport.State) {
    && c.nextSequence == t.out.nextSequence + 1
    && c.nextOrderedId == t.out.orderedIds + 1 && c.nextUnorderedId == t.out.unorderedIds + 1
    && t.out.reserved == c.underway
    && t.out.pending == Entries(c.pending) && Distinct(c.pending)
    && OnWire(c.wire, t.network)
  }

  ghost predicate OnWire(wire: set<Transport.Reserved>, network: map<u64, WireMessage>) {
    forall r <- wire :: Reliable(r.message.delivery) && r.sequence in network && network[r.sequence] == r.message
  }

  lemma WireGrows(
    wire: set<Transport.Reserved>, network: map<u64, WireMessage>, q: u64, message: WireMessage,
    more: set<Transport.Reserved>)
    requires OnWire(wire, network) && q !in network
    requires forall r <- more :: r == Transport.Reserved(message, q) && Reliable(message.delivery)
    ensures OnWire(wire + more, network[q := message])
  {
  }

  /** The next sequence is on no packet yet. */
  lemma NextIsNew(link: Transport.Link, t: Transport.State)
    requires Transport.Inv(link, t)
    ensures forall q <- t.network :: q <= t.out.nextSequence
  {
  }

  lemma TrackMirrors(c: Client, link: Transport.Link, t: Transport.State, r: Transport.Reserved, now: int)
    requires Mirrors(c, t) && r in c.wire
    ensures Mirrors(Act(c, Tracks(r, now)), Transport.Apply(link, t, Transport.Track(r.sequence)))
  {
    if IsTracked(c, r.message) {
      var p :| p in c.pending && p.message == r.message;
      assert EntryOf(p) in t.out.pending;
    } else {
      forall e <- t.out.pending
        ensures e.message != r.message
      {
        var p :| p in c.pending && EntryOf(p) == e;
      }
      EntriesAdd(c.pending, Pending(r.message, {r.sequence}, 1, now + RETRY_MILLISECONDS));
      assert forall i :: 0 <= i < |c.pending| ==> c.pending[i] in c.pending;
    }
  }

  lemma {:induction false} ExpiriesApply(link: Transport.Link, t: Transport.State, list: seq<Pending>)
    ensures Transport.ApplyAll(link, t, Expiries(list))
         == Transport.Queue(t, t.out.pending - Entries(Filter(list, (p: Pending) => !MayRetry()(p))))
    decreases |list|
  {
    var gone := (p: Pending) => !MayRetry()(p);
    if list != [] {
      var first := if MayRetry()(list[0]) then [] else [Transport.Expire(EntryOf(list[0]))];
      var t1 := Transport.ApplyAll(link, t, first);
      Transport.ApplyAppend(link, t, first, Expiries(list[1..]));
      ExpiriesApply(link, t1, list[1..]);
      var rest := Filter(list[1..], gone);
      if MayRetry()(list[0]) {
        assert [] + rest == rest;
      } else {
        Transport.ApplySingle(link, t, Transport.Expire(EntryOf(list[0])));
        assert forall p :: p in [list[0]] + rest <==> p == list[0] || p in rest;
        assert Entries([list[0]] + rest) == {EntryOf(list[0])} + Entries(rest);
        assert t1.out.pending - Entries(rest) == t.out.pending - Entries([list[0]] + rest);
      }
    } else {
      assert t.out.pending - Entries([]) == t.out.pending;
    }
  }

  lemma EntriesFilter(list: seq<Pending>, keep: Pending -> bool, drop: Pending -> bool)
    requires Distinct(list) && forall p :: keep(p) <==> !drop(p)
    ensures Entries(Filter(list, keep)) == Entries(list) - Entries(Filter(list, drop))
    ensures Distinct(Filter(list, keep))
  {
    FilterMeaning(list, keep);
    FilterMeaning(list, drop);
    forall p <- list, q <- list | EntryOf(p) == EntryOf(q)
      ensures p == q
    {
      var i :| 0 <= i < |list| && list[i] == p;
      var j :| 0 <= j < |list| && list[j] == q;
    }
  }

  lemma CollectMirrors(c: Client, link: Transport.Link, t: Transport.State)
    requires Mirrors(c, t)
    ensures Mirrors(Collect(c), Transport.ApplyAll(link, t, Expiries(c.pending)))
  {
    ExpiriesApply(link, t, c.pending);
    EntriesFilter(c.pending, MayRetry(), (p: Pending) => !MayRetry()(p));
  }

  lemma {:induction false} BookingMeaning(list: seq<Pending>, r: Transport.Reserved, k: nat)
    requires k <= |list| && forall i :: 0 <= i < k ==> list[i].message != r.message
    requires k < |list| ==> list[k].message == r.message
    ensures Booking(list, r) == if k < |list| then [Transport.Book(EntryOf(list[k]), r.sequence)] else []
  {
    if k > 0 {
      BookingMeaning(list[1..], r, k - 1);
    }
  }

  lemma BookFoundMirrors(
    c: Client, link: Transport.Link, t: Transport.State, r: Transport.Reserved, now: int, k: nat)
    requires Mirrors(c, t) && r in c.wire && k < |c.pending| && c.pending[k].message == r.message
    ensures Mirrors(Act(c, Books(r, now)),
                    Transport.Apply(link, t, Transport.Book(EntryOf(c.pending[k]), r.sequence)))
  {
    BookMeaning(c.pending, r.message, r.sequence, now);
    EntriesBook(c.pending, k, r.sequence, now);
    assert c.pending[k] in c.pending;
    assert EntryOf(c.pending[k]) in t.out.pending;
  }

  lemma BookAbsentMirrors(c: Client, link: Transport.Link, t: Transport.State, r: Transport.Reserved, now: int)
    requires Mirrors(c, t) && r in c.wire && forall i :: 0 <= i < |c.pending| ==> c.pending[i].message != r.message
    ensures Mirrors(Act(c, Books(r, now)), t) && Booking(c.pending, r) == []
  {
    BookingMeaning(c.pending, r, |c.pending|);
    BookAbsent(c.pending, r.message, r.sequence, now);
  }

  /** Where the message is in the list, or the list's length. */
  function Position(list: seq<Pending>, message: WireMessage): (k: nat)
    ensures k <= |list| && (k < |list| ==> list[k].message == message)
    ensures forall i :: 0 <= i < k ==> list[i].message != message
  {
    if list == [] || list[0].message == message then 0 else 1 + Position(list[1..], message)
  }

  lemma BookMirrors(c: Client, link: Transport.Link, t: Transport.State, r: Transport.Reserved, now: int)
    requires Mirrors(c, t) && r in c.wire
    ensures Mirrors(Act(c, Books(r, now)), Transport.ApplyAll(link, t, Booking(c.pending, r)))
  {
    var k := Position(c.pending, r.message);
    if k < |c.pending| {
      BookingMeaning(c.pending, r, k);
      BookFoundMirrors(c, link, t, r, now, k);
      Transport.ApplySingle(link, t, Transport.Book(EntryOf(c.pending[k]), r.sequence));
    } else {
      BookAbsentMirrors(c, link, t, r, now);
    }
  }

  lemma AckMirrors(c: Client, link: Transport.Link, t: Transport.State, i: nat)
    requires Mirrors(c, t) && i < |t.acks|
    ensures var after := RemoveAcked(c, t.acks[i].ack, t.acks[i].bits);
      var t' := Transport.Apply(link, t, Transport.AckArrives(i));
      Mirrors(after, t') && forall p <- c.pending :: p !in after.pending ==> p.message in t'.out.acked
  {
    var a := t.acks[i];
    FilterMeaning(c.pending, NotAcked(a.ack, a.bits));
    forall p
      ensures IsAcked(a.ack, a.bits, p) <==> Transport.AckedEntry(a, EntryOf(p))
    {
    }
    forall p <- c.pending
      ensures EntryOf(p) in t.out.pending
    {
    }
  }

  lemma CreateMirrors(c: Client, link: Transport.Link, t: Transport.State, draft: WireMessage)
    requires Mirrors(c, t) && !link.sender.GoServer?
    ensures Mirrors(Create(c, draft), Transport.Apply(link, t, Transport.Reserve(draft)))
  {
  }

  lemma WireMirrors(c: Client, link: Transport.Link, t: Transport.State, r: Transport.Reserved)
    requires Mirrors(c, t) && Transport.Inv(link, t)
    ensures Mirrors(PutOnWire(c, r), Transport.Apply(link, t, Transport.Emit(r)))
  {
    if r in c.underway {
      assert Transport.ReservedOk(link.sender, t.out, t.network, r);
      WireGrows(c.wire, t.network, r.sequence, r.message, {r});
    }
  }

  lemma RetransmitMirrors(c: Client, link: Transport.Link, t: Transport.State, r: Transport.Reserved)
    requires Mirrors(c, t) && Transport.Inv(link, t) && r in c.wire
    ensures Mirrors(Act(c, Retransmits(r)), Transport.Apply(link, t, Transport.Resend(r.sequence)))
  {
    if HasRoom(c) {
      NextIsNew(link, t);
      WireGrows(c.wire, t.network, c.nextSequence, r.message, {Transport.Reserved(r.message, c.nextSequence)});
    }
  }

  lemma UnreliableMirrors(c: Client, link: Transport.Link, t: Transport.State, kind: u16, payload: seq<byte>)
    requires Mirrors(c, t) && Transport.Inv(link, t)
    ensures Mirrors(Act(c, Unreliably(kind, payload)),
                    Transport.Apply(link, t, Transport.Send(kind, payload, UNRELIABLE)))
  {
    if HasRoom(c) {
      NextIsNew(link, t);
      WireGrows(c.wire, t.network, c.nextSequence, WireMessage(kind, payload, UNRELIABLE, 0), {});
      assert c.wire + {} == c.wire;
    }
  }

  predicate AtClient(event: Event) {
    !event.AckIn? && !event.Receive? && !event.Emit? && !event.Negotiate?
  }

  lemma ActMirrors(c: Client, link: Transport.Link, t: Transport.State, event: Event)
    requires Mirrors(c, t) && Transport.Inv(link, t) && !link.sender.GoServer? && AtClient(event)
    ensures Mirrors(Act(c, event), Transport.ApplyAll(link, t, Shadow(c, event)))
  {
    match event
    case Creates(draft) =>
      Transport.ApplySingle(link, t, Transport.Reserve(draft));
      CreateMirrors(c, link, t, draft);
    case Fails(r) => Transport.ApplySingle(link, t, Transport.Abandon(r));
    case Wires(r) =>
      Transport.ApplySingle(link, t, Transport.Emit(r));
      WireMirrors(c, link, t, r);
    case Tracks(r, now) =>
      if r in c.wire {
        Transport.ApplySingle(link, t, Transport.Track(r.sequence));
        TrackMirrors(c, link, t, r, now);
      }
    case Unreliably(kind, payload) =>
      Transport.ApplySingle(link, t, Transport.Send(kind, payload, UNRELIABLE));
      UnreliableMirrors(c, link, t, kind, payload);
    case Collects => CollectMirrors(c, link, t);
    case Retransmits(r) =>
      if r in c.wire {
        Transport.ApplySingle(link, t, Transport.Resend(r.sequence));
        RetransmitMirrors(c, link, t, r);
      }
    case Books(r, now) =>
      if r in c.wire {
        BookMirrors(c, link, t, r, now);
      }
  }

  /** `trace` is what the end-to-end model saw of the run so far. */
  datatype Joint = Joint(client: Client, trace: seq<Transport.Event>)

  function Apply(link: Transport.Link, j: Joint, event: Event): Joint {
    match event
    case AckIn(i) =>
      var acks := Transport.Run(link, j.trace).acks;
      if i >= |acks| then j
      else Joint(RemoveAcked(j.client, acks[i].ack, acks[i].bits), j.trace + [Transport.AckArrives(i)])
    case _ => Joint(Act(j.client, event), j.trace + Shadow(j.client, event))
  }

  function Run(link: Transport.Link, events: seq<Event>): Joint {
    if events == [] then Joint(FRESH, [])
    else Apply(link, Run(link, events[..|events| - 1]), events[|events| - 1])
  }

  lemma NoRustRetries(link: Transport.Link, events: seq<Transport.Event>)
    requires link.sender.CSharpClient?
    ensures Transport.Inv(link, Transport.Run(link, events))
  {
    Transport.EveryRun(link, events);
  }

  /** What the server does leaves the client as it is. */
  lemma ServerMirrors(c: Client, link: Transport.Link, t: Transport.State, event: Transport.Event)
    requires Mirrors(c, t) && (event.Deliver? || event.EmitAck? || event.Negotiate?)
    ensures Mirrors(c, Transport.Apply(link, t, event))
  {
    var t' := Transport.Apply(link, t, event);
    assert t'.out == t.out && t'.network == t.network;
  }

  lemma StepLinked(link: Transport.Link, j: Joint, event: Event)
    requires link.sender.CSharpClient? && Mirrors(j.client, Transport.Run(link, j.trace))
    ensures var after := Apply(link, j, event);
      Mirrors(after.client, Transport.Run(link, after.trace))
  {
    var t := Transport.Run(link, j.trace);
    NoRustRetries(link, j.trace);
    if AtClient(event) {
      ActMirrors(j.client, link, t, event);
      Transport.RunAppend(link, j.trace, Shadow(j.client, event));
    } else if event.AckIn? {
      if event.index < |t.acks| {
        AckMirrors(j.client, link, t, event.index);
        Transport.RunStep(link, j.trace, Transport.AckArrives(event.index));
      }
    } else {
      var e := Shadow(j.client, event)[0];
      assert Shadow(j.client, event) == [e];
      ServerMirrors(j.client, link, t, e);
      Transport.RunStep(link, j.trace, e);
    }
  }

  /** In every run, the client's counters, the sends under way and the retry list are, step for step, those of
      an end-to-end run. */
  lemma {:induction false} EveryRun(link: Transport.Link, events: seq<Event>)
    requires link.sender.CSharpClient?
    ensures Mirrors(Run(link, events).client, Transport.Run(link, Run(link, events).trace))
  {
    if events == [] {
      assert Entries([]) == {};
    } else {
      EveryRun(link, events[..|events| - 1]);
      StepLinked(link, Run(link, events[..|events| - 1]), events[|events| - 1]);
    }
  }

  /** What an acknowledgement removes from the list has been handled by the server, while it supports the
      message's class. */
  lemma ListSafety(link: Transport.Link, events: seq<Event>, index: nat, p: Pending)
    requires link.sender.CSharpClient?
    requires var before, after := Run(link, events), Apply(link, Run(link, events), AckIn(index));
      && p in before.client.pending && p !in after.client.pending
      && Transport.ClassStays(link, after.trace, p.message.delivery, true)
    ensures Transport.Handled(Transport.Run(link, Apply(link, Run(link, events), AckIn(index)).trace), p.message)
  {
    var before := Run(link, events);
    var t := Transport.Run(link, before.trace);
    EveryRun(link, events);
    AckMirrors(before.client, link, t, index);
    Transport.RunStep(link, before.trace, Transport.AckArrives(index));
    Transport.ReliableSafety(link, Apply(link, before, AckIn(index)).trace, p.message);
  }

  // ----- the code -----

  /** The sending fields of the C# client. */
  class EnservaUdpClient {
    var nextPacketSequence: nat
    var nextReliableOrderedId: nat
    var nextReliableUnorderedId: nat
    var pendingReliable: seq<Pending>
    ghost var underway: set<Transport.Reserved>
    ghost var wire: set<Transport.Reserved>

    ghost function View(): Client
      reads this
    {
      Client(nextPacketSequence, nextReliableOrderedId, nextReliableUnorderedId, pendingReliable, underway, wire)
    }

    constructor ()
      ensures View() == FRESH
    {
      nextPacketSequence, nextReliableOrderedId, nextReliableUnorderedId := 1, 1, 1;
      pendingReliable, underway, wire := [], {}, {};
    }

    /** `CreateOutgoingMessage` for a reliable class, and the sequence that `SendPacketAsync` draws for it. */
    method CreateOutgoingMessage(draft: WireMessage) returns (created: Transport.Reserved)
      requires Reliable(draft.delivery) && HasRoom(View()) && NextId(View(), draft.delivery) < TWO_64
      modifies this
      ensures View() == Create(old(View()), draft) && created == NewSend(old(View()), draft)
    {
      var id;
      if draft.delivery == RELIABLE_ORDERED {
        id := nextReliableOrderedId;
        nextReliableOrderedId := nextReliableOrderedId + 1;
      } else {
        id := nextReliableUnorderedId;
        nextReliableUnorderedId := nextReliableUnorderedId + 1;
      }
      created := Transport.Reserved(draft.(deliveryId := id), nextPacketSequence);
      nextPacketSequence := nextPacketSequence + 1;
      underway := underway + {created};
    }

    method TrackReliableMessage(sent: Transport.Reserved, now: int)
      modifies this`pendingReliable
      ensures View() == Track(old(View()), sent, now)
    {
      pendingReliable := pendingReliable + [Pending(sent.message, {sent.sequence}, 1, now + RETRY_MILLISECONDS)];
    }

    /** Walks down the list and removes the acknowledged entries on the way. */
    method RemoveAckedReliableMessages(ack: u64, ackBits: u64)
      modifies this`pendingReliable
      ensures View() == RemoveAcked(old(View()), ack, ackBits)
    {
      ghost var was, keep := pendingReliable, NotAcked(ack, ackBits);
      var index := |pendingReliable|;
      assert was[..index] == was && was[index..] == [];
      while index > 0
        invariant index <= |was| && pendingReliable == was[..index] + Filter(was[index..], keep)
      {
        index := index - 1;
        FilterStep(was, index, keep);
        if exists q :: q in pendingReliable[index].sent && AckWindow.PacketSequenceAcked(ack, ackBits, q) {
          pendingReliable := pendingReliable[..index] + pendingReliable[index + 1..];
        }
      }
      assert was[0..] == was;
    }

    /** The first half of `UpdateAsync`: drops what is out of attempts and collects what is due, last first. */
    method CollectDue(now: int) returns (due: seq<Pending>)
      modifies this`pendingReliable
      ensures View() == Collect(old(View()))
      ensures due == FilterBackwards(old(pendingReliable), IsDue(now))
    {
      ghost var was := pendingReliable;
      var index := |pendingReliable|;
      due := [];
      assert was[..index] == was && was[index..] == [];
      while index > 0
        invariant index <= |was| && pendingReliable == was[..index] + Filter(was[index..], MayRetry())
        invariant due == FilterBackwards(was[index..], IsDue(now))
      {
        index := index - 1;
        FilterStep(was, index, MayRetry());
        FilterBackwardsStep(was, index, IsDue(now));
        var pending := pendingReliable[index];
        if pending.attempts >= MAX_ATTEMPTS {
          pendingReliable := pendingReliable[..index] + pendingReliable[index + 1..];
        } else if pending.nextRetryAt <= now {
          due := due + [pending];
        }
      }
      assert was[0..] == was;
    }

    /** One round of the second half, up to the packet. */
    method SendAgain(pending: Pending) returns (sequence: u64)
      requires HasRoom(View())
      modifies this
      ensures View() == Retransmit(old(View()), pending.message) && sequence == old(nextPacketSequence)
    {
      sequence := nextPacketSequence;
      nextPacketSequence := nextPacketSequence + 1;
      wire := wire + {Transport.Reserved(pending.message, sequence)};
    }

    /** The rest of the round: the entry, if it is still there, books the packet. */
    method BookRetry(message: WireMessage, sequence: u64, now: int)
      modifies this`pendingReliable
      ensures View() == old(View()).(pending := Book(old(pendingReliable), message, sequence, now))
    {
      var index := 0;
      while index < |pendingReliable| && pendingReliable[index].message != message
        invariant index <= |pendingReliable| && pendingReliable == old(pendingReliable)
        invariant forall i :: 0 <= i < index ==> pendingReliable[i].message != message
      {
        index := index + 1;
      }
      BookAt(pendingReliable, message, sequence, now, index);
      if index < |pendingReliable| {
        var found := pendingReliable[index];
        pendingReliable := pendingReliable[
          index := Pending(message, found.sent + {sequence}, found.attempts + 1, now + RETRY_MILLISECONDS)];
      }
    }
  }

  lemma {:induction false} BookAt(list: seq<Pending>, message: WireMessage, q: u64, now: int, k: nat)
    requires k <= |list| && forall i :: 0 <= i < k ==> list[i].message != message
    requires k < |list| ==> list[k].message == message
    ensures Book(list, message, q, now)
         == if k == |list| then list
            else list[k := Pending(message, list[k].sent + {q}, list[k].attempts + 1, now + RETRY_MILLISECONDS)]
  {
    if k > 0 {
      BookAt(list[1..], message, q, now, k - 1);
    }
  }

  lemma FilterStep(list: seq<Pending>, i: nat, keep: Pending -> bool)
    requires i < |list|
    ensures Filter(list[i..], keep) == (if keep(list[i]) then [list[i]] else []) + Filter(list[i + 1..], keep)
    ensures list[..i + 1] == list[..i] + [list[i]]
  {
    assert list[i..][1..] == list[i + 1..];
  }

  lemma FilterBackwardsStep(list: seq<Pending>, i: nat, keep: Pending -> bool)
    requires i < |list|
    ensures FilterBackwards(list[i..], keep)
         == FilterBackwards(list[i + 1..], keep) + if keep(list[i]) then [list[i]] else []
  {
    assert list[i..][1..] == list[i + 1..];
  }
}
