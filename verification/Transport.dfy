/** Reliable delivery end to end: a sender with its retry bookkeeping, a network that loses,
    duplicates and reorders, and a receiver with its window and reassembly state, for every run. */
module Transport {
  import opened Bits
  import opened Wire
  import Bytes
  import PacketCodec
  import AckWindow
  import Reassembly

  /** Who sends; the other side receives. */
  datatype Sender = GoServer | CSharpClient | RustClient

  /** One direction of a session. The Go receiver decodes a message's content before it looks at the
      packet's sequence; which contents it can decode is the registry's business (`decodes`). */
  datatype Link = Link(sender: Sender, decodes: WireMessage -> bool)

  /** A queued reliable message and the packet sequences it has been sent under. */
  datatype Entry = Entry(message: WireMessage, sent: set<u64>)

  datatype Ack = Ack(ack: u64, bits: u64)

  /** The sending side. The three counters count what was handed out; `acked` remembers the
      messages that an acknowledgement dropped from the retry queue. */
  datatype Outbound = Outbound(
    nextSequence: nat, orderedIds: nat, unorderedIds: nat,
    reserved: set<Reserved>, pending: set<Entry>, acked: set<WireMessage>)

  /** A send under way: id and sequence are taken, but nothing is queued or sent yet. */
  datatype Reserved = Reserved(message: WireMessage, sequence: u64)

  /** The receiving side. `recorded` remembers the sequences it recorded, `arrivals` the messages it
      took, `turnedAway` those of a class that was not negotiated when they came; `delivered` is what
      it passed on to the application. */
  datatype Peer = Peer(
    window: AckWindow.Window,
    recorded: set<u64>,
    inbox: Reassembly.Inbox,
    arrivals: seq<WireMessage>,
    turnedAway: set<WireMessage>,
    delivered: seq<WireMessage>)

  /** Every packet (one message each, under its sequence) and every acknowledgement ever sent stays
      in `network` and `acks`: delivering one is an event that may happen at any time, any number of
      times, or never. `terms` is what the client last negotiated. */
  datatype State = State(out: Outbound, network: map<u64, WireMessage>, acks: seq<Ack>, peer: Peer, terms: Terms)

  const INITIAL: State :=
    State(Outbound(0, 0, 0, {}, {}, {}), map[], [],
          Peer(AckWindow.EMPTY, {}, Reassembly.EMPTY, [], {}, []), UNNEGOTIATED)

  datatype Event =
    | Send(kind: u16, payload: seq<byte>, delivery: byte)
    | Reserve(draft: WireMessage)       // the first half of a send that others interrupt
    | Launch(launched: Reserved)        // its second half: tracked and sent
    | Emit(emitted: Reserved)           // sent, but not tracked yet
    | Track(first: u64)                 // a message is tracked after its first packet went out
    | Abandon(abandoned: Reserved)      // the message is never queued after all
    | SkipSequence                      // a sequence goes to another client, a snapshot, a failed send
    | Retry(entry: Entry, booked: Entry)
    | Resend(copied: u64)               // a message goes out again, and is booked later or never
    | Book(tracked: Entry, carried: u64)
    | Expire(expired: Entry)
    | Deliver(sequence: u64)
    | EmitAck
    | AckArrives(index: nat)
    | Negotiate(agreed: Terms)

  // ----- steps -----

  /** The next reliable id: the server draws both classes from one counter, the clients have two. */
  function NextId(sender: Sender, out: Outbound, delivery: byte): nat {
    if sender.GoServer? then out.orderedIds + out.unorderedIds + 1
    else if delivery == RELIABLE_ORDERED then out.orderedIds + 1
    else out.unorderedIds + 1
  }

  function TakeId(out: Outbound, delivery: byte): Outbound {
    if delivery == RELIABLE_ORDERED then out.(orderedIds := out.orderedIds + 1)
    else out.(unorderedIds := out.unorderedIds + 1)
  }

  /** The 64-bit sequence counter has not run out. */
  predicate HasRoom(out: Outbound) {
    out.nextSequence + 1 < TWO_64
  }

  /** The id and the sequence that the next reliable message gets. */
  function NextReserved(sender: Sender, out: Outbound, draft: WireMessage): Reserved
    requires HasRoom(out) && NextId(sender, out, draft.delivery) < TWO_64
  {
    Reserved(draft.(deliveryId := NextId(sender, out, draft.delivery)), out.nextSequence + 1)
  }

  function Reserving(sender: Sender, out: Outbound, draft: WireMessage): Outbound
    requires HasRoom(out) && NextId(sender, out, draft.delivery) < TWO_64
  {
    TakeId(out, draft.delivery).(
      nextSequence := out.nextSequence + 1, reserved := out.reserved + {NextReserved(sender, out, draft)})
  }

  /** Hands `message` to the network under the next sequence. */
  function Transmit(s: State, out: Outbound, message: WireMessage): State
    requires HasRoom(out)
  {
    s.(out := out.(nextSequence := out.nextSequence + 1), network := s.network[out.nextSequence + 1 := message])
  }

  function Queue(s: State, pending: set<Entry>): State {
    s.(out := s.out.(pending := pending))
  }

  predicate AckedEntry(a: Ack, entry: Entry) {
    exists q <- entry.sent :: AckWindow.PacketSequenceAcked(a.ack, a.bits, q)
  }

  function RemoveAcked(out: Outbound, a: Ack): Outbound {
    out.(pending := (set e | e in out.pending && !AckedEntry(a, e)),
         acked := out.acked + (set e | e in out.pending && AckedEntry(a, e) :: e.message))
  }

  /** `e` was first sent before `f` was. */
  predicate SentBefore(e: Entry, f: Entry) {
    exists q <- e.sent :: forall p <- f.sent :: q < p
  }

  /** The retry of `entry` is booked on `booked`: the same entry for the Go server and the C# client;
      for the Rust client, the oldest of the entries with the same reliable id. */
  predicate BooksOn(sender: Sender, pending: set<Entry>, entry: Entry, booked: Entry) {
    if !sender.RustClient? then booked == entry
    else
      && booked.message.deliveryId == entry.message.deliveryId
      && forall e <- pending ::
           e.message.deliveryId == entry.message.deliveryId ==> e == booked || SentBefore(booked, e)
  }

  /** Which packets the receiver processes: the clients all of them, the server fresh ones. */
  predicate Processes(sender: Sender, window: AckWindow.Window, sequence: u64) {
    sender.GoServer? || AckWindow.Admits(window, sequence)
  }

  /** The receiver can read a packet that carries this message alone (`PacketCodec.SinglePacket`). */
  predicate Reads(link: Link, message: WireMessage) {
    if link.sender.GoServer? then PacketCodec.Carries(Bytes.Rust, message, false)
    else PacketCodec.Carries(Bytes.Go, message, false) && link.decodes(message)
  }

  /** The server honours what was negotiated; a client takes every class. */
  function ReceiverTerms(link: Link, terms: Terms): Terms {
    if link.sender.GoServer? then UNNEGOTIATED else terms
  }

  predicate Takes(link: Link, terms: Terms, delivery: byte) {
    Supports(ReceiverTerms(link, terms), delivery)
  }

  function Receive(link: Link, terms: Terms, peer: Peer, sequence: u64, message: WireMessage): Peer {
    if !Processes(link.sender, peer.window, sequence) then peer
    else
      var result := Reassembly.AcceptAll(ReceiverTerms(link, terms), peer.inbox, [message]);
      var taken := Takes(link, terms, message.delivery);
      Peer(if sequence == 0 then peer.window else AckWindow.Record(peer.window, sequence),
           if sequence == 0 then peer.recorded else peer.recorded + {sequence},
           result.inbox,
           if taken then peer.arrivals + [message] else peer.arrivals,
           if taken then peer.turnedAway else peer.turnedAway + {message},
           peer.delivered + result.accepted)
  }

  /** A send that nothing interrupts. Kind 7 is reserved for envelopes. */
  function Sending(sender: Sender, s: State, kind: u16, payload: seq<byte>, delivery: byte): State {
    if !HasRoom(s.out) then s
    else if !Reliable(delivery) then
      if kind == PacketCodec.RELIABLE_KIND then s
      else Queue(Transmit(s, s.out, WireMessage(kind, payload, UNRELIABLE, 0)), s.out.pending)
    else if NextId(sender, s.out, delivery) >= TWO_64 then s
    else
      var message := WireMessage(kind, payload, delivery, NextId(sender, s.out, delivery));
      Queue(Transmit(s, TakeId(s.out, delivery), message),
            s.out.pending + {Entry(message, {s.out.nextSequence + 1})})
  }

  /** The packet of a send under way goes out; `pending` is what is tracked afterwards. */
  function Release(s: State, r: Reserved, pending: set<Entry>): State {
    s.(out := s.out.(reserved := s.out.reserved - {r}, pending := pending),
       network := s.network[r.sequence := r.message])
  }

  function Tracking(s: State, q: u64): State {
    if q !in s.network || !Reliable(s.network[q].delivery)
       || (exists e <- s.out.pending :: e.message == s.network[q])
    then s
    else Queue(s, s.out.pending + {Entry(s.network[q], {q})})
  }

  predicate RetryEnabled(sender: Sender, out: Outbound, entry: Entry, booked: Entry) {
    && HasRoom(out) && entry in out.pending && booked in out.pending
    && BooksOn(sender, out.pending, entry, booked)
  }

  function Retrying(sender: Sender, s: State, entry: Entry, booked: Entry): State {
    if RetryEnabled(sender, s.out, entry, booked) then Rebook(s, entry, booked) else s
  }

  /** The message of `entry` goes out again, and its packet is booked on `booked`. */
  function Rebook(s: State, entry: Entry, booked: Entry): State
    requires HasRoom(s.out)
  {
    Queue(Transmit(s, s.out, entry.message), s.out.pending - {booked} + {Rebooked(s.out, booked)})
  }

  function Rebooked(out: Outbound, booked: Entry): Entry
    requires HasRoom(out)
  {
    Entry(booked.message, booked.sent + {out.nextSequence + 1})
  }

  function Booking(s: State, entry: Entry, q: u64): State {
    if entry !in s.out.pending || q !in s.network || s.network[q] != entry.message then s
    else Queue(s, s.out.pending - {entry} + {Entry(entry.message, entry.sent + {q})})
  }

  /** One event; an event that is not enabled changes nothing. */
  function Apply(link: Link, s: State, event: Event): State {
    match event
    case Send(kind, payload, delivery) => Sending(link.sender, s, kind, payload, delivery)
    case Reserve(draft) =>
      if !HasRoom(s.out) || !Reliable(draft.delivery) || NextId(link.sender, s.out, draft.delivery) >= TWO_64 then s
      else s.(out := Reserving(link.sender, s.out, draft))
    case Launch(r) =>
      if r in s.out.reserved then Release(s, r, s.out.pending + {Entry(r.message, {r.sequence})}) else s
    case Emit(r) => if r in s.out.reserved then Release(s, r, s.out.pending) else s
    case Track(q) => Tracking(s, q)
    case Abandon(r) => s.(out := s.out.(reserved := s.out.reserved - {r}))
    case SkipSequence =>
      if HasRoom(s.out) then s.(out := s.out.(nextSequence := s.out.nextSequence + 1)) else s
    case Retry(entry, booked) => Retrying(link.sender, s, entry, booked)
    case Resend(q) =>
      if HasRoom(s.out) && q in s.network then Queue(Transmit(s, s.out, s.network[q]), s.out.pending) else s
    case Book(entry, q) => Booking(s, entry, q)
    case Expire(entry) => Queue(s, s.out.pending - {entry})
    case Deliver(sequence) =>
      if sequence in s.network && Reads(link, s.network[sequence])
      then s.(peer := Receive(link, s.terms, s.peer, sequence, s.network[sequence])) else s
    case EmitAck => s.(acks := s.acks + [Ack(s.peer.window.ack, s.peer.window.bits)])
    case AckArrives(i) => if i < |s.acks| then s.(out := RemoveAcked(s.out, s.acks[i])) else s
    case Negotiate(agreed) => s.(terms := agreed)
  }

  function Run(link: Link, events: seq<Event>): State {
    if events == [] then INITIAL
    else Apply(link, Run(link, events[..|events| - 1]), events[|events| - 1])
  }

  // ----- invariants -----

  /** A reliable message's id has been handed out, and is not zero. */
  predicate Issued(sender: Sender, out: Outbound, m: WireMessage) {
    Reliable(m.delivery) ==> 1 <= m.deliveryId < NextId(sender, out, m.delivery)
  }

  predicate SameName(m: WireMessage, n: WireMessage) {
    Reliable(m.delivery) && m.delivery == n.delivery && m.deliveryId == n.deliveryId
  }

  /** Every packet carries an issued id under an issued sequence. */
  ghost predicate NamesIssued(sender: Sender, out: Outbound, network: map<u64, WireMessage>) {
    forall q <- network :: 1 <= q <= out.nextSequence && Issued(sender, out, network[q])
  }

  /** (class, id) names one message. */
  ghost predicate NamesUnique(network: map<u64, WireMessage>) {
    forall p <- network, q <- network :: SameName(network[p], network[q]) ==> network[p] == network[q]
  }

  /** Some booked packet carried the entry's message. Every booked packet did, or it does not matter that it
      did not: the message has been seen anyway, or the packet cannot be read. */
  ghost predicate BookingOk(link: Link, network: map<u64, WireMessage>, peer: Peer, e: Entry) {
    && Reliable(e.message.delivery)
    && (exists q <- e.sent :: q in network && network[q] == e.message)
    && forall q <- e.sent :: q in network && Justified(link, network[q], peer, e)
  }

  ghost predicate Justified(link: Link, carried: WireMessage, peer: Peer, e: Entry) {
    carried == e.message || Seen(peer, e.message) || !Reads(link, carried)
  }

  /** Bookings are right, and a message is tracked once. */
  ghost predicate Booked(link: Link, pending: set<Entry>, network: map<u64, WireMessage>, peer: Peer) {
    && (forall e <- pending :: BookingOk(link, network, peer, e))
    && (forall e <- pending, f <- pending :: e.message == f.message ==> e == f)
  }

  /** The receiver's state is what the arrivals leave; every recorded packet was taken or turned away;
      and only what was sent, and can be read, arrived. */
  ghost predicate Received(link: Link, network: map<u64, WireMessage>, peer: Peer) {
    && AckWindow.Represents(peer.window, peer.recorded)
    && Reassembly.Outcome(peer.inbox, peer.delivered)
       == Reassembly.AcceptAll(UNNEGOTIATED, Reassembly.EMPTY, peer.arrivals)
    && (forall q <- peer.recorded :: q in network && Seen(peer, network[q]) && Reads(link, network[q]))
    && (forall m <- peer.arrivals :: m in network.Values && Reads(link, m))
    && (forall m <- peer.turnedAway :: m in network.Values && Reads(link, m))
  }

  ghost predicate Seen(peer: Peer, m: WireMessage) {
    m in peer.arrivals || m in peer.turnedAway
  }

  /** Acknowledgements in flight name recorded packets only. */
  ghost predicate Truthful(acks: seq<Ack>, recorded: set<u64>) {
    forall a <- acks, q: u64 :: AckWindow.PacketSequenceAcked(a.ack, a.bits, q) ==> q in recorded
  }

  /** An acknowledged message was sent, can be read, and was seen. */
  ghost predicate AckedSeen(link: Link, acked: set<WireMessage>, network: map<u64, WireMessage>, peer: Peer) {
    forall m <- acked :: Reliable(m.delivery) && m in network.Values && Reads(link, m) && Seen(peer, m)
  }

  /** The sequence and the name of a send under way are taken and used nowhere else. */
  ghost predicate ReservedOk(sender: Sender, out: Outbound, network: map<u64, WireMessage>, r: Reserved) {
    && Reliable(r.message.delivery) && Issued(sender, out, r.message)
    && 1 <= r.sequence <= out.nextSequence && r.sequence !in network
    && forall p <- network :: !SameName(r.message, network[p])
  }

  ghost predicate Apart(r: Reserved, t: Reserved) {
    r.sequence != t.sequence && !SameName(r.message, t.message)
  }

  ghost predicate SendsApart(sender: Sender, out: Outbound, network: map<u64, WireMessage>) {
    && (forall r <- out.reserved :: ReservedOk(sender, out, network, r))
    && (forall r <- out.reserved, t <- out.reserved :: r != t ==> Apart(r, t))
  }

  ghost predicate Inv(link: Link, s: State) {
    && SendsApart(link.sender, s.out, s.network)
    && NamesIssued(link.sender, s.out, s.network)
    && NamesUnique(s.network)
    && Booked(link, s.out.pending, s.network, s.peer)
    && Received(link, s.network, s.peer)
    && Truthful(s.acks, s.peer.recorded)
    && AckedSeen(link, s.out.acked, s.network, s.peer)
  }

  // ----- preservation, event by event -----

  lemma ValuesGrow(network: map<u64, WireMessage>, q: u64, message: WireMessage)
    requires q !in network
    ensures forall m <- network.Values :: m in network[q := message].Values
  {
    forall m <- network.Values
      ensures m in network[q := message].Values
    {
      var p :| p in network && network[p] == m;
      assert network[q := message][p] == m;
    }
  }

  /** A packet under a fresh sequence, carrying a new or an already known name, keeps the names
      unique and changes nothing for the receiver. */
  lemma NetworkGrows(link: Link, s: State, q: u64, message: WireMessage)
    requires Inv(link, s) && q !in s.network
    requires forall p <- s.network :: SameName(s.network[p], message) ==> s.network[p] == message
    ensures NamesUnique(s.network[q := message])
    ensures Received(link, s.network[q := message], s.peer)
    ensures AckedSeen(link, s.out.acked, s.network[q := message], s.peer)
  {
    ValuesGrow(s.network, q, message);
  }

  /** A further packet, and a further or changed entry with a message of its own. */
  lemma BookingGrows(
    link: Link, pending: set<Entry>, network: map<u64, WireMessage>, peer: Peer,
    q: u64, message: WireMessage, entry: Entry)
    requires Booked(link, pending, network, peer) && q !in network
    requires BookingOk(link, network[q := message], peer, entry)
    requires forall e <- pending :: e.message != entry.message
    ensures Booked(link, pending + {entry}, network[q := message], peer)
  {
    BookingStays(link, pending, network, peer, q, message);
  }

  lemma BookingStays(
    link: Link, pending: set<Entry>, network: map<u64, WireMessage>, peer: Peer, q: u64, message: WireMessage)
    requires Booked(link, pending, network, peer) && q !in network
    ensures Booked(link, pending, network[q := message], peer)
  {
    forall e <- pending
      ensures BookingOk(link, network[q := message], peer, e)
    {
      assert BookingOk(link, network, peer, e);
      var p :| p in e.sent && p in network && network[p] == e.message;
      assert network[q := message][p] == e.message;
    }
  }

  /** A message that is tracked has been sent. */
  lemma TrackedIsSent(link: Link, s: State, e: Entry) returns (q: u64)
    requires Booked(link, s.out.pending, s.network, s.peer) && e in s.out.pending
    ensures q in e.sent && q in s.network && s.network[q] == e.message
  {
    assert BookingOk(link, s.network, s.peer, e);
    q :| q in e.sent && q in s.network && s.network[q] == e.message;
  }

  /** A message with a name not on the network is not tracked. */
  lemma NewIsUntracked(link: Link, s: State, message: WireMessage)
    requires Booked(link, s.out.pending, s.network, s.peer)
    requires Reliable(message.delivery) && forall p <- s.network :: !SameName(message, s.network[p])
    ensures forall e <- s.out.pending :: e.message != message
  {
    forall e <- s.out.pending
      ensures e.message != message
    {
      var q := TrackedIsSent(link, s, e);
    }
  }

  /** Counters only move up, and the packet just sent is covered by them. */
  lemma IssuedGrows(
    sender: Sender, out: Outbound, later: Outbound, network: map<u64, WireMessage>, q: u64, message: WireMessage)
    requires NamesIssued(sender, out, network)
    requires later.nextSequence >= out.nextSequence
    requires later.orderedIds >= out.orderedIds && later.unorderedIds >= out.unorderedIds
    requires 1 <= q <= later.nextSequence && Issued(sender, later, message)
    ensures NamesIssued(sender, later, network[q := message])
  {
  }

  lemma SendsStayApart(
    sender: Sender, out: Outbound, network: map<u64, WireMessage>, later: Outbound, q: u64, message: WireMessage)
    requires SendsApart(sender, out, network) && later.reserved <= out.reserved
    requires later.nextSequence >= out.nextSequence
    requires later.orderedIds >= out.orderedIds && later.unorderedIds >= out.unorderedIds
    requires forall r <- later.reserved :: r.sequence != q && !SameName(r.message, message)
    ensures SendsApart(sender, later, network[q := message])
  {
    forall r <- later.reserved
      ensures ReservedOk(sender, later, network[q := message], r)
    {
      assert ReservedOk(sender, out, network, r);
    }
  }

  /** One more packet: the counters cover it, its name is new or known, and the bookings are right. */
  lemma PacketKeeps(link: Link, s: State, out: Outbound, message: WireMessage, pending: set<Entry>)
    requires Inv(link, s) && out.nextSequence == s.out.nextSequence && HasRoom(out) && out.acked == s.out.acked
    requires out.orderedIds >= s.out.orderedIds && out.unorderedIds >= s.out.unorderedIds
    requires Issued(link.sender, out, message)
    requires forall p <- s.network :: SameName(s.network[p], message) ==> s.network[p] == message
    requires out.reserved == s.out.reserved && forall r <- out.reserved :: !SameName(r.message, message)
    requires Booked(link, pending, s.network[out.nextSequence + 1 := message], s.peer)
    ensures Inv(link, Queue(Transmit(s, out, message), pending))
  {
    var q := out.nextSequence + 1;
    var t, later := Queue(Transmit(s, out, message), pending), out.(nextSequence := q, pending := pending);
    assert t.out == later && t.network == s.network[q := message] && t.peer == s.peer && t.acks == s.acks;
    SendsStayApart(link.sender, s.out, s.network, later, q, message);
    NetworkGrows(link, s, q, message);
    IssuedGrows(link.sender, s.out, later, s.network, q, message);
  }

  lemma SendReliableKeeps(link: Link, s: State, kind: u16, payload: seq<byte>, delivery: byte)
    requires Inv(link, s) && HasRoom(s.out)
    requires Reliable(delivery) && NextId(link.sender, s.out, delivery) < TWO_64
    ensures Inv(link, Sending(link.sender, s, kind, payload, delivery))
  {
    var message := WireMessage(kind, payload, delivery, NextId(link.sender, s.out, delivery));
    var q := s.out.nextSequence + 1;
    var entry := Entry(message, {q});
    NewIsUntracked(link, s, message);
    assert s.network[q := message][q] == message;
    BookingGrows(link, s.out.pending, s.network, s.peer, q, message, entry);
    PacketKeeps(link, s, TakeId(s.out, delivery), message, s.out.pending + {entry});
  }

  lemma SendUnreliableKeeps(link: Link, s: State, kind: u16, payload: seq<byte>, delivery: byte)
    requires Inv(link, s) && HasRoom(s.out) && !Reliable(delivery) && kind != PacketCodec.RELIABLE_KIND
    ensures Inv(link, Sending(link.sender, s, kind, payload, delivery))
  {
    var message := WireMessage(kind, payload, UNRELIABLE, 0);
    BookingStays(link, s.out.pending, s.network, s.peer, s.out.nextSequence + 1, message);
    PacketKeeps(link, s, s.out, message, s.out.pending);
  }

  lemma ReserveKeeps(link: Link, s: State, draft: WireMessage)
    requires Inv(link, s)
    ensures Inv(link, Apply(link, s, Reserve(draft)))
  {
    if HasRoom(s.out) && Reliable(draft.delivery) && NextId(link.sender, s.out, draft.delivery) < TWO_64 {
      var out, r := Reserving(link.sender, s.out, draft), NextReserved(link.sender, s.out, draft);
      forall t <- out.reserved
        ensures ReservedOk(link.sender, out, s.network, t) && (t != r ==> Apart(t, r) && Apart(r, t))
      {
        assert t != r ==> ReservedOk(link.sender, s.out, s.network, t);
      }
    }
  }

  lemma ReleaseKeeps(link: Link, s: State, r: Reserved, pending: set<Entry>)
    requires Inv(link, s) && r in s.out.reserved
    requires Booked(link, pending, s.network[r.sequence := r.message], s.peer)
    ensures Inv(link, Release(s, r, pending))
  {
    var t := Release(s, r, pending);
    assert t.peer == s.peer && t.acks == s.acks && t.out.acked == s.out.acked;
    assert ReservedOk(link.sender, s.out, s.network, r);
    NetworkGrows(link, s, r.sequence, r.message);
    IssuedGrows(link.sender, s.out, t.out, s.network, r.sequence, r.message);
    SendsStayApart(link.sender, s.out, s.network, t.out, r.sequence, r.message);
  }

  lemma LaunchKeeps(link: Link, s: State, r: Reserved)
    requires Inv(link, s) && r in s.out.reserved
    ensures Inv(link, Release(s, r, s.out.pending + {Entry(r.message, {r.sequence})}))
  {
    assert ReservedOk(link.sender, s.out, s.network, r);
    NewIsUntracked(link, s, r.message);
    assert s.network[r.sequence := r.message][r.sequence] == r.message;
    BookingGrows(link, s.out.pending, s.network, s.peer, r.sequence, r.message, Entry(r.message, {r.sequence}));
    ReleaseKeeps(link, s, r, s.out.pending + {Entry(r.message, {r.sequence})});
  }

  lemma EmitKeeps(link: Link, s: State, r: Reserved)
    requires Inv(link, s) && r in s.out.reserved
    ensures Inv(link, Release(s, r, s.out.pending))
  {
    assert ReservedOk(link.sender, s.out, s.network, r);
    BookingStays(link, s.out.pending, s.network, s.peer, r.sequence, r.message);
    ReleaseKeeps(link, s, r, s.out.pending);
  }

  lemma TrackKeeps(link: Link, s: State, q: u64)
    requires Inv(link, s)
    ensures Inv(link, Tracking(s, q))
  {
  }

  lemma ResendKeeps(link: Link, s: State, q: u64)
    requires Inv(link, s) && HasRoom(s.out) && q in s.network
    ensures Inv(link, Queue(Transmit(s, s.out, s.network[q]), s.out.pending))
  {
    BookingStays(link, s.out.pending, s.network, s.peer, s.out.nextSequence + 1, s.network[q]);
    KnownIsNotReserved(link, s, q);
    PacketKeeps(link, s, s.out, s.network[q], s.out.pending);
  }

  lemma KnownIsNotReserved(link: Link, s: State, q: u64)
    requires Inv(link, s) && q in s.network
    ensures forall r <- s.out.reserved :: !SameName(r.message, s.network[q])
  {
    forall r <- s.out.reserved
      ensures !SameName(r.message, s.network[q])
    {
      assert ReservedOk(link.sender, s.out, s.network, r);
    }
  }

  lemma BookKeeps(link: Link, s: State, entry: Entry, q: u64)
    requires Inv(link, s)
    ensures Inv(link, Booking(s, entry, q))
  {
    if entry in s.out.pending && q in s.network && s.network[q] == entry.message {
      assert BookingOk(link, s.network, s.peer, entry);
    }
  }

  lemma SendKeeps(link: Link, s: State, kind: u16, payload: seq<byte>, delivery: byte)
    requires Inv(link, s)
    ensures Inv(link, Sending(link.sender, s, kind, payload, delivery))
  {
    if !HasRoom(s.out) {
    } else if Reliable(delivery) && NextId(link.sender, s.out, delivery) < TWO_64 {
      SendReliableKeeps(link, s, kind, payload, delivery);
    } else if !Reliable(delivery) && kind != PacketCodec.RELIABLE_KIND {
      SendUnreliableKeeps(link, s, kind, payload, delivery);
    }
  }

  lemma RetryKeeps(link: Link, s: State, entry: Entry, booked: Entry)
    requires Inv(link, s) && HasRoom(s.out) && entry in s.out.pending && booked in s.out.pending
    requires Harmless(link, s.peer, entry, booked)
    ensures Inv(link, Rebook(s, entry, booked))
  {
    RetryBooked(link, s, entry, booked);
    ResendTrackedKeeps(link, s, entry, s.out.pending - {booked} + {Rebooked(s.out, booked)});
  }

  lemma ResendTrackedKeeps(link: Link, s: State, entry: Entry, pending: set<Entry>)
    requires Inv(link, s) && HasRoom(s.out) && entry in s.out.pending
    requires Booked(link, pending, s.network[s.out.nextSequence + 1 := entry.message], s.peer)
    ensures Inv(link, Queue(Transmit(s, s.out, entry.message), pending))
  {
    TrackedIsKnown(link, s, entry);
    PacketKeeps(link, s, s.out, entry.message, pending);
  }

  lemma TrackedIsKnown(link: Link, s: State, entry: Entry)
    requires Inv(link, s) && entry in s.out.pending
    ensures Issued(link.sender, s.out, entry.message)
    ensures forall p <- s.network :: SameName(s.network[p], entry.message) ==> s.network[p] == entry.message
    ensures forall r <- s.out.reserved :: !SameName(r.message, entry.message)
  {
    var p := TrackedIsSent(link, s, entry);
    KnownIsNotReserved(link, s, p);
  }

  lemma RetryBooked(link: Link, s: State, entry: Entry, booked: Entry)
    requires Inv(link, s) && HasRoom(s.out) && booked in s.out.pending && Harmless(link, s.peer, entry, booked)
    ensures Booked(link, s.out.pending - {booked} + {Rebooked(s.out, booked)},
                   s.network[s.out.nextSequence + 1 := entry.message], s.peer)
  {
    RetryBooking(link, s, entry, booked);
    BookingGrows(link, s.out.pending - {booked}, s.network, s.peer, s.out.nextSequence + 1, entry.message,
                 Rebooked(s.out, booked));
  }

  lemma RetryBooking(link: Link, s: State, entry: Entry, booked: Entry)
    requires Inv(link, s) && HasRoom(s.out) && booked in s.out.pending && Harmless(link, s.peer, entry, booked)
    ensures BookingOk(link, s.network[s.out.nextSequence + 1 := entry.message], s.peer, Rebooked(s.out, booked))
  {
    var grown := s.network[s.out.nextSequence + 1 := entry.message];
    assert BookingOk(link, s.network, s.peer, booked);
    var p := TrackedIsSent(link, s, booked);
    assert grown[p] == booked.message;
  }

  /** Taking one more message, or turning it away. */
  lemma TakeOne(terms: Terms, before: Reassembly.Outcome, arrivals: seq<WireMessage>, message: WireMessage)
    requires before == Reassembly.AcceptAll(UNNEGOTIATED, Reassembly.EMPTY, arrivals)
    ensures var result := Reassembly.AcceptAll(terms, before.inbox, [message]);
      Reassembly.Outcome(result.inbox, before.accepted + result.accepted)
      == Reassembly.AcceptAll(UNNEGOTIATED, Reassembly.EMPTY,
                              if Supports(terms, message.delivery) then arrivals + [message] else arrivals)
  {
    Reassembly.AcceptUnderTerms(terms, before.inbox, message);
    Reassembly.BatchingIrrelevant(UNNEGOTIATED, Reassembly.EMPTY, arrivals, [message]);
    assert before.accepted + [] == before.accepted;
  }

  /** A packet that the receiver processes. */
  lemma ReceiveKeeps(link: Link, s: State, sequence: u64)
    requires Received(link, s.network, s.peer) && sequence in s.network && Reads(link, s.network[sequence])
    requires sequence != 0 && Processes(link.sender, s.peer.window, sequence)
    ensures Received(link, s.network, Receive(link, s.terms, s.peer, sequence, s.network[sequence]))
  {
    var peer := s.peer;
    AckWindow.RecordRepresents(peer.window, peer.recorded, sequence);
    TakeOne(ReceiverTerms(link, s.terms), Reassembly.Outcome(peer.inbox, peer.delivered), peer.arrivals,
            s.network[sequence]);
  }

  lemma DeliverKeeps(link: Link, s: State, sequence: u64)
    requires Inv(link, s)
    ensures Inv(link, Apply(link, s, Deliver(sequence)))
  {
    if sequence in s.network && Reads(link, s.network[sequence]) && Processes(link.sender, s.peer.window, sequence) {
      ReceiveKeeps(link, s, sequence);
      BookedStaysSeen(link, s.out.pending, s.network, s.peer,
                      Receive(link, s.terms, s.peer, sequence, s.network[sequence]));
    }
  }

  lemma BookedStaysSeen(
    link: Link, pending: set<Entry>, network: map<u64, WireMessage>, peer: Peer, later: Peer)
    requires Booked(link, pending, network, peer) && forall m :: Seen(peer, m) ==> Seen(later, m)
    ensures Booked(link, pending, network, later)
  {
    forall e <- pending
      ensures BookingOk(link, network, later, e)
    {
      assert BookingOk(link, network, peer, e);
    }
  }

  lemma EmitAckKeeps(link: Link, s: State)
    requires Inv(link, s)
    ensures Inv(link, Apply(link, s, EmitAck))
  {
    forall q: u64 | AckWindow.PacketSequenceAcked(s.peer.window.ack, s.peer.window.bits, q)
      ensures q in s.peer.recorded
    {
      AckWindow.AckedExactly(s.peer.window, s.peer.recorded, q);
    }
  }

  lemma AckArrivesKeeps(link: Link, s: State, i: nat)
    requires Inv(link, s) && i < |s.acks|
    ensures Inv(link, Apply(link, s, AckArrives(i)))
  {
    var a := s.acks[i];
    forall e <- s.out.pending | AckedEntry(a, e)
      ensures e.message in s.network.Values && Reads(link, e.message) && Seen(s.peer, e.message)
    {
      var q :| q in e.sent && AckWindow.PacketSequenceAcked(a.ack, a.bits, q);
      assert BookingOk(link, s.network, s.peer, e);
      assert Justified(link, s.network[q], s.peer, e);
      var p := TrackedIsSent(link, s, e);
    }
  }

  /** A retry may be booked on the entry that was retried; on another one, if that one's message has been
      seen or the retried one cannot be read. */
  ghost predicate Harmless(link: Link, peer: Peer, entry: Entry, booked: Entry) {
    booked == entry || Seen(peer, booked.message) || !Reads(link, entry.message)
  }

  ghost predicate BookedRight(link: Link, s: State, event: Event) {
    event.Retry? && RetryEnabled(link.sender, s.out, event.entry, event.booked)
    ==> Harmless(link, s.peer, event.entry, event.booked)
  }

  lemma StepKeeps(link: Link, s: State, event: Event)
    requires Inv(link, s) && BookedRight(link, s, event)
    ensures Inv(link, Apply(link, s, event))
  {
    if event.Send? {
      SendKeeps(link, s, event.kind, event.payload, event.delivery);
    } else if event.Reserve? {
      ReserveKeeps(link, s, event.draft);
    } else if event.Launch? && event.launched in s.out.reserved {
      LaunchKeeps(link, s, event.launched);
    } else if event.Emit? && event.emitted in s.out.reserved {
      EmitKeeps(link, s, event.emitted);
    } else if event.Track? {
      TrackKeeps(link, s, event.first);
    } else if event.Retry? && RetryEnabled(link.sender, s.out, event.entry, event.booked) {
      RetryKeeps(link, s, event.entry, event.booked);
    } else if event.Resend? && HasRoom(s.out) && event.copied in s.network {
      ResendKeeps(link, s, event.copied);
    } else if event.Book? {
      BookKeeps(link, s, event.tracked, event.carried);
    } else if event.Deliver? {
      DeliverKeeps(link, s, event.sequence);
    } else if event.EmitAck? {
      EmitAckKeeps(link, s);
    } else if event.AckArrives? && event.index < |s.acks| {
      AckArrivesKeeps(link, s, event.index);
    }
  }

  /** Every retry of the run is booked harmlessly. The Go server and the C# client book on the entry that was
      retried; the Rust client may find an older one with the same id. */
  ghost predicate RetriesBookedRight(link: Link, events: seq<Event>) {
    link.sender.RustClient? ==>
      forall k :: 0 <= k < |events| ==> BookedRight(link, Run(link, events[..k]), events[k])
  }

  lemma {:induction false} EveryRun(link: Link, events: seq<Event>)
    requires RetriesBookedRight(link, events)
    ensures Inv(link, Run(link, events))
  {
    if events == [] {
      AckWindow.EveryRun([]);
      assert AckWindow.Elements([]) == {};
    } else {
      var earlier := events[..|events| - 1];
      if link.sender.RustClient? {
        assert forall k :: 0 <= k < |events| ==> earlier[..k] == events[..k];
      }
      EveryRun(link, earlier);
      StepKeeps(link, Run(link, earlier), events[|events| - 1]);
    }
  }

  // ----- theorems -----

  lemma ArrivalsFixedById(link: Link, s: State)
    requires Inv(link, s)
    ensures Reassembly.FixedById(s.peer.arrivals)
  {
    forall a <- s.peer.arrivals, b <- s.peer.arrivals |
        Reliable(a.delivery) && a.delivery == b.delivery && a.deliveryId == b.deliveryId
      ensures a == b
    {
      var p :| p in s.network && s.network[p] == a;
      var q :| q in s.network && s.network[q] == b;
      assert SameName(s.network[p], s.network[q]);
    }
  }

  /** Delivered to the application, or waiting in the ordered buffer. */
  ghost predicate Handled(s: State, m: WireMessage) {
    Reassembly.Handled(s.peer.inbox, s.peer.delivered, m)
  }

  /** A reliable message that was sent has been handled exactly if the receiver took a copy of it. */
  lemma HandledIffTaken(link: Link, s: State, m: WireMessage)
    requires Inv(link, s) && Reliable(m.delivery) && m in s.network.Values
    ensures Handled(s, m) <==> m in s.peer.arrivals
  {
    if m in s.peer.arrivals {
      ArrivalsFixedById(link, s);
      var q :| q in s.network && s.network[q] == m;
      assert Issued(link.sender, s.out, m);
      Reassembly.ArrivedIsHandled(UNNEGOTIATED, s.peer.arrivals, m);
    } else if Handled(s, m) {
      Reassembly.HandledFrom(UNNEGOTIATED, s.peer.arrivals, m);
    }
  }

  /** Whenever a packet is delivered in this run, the receiver's support for the class is as given. */
  ghost predicate ClassStays(link: Link, events: seq<Event>, delivery: byte, supported: bool) {
    forall k :: 0 <= k < |events| && events[k].Deliver? ==>
      Takes(link, Run(link, events[..k]).terms, delivery) == supported
  }

  lemma {:induction false} ClassHistory(link: Link, events: seq<Event>, delivery: byte, supported: bool)
    requires ClassStays(link, events, delivery, supported)
    ensures var peer := Run(link, events).peer;
      if supported then forall m <- peer.turnedAway :: m.delivery != delivery
      else forall m <- peer.arrivals :: m.delivery != delivery
  {
    if events != [] {
      var earlier := events[..|events| - 1];
      assert forall k :: 0 <= k < |events| ==> earlier[..k] == events[..k];
      ClassHistory(link, earlier, delivery, supported);
    }
  }

  /** End to end, exactly: in every run, a reliable message that an acknowledgement removed from the
      retry queue has been delivered to the peer's application or waits in its ordered buffer if and
      only if the peer supported its class when packets came. */
  lemma HandledIffSupported(link: Link, events: seq<Event>, m: WireMessage, supported: bool)
    requires RetriesBookedRight(link, events) && ClassStays(link, events, m.delivery, supported)
    requires m in Run(link, events).out.acked
    ensures Handled(Run(link, events), m) <==> supported
  {
    EveryRun(link, events);
    ClassHistory(link, events, m.delivery, supported);
    HandledIffTaken(link, Run(link, events), m);
  }

  /** With support that comes and goes, what counts is whether some copy came while it was there. */
  lemma AcknowledgedFate(link: Link, events: seq<Event>, m: WireMessage)
    requires RetriesBookedRight(link, events) && m in Run(link, events).out.acked
    ensures var s := Run(link, events);
      && (Handled(s, m) <==> m in s.peer.arrivals)
      && (m !in s.peer.arrivals ==> m in s.peer.turnedAway)
  {
    EveryRun(link, events);
    HandledIffTaken(link, Run(link, events), m);
  }

  /** End-to-end safety, Go server to client and C# client to Go server: whatever was acknowledged has
      been handled, provided a Go receiver kept supporting its class. */
  lemma ReliableSafety(link: Link, events: seq<Event>, m: WireMessage)
    requires !link.sender.RustClient? && m in Run(link, events).out.acked
    requires !link.sender.GoServer? ==> ClassStays(link, events, m.delivery, true)
    ensures Handled(Run(link, events), m)
  {
    HandledIffSupported(link, events, m, true);
  }

  /** The Rust sender is as safe while every retry is booked on the message that was retried, or harmlessly on
      another one; `ForbiddenRetryLoses` is the other half. */
  lemma RustSafetyWhenBookedRight(link: Link, events: seq<Event>, m: WireMessage)
    requires link.sender.RustClient? && RetriesBookedRight(link, events)
    requires ClassStays(link, events, m.delivery, true) && m in Run(link, events).out.acked
    ensures Handled(Run(link, events), m)
  {
    HandledIffSupported(link, events, m, true);
  }

  /** What the application sees, in every run: only messages that were sent; the ordered ones are
      ids 1, 2, 3, ... without gap or repetition, up to the least id that has not arrived; no
      unordered id twice. */
  lemma DeliveredStreams(link: Link, events: seq<Event>)
    requires RetriesBookedRight(link, events)
    ensures var s := Run(link, events);
      var ordered := Reassembly.OfClass(s.peer.delivered, RELIABLE_ORDERED);
      var unordered := Reassembly.OfClass(s.peer.delivered, RELIABLE_UNORDERED);
      && (forall i :: 0 <= i < |ordered| ==> ordered[i].deliveryId == i + 1)
      && (forall m <- s.peer.arrivals :: m.delivery == RELIABLE_ORDERED ==> m.deliveryId != |ordered| + 1)
      && (forall i, j :: 0 <= i < j < |unordered| ==> unordered[i].deliveryId != unordered[j].deliveryId)
      && (forall m <- ordered + unordered :: m in s.network.Values)
  {
    var s := Run(link, events);
    EveryRun(link, events);
    ArrivalsFixedById(link, s);
    OrderedStream(link, s);
    StreamsOfInv(link, s);
    forall m <- s.peer.arrivals | m.delivery == RELIABLE_ORDERED
      ensures m.deliveryId != s.peer.inbox.next
    {
      NextHasNotArrived(link, s, m);
    }
  }

  lemma OrderedStream(link: Link, s: State)
    requires Inv(link, s)
    ensures var ordered := Reassembly.OfClass(s.peer.delivered, RELIABLE_ORDERED);
      && (forall i :: 0 <= i < |ordered| ==> ordered[i].deliveryId == i + 1)
      && |ordered| == s.peer.inbox.next - 1
  {
    var arrived := Reassembly.Arrived(UNNEGOTIATED, s.peer.arrivals, RELIABLE_ORDERED);
    var ordered := Reassembly.OfClass(s.peer.delivered, RELIABLE_ORDERED);
    Reassembly.EveryArrivalOrder(UNNEGOTIATED, s.peer.arrivals);
    Reassembly.StretchIds(arrived, 1, s.peer.inbox.next);
    forall i | 0 <= i < |ordered|
      ensures ordered[i].deliveryId == i + 1
    {
      Reassembly.StretchContains(arrived, 1, s.peer.inbox.next, i + 1);
    }
  }

  lemma StreamsOfInv(link: Link, s: State)
    requires Inv(link, s)
    ensures var ordered := Reassembly.OfClass(s.peer.delivered, RELIABLE_ORDERED);
      var unordered := Reassembly.OfClass(s.peer.delivered, RELIABLE_UNORDERED);
      && (forall i, j :: 0 <= i < j < |unordered| ==> unordered[i].deliveryId != unordered[j].deliveryId)
      && (forall m <- ordered + unordered :: m in s.network.Values)
  {
    Reassembly.EveryArrivalOrder(UNNEGOTIATED, s.peer.arrivals);
    Reassembly.UnorderedOnce(UNNEGOTIATED, s.peer.arrivals);
    Reassembly.AcceptedFrom(UNNEGOTIATED, s.peer.arrivals);
  }

  lemma NextHasNotArrived(link: Link, s: State, m: WireMessage)
    requires Inv(link, s) && Reassembly.FixedById(s.peer.arrivals)
    requires m in s.peer.arrivals && m.delivery == RELIABLE_ORDERED
    ensures m.deliveryId != s.peer.inbox.next
  {
    var q :| q in s.network && s.network[q] == m;
    assert Issued(link.sender, s.out, m);
    Reassembly.EveryArrivalOrder(UNNEGOTIATED, s.peer.arrivals);
    Reassembly.ArrivedMeaning(UNNEGOTIATED, s.peer.arrivals, RELIABLE_ORDERED, m);
  }

  lemma RunStep(link: Link, events: seq<Event>, event: Event)
    ensures Run(link, events + [event]) == Apply(link, Run(link, events), event)
  {
    assert (events + [event])[..|events|] == events;
  }

  // ----- runs in pieces -----

  function ApplyAll(link: Link, t: State, events: seq<Event>): State {
    if events == [] then t
    else Apply(link, ApplyAll(link, t, events[..|events| - 1]), events[|events| - 1])
  }

  lemma {:induction false} ApplyAppend(
    link: Link, t: State, first: seq<Event>, second: seq<Event>)
    ensures ApplyAll(link, t, first + second) == ApplyAll(link, ApplyAll(link, t, first), second)
  {
    if second == [] {
      assert first + second == first;
    } else {
      assert (first + second)[..|first + second| - 1] == first + second[..|second| - 1];
      ApplyAppend(link, t, first, second[..|second| - 1]);
    }
  }

  lemma {:induction false} RunAppend(link: Link, first: seq<Event>, second: seq<Event>)
    ensures Run(link, first + second) == ApplyAll(link, Run(link, first), second)
  {
    if second == [] {
      assert first + second == first;
    } else {
      assert (first + second)[..|first + second| - 1] == first + second[..|second| - 1];
      RunAppend(link, first, second[..|second| - 1]);
    }
  }

  lemma ApplySingle(link: Link, t: State, event: Event)
    ensures ApplyAll(link, t, [event]) == Apply(link, t, event)
  {
    assert [event][..0] == [];
  }

  // ----- where the guarantees end: ordered delivery -----

  /** No ordered message that the receiver can read carries this id. */
  ghost predicate Gap(link: Link, s: State, gap: u64) {
    forall q <- s.network ::
      s.network[q].delivery == RELIABLE_ORDERED && Reads(link, s.network[q]) ==> s.network[q].deliveryId != gap
  }

  /** A gap holds back every larger ordered id. */
  lemma GapHoldsBack(link: Link, events: seq<Event>, gap: u64)
    requires RetriesBookedRight(link, events) && gap >= 1 && Gap(link, Run(link, events), gap)
    ensures forall m <- Reassembly.OfClass(Run(link, events).peer.delivered, RELIABLE_ORDERED) :: m.deliveryId < gap
  {
    EveryRun(link, events);
    var s := Run(link, events);
    forall m <- s.peer.arrivals | m.delivery == RELIABLE_ORDERED
      ensures m.deliveryId != gap
    {
      var q :| q in s.network && s.network[q] == m;
    }
    Reassembly.GapStalls(UNNEGOTIATED, s.peer.arrivals, gap);
  }

  /** Id `gap` has been taken, but neither by an ordered message that was sent nor by one about to be. */
  ghost predicate GapForGood(link: Link, s: State, gap: u64) {
    && 1 <= gap < NextId(link.sender, s.out, RELIABLE_ORDERED) && Gap(link, s, gap)
    && forall r <- s.out.reserved :: r.message.delivery == RELIABLE_ORDERED ==> r.message.deliveryId != gap
  }

  lemma {:induction false} GapPersists(link: Link, events: seq<Event>, more: seq<Event>, gap: u64)
    requires link.sender.GoServer? && GapForGood(link, Run(link, events), gap)
    ensures GapForGood(link, Run(link, events + more), gap)
  {
    if more == [] {
      assert events + more == events;
    } else {
      var earlier := more[..|more| - 1];
      var event := more[|more| - 1];
      GapPersists(link, events, earlier, gap);
      assert events + more == (events + earlier) + [event];
      RunStep(link, events + earlier, event);
      EveryRun(link, events + earlier);
      GapStep(link, Run(link, events + earlier), event, gap);
    }
  }

  /** A further packet carries a message that was sent before, or one whose id is not the gap. */
  lemma GapStays(link: Link, s: State, out: Outbound, q: u64, message: WireMessage, gap: u64)
    requires GapForGood(link, s, gap) && out.reserved <= s.out.reserved
    requires out.orderedIds >= s.out.orderedIds && out.unorderedIds >= s.out.unorderedIds
    requires message.delivery == RELIABLE_ORDERED && Reads(link, message) ==> message.deliveryId != gap
    ensures GapForGood(link, s.(out := out, network := s.network[q := message]), gap)
  {
  }

  lemma GapStep(link: Link, s: State, event: Event, gap: u64)
    requires link.sender.GoServer? && Inv(link, s) && GapForGood(link, s, gap)
    ensures GapForGood(link, Apply(link, s, event), gap)
  {
    var t := Apply(link, s, event);
    if event.Retry? && RetryEnabled(link.sender, s.out, event.entry, event.booked) {
      var p := TrackedIsSent(link, s, event.entry);
      GapStays(link, s, t.out, s.out.nextSequence + 1, s.network[p], gap);
    } else if event.Resend? && HasRoom(s.out) && event.copied in s.network {
      GapStays(link, s, t.out, s.out.nextSequence + 1, s.network[event.copied], gap);
    } else if event.Launch? && event.launched in s.out.reserved {
      GapStays(link, s, t.out, event.launched.sequence, event.launched.message, gap);
    } else if event.Emit? && event.emitted in s.out.reserved {
      GapStays(link, s, t.out, event.emitted.sequence, event.emitted.message, gap);
    } else if event.Send? {
      GapSend(link, s, event.kind, event.payload, event.delivery, gap);
    }
  }

  lemma GapSend(link: Link, s: State, kind: u16, payload: seq<byte>, delivery: byte, gap: u64)
    requires link.sender.GoServer? && GapForGood(link, s, gap)
    ensures GapForGood(link, Sending(link.sender, s, kind, payload, delivery), gap)
  {
  }

  /** The server numbers ordered and unordered messages from one counter, while the client waits for
      consecutive ordered ids. So once an id has gone to an unordered message, or to one that was
      never queued, no ordered message with a larger id is delivered in any continuation. */
  lemma SharedCounterStalls(link: Link, events: seq<Event>, more: seq<Event>, gap: u64)
    requires link.sender.GoServer? && GapForGood(link, Run(link, events), gap)
    ensures forall m <- Reassembly.OfClass(Run(link, events + more).peer.delivered, RELIABLE_ORDERED) ::
      m.deliveryId < gap
  {
    GapPersists(link, events, more, gap);
    GapHoldsBack(link, events + more, gap);
  }

  /** One unordered message is enough: whatever happens afterwards, nothing ordered is delivered. */
  lemma UnorderedFirstStallsOrdered(link: Link, kind: u16, payload: seq<byte>, more: seq<Event>)
    requires link.sender.GoServer?
    ensures Reassembly.OfClass(
              Run(link, [Send(kind, payload, RELIABLE_UNORDERED)] + more).peer.delivered, RELIABLE_ORDERED) == []
  {
    var events := [Send(kind, payload, RELIABLE_UNORDERED)] + more;
    var ordered := Reassembly.OfClass(Run(link, events).peer.delivered, RELIABLE_ORDERED);
    assert ordered != [] ==> ordered[0] in ordered;
    UnorderedTakesFirst(link, kind, payload);
    SharedCounterStalls(link, [Send(kind, payload, RELIABLE_UNORDERED)], more, 1);
    EveryRun(link, events);
    OrderedStream(link, Run(link, events));
  }

  lemma UnorderedTakesFirst(link: Link, kind: u16, payload: seq<byte>)
    requires link.sender.GoServer?
    ensures GapForGood(link, Run(link, [Send(kind, payload, RELIABLE_UNORDERED)]), 1)
  {
    var send := Send(kind, payload, RELIABLE_UNORDERED);
    RunStep(link, [], send);
    assert [] + [send] == [send];
  }

  /** A message the receiver cannot read (for a Go receiver: one with an empty payload, or whose content
      does not decode) is never acknowledged, and if it is ordered nothing from its id on is delivered. */
  lemma UnreadableStalls(link: Link, events: seq<Event>, m: WireMessage)
    requires RetriesBookedRight(link, events) && Reliable(m.delivery)
    requires m in Run(link, events).network.Values && !Reads(link, m)
    ensures var s := Run(link, events);
      && m !in s.out.acked && !Handled(s, m)
      && (m.delivery == RELIABLE_ORDERED ==>
            forall d <- Reassembly.OfClass(s.peer.delivered, RELIABLE_ORDERED) :: d.deliveryId < m.deliveryId)
  {
    EveryRun(link, events);
    var s := Run(link, events);
    HandledIffTaken(link, s, m);
    var p :| p in s.network && s.network[p] == m;
    if m.delivery == RELIABLE_ORDERED {
      assert Issued(link.sender, s.out, s.network[p]);
      UnreadableIsGap(link, s, p);
      GapHoldsBack(link, events, m.deliveryId);
    }
  }

  /** Exactly when ordered delivery gets through: once every ordered message that can be read has been
      taken at least once, an ordered message has been delivered if and only if every id up to its own
      was given to an ordered message that can be read. */
  lemma DeliveredUnlessGap(link: Link, events: seq<Event>, s: State, m: WireMessage)
    requires RetriesBookedRight(link, events) && s == Run(link, events)
    requires m in s.network.Values && m.delivery == RELIABLE_ORDERED
    requires forall q <- s.network ::
      s.network[q].delivery == RELIABLE_ORDERED && Reads(link, s.network[q]) ==> s.network[q] in s.peer.arrivals
    ensures m in s.peer.delivered <==> forall id: u64 :: 1 <= id <= m.deliveryId ==> !Gap(link, s, id)
  {
    EveryRun(link, events);
    ArrivalsFixedById(link, s);
    Reassembly.EveryArrivalOrder(UNNEGOTIATED, s.peer.arrivals);
    var arrived := Reassembly.Arrived(UNNEGOTIATED, s.peer.arrivals, RELIABLE_ORDERED);
    forall id: u64 | id >= 1
      ensures id in arrived <==> !Gap(link, s, id)
    {
      ArrivedUnlessGap(link, s, id);
    }
    var p :| p in s.network && s.network[p] == m;
    assert Issued(link.sender, s.out, s.network[p]);
    if Reads(link, m) {
      DeliveredBelowNext(link, s, m);
    } else {
      UnreadableStalls(link, events, m);
      UnreadableIsGap(link, s, p);
    }
  }

  lemma UnreadableIsGap(link: Link, s: State, p: u64)
    requires Inv(link, s) && p in s.network && s.network[p].delivery == RELIABLE_ORDERED && !Reads(link, s.network[p])
    ensures Gap(link, s, s.network[p].deliveryId)
  {
    forall q <- s.network | s.network[q].delivery == RELIABLE_ORDERED && Reads(link, s.network[q])
      ensures s.network[q].deliveryId != s.network[p].deliveryId
    {
      assert !SameName(s.network[p], s.network[q]);
    }
  }

  lemma ArrivedUnlessGap(link: Link, s: State, id: u64)
    requires Inv(link, s) && Reassembly.FixedById(s.peer.arrivals)
    requires forall q <- s.network ::
      s.network[q].delivery == RELIABLE_ORDERED && Reads(link, s.network[q]) ==> s.network[q] in s.peer.arrivals
    requires id >= 1
    ensures id in Reassembly.Arrived(UNNEGOTIATED, s.peer.arrivals, RELIABLE_ORDERED) <==> !Gap(link, s, id)
  {
    var arrived := Reassembly.Arrived(UNNEGOTIATED, s.peer.arrivals, RELIABLE_ORDERED);
    Reassembly.ArrivedWellKeyed(UNNEGOTIATED, s.peer.arrivals, RELIABLE_ORDERED);
    if id in arrived {
      Reassembly.ArrivedFrom(UNNEGOTIATED, s.peer.arrivals, RELIABLE_ORDERED);
      var q :| q in s.network && s.network[q] == arrived[id];
    }
    if !Gap(link, s, id) {
      var q :| q in s.network && s.network[q].delivery == RELIABLE_ORDERED && Reads(link, s.network[q])
        && s.network[q].deliveryId == id;
      Reassembly.ArrivedMeaning(UNNEGOTIATED, s.peer.arrivals, RELIABLE_ORDERED, s.network[q]);
    }
  }

  lemma DeliveredBelowNext(link: Link, s: State, m: WireMessage)
    requires Inv(link, s) && Reassembly.FixedById(s.peer.arrivals)
    requires m in s.peer.arrivals && m.delivery == RELIABLE_ORDERED && m.deliveryId >= 1
    ensures m in s.peer.delivered <==> m.deliveryId < s.peer.inbox.next
  {
    var arrived := Reassembly.Arrived(UNNEGOTIATED, s.peer.arrivals, RELIABLE_ORDERED);
    Reassembly.EveryArrivalOrder(UNNEGOTIATED, s.peer.arrivals);
    Reassembly.OfClassMeaning(s.peer.delivered, RELIABLE_ORDERED, m);
    Reassembly.ArrivedMeaning(UNNEGOTIATED, s.peer.arrivals, RELIABLE_ORDERED, m);
    Reassembly.StretchIds(arrived, 1, s.peer.inbox.next);
    if m.deliveryId < s.peer.inbox.next {
      Reassembly.StretchContains(arrived, 1, s.peer.inbox.next, m.deliveryId);
    }
  }

  // ----- where the guarantees end: acknowledged is not handled -----

  /** Packet `q` arrives, and the acknowledgement that then goes out comes back. */
  function RoundTrip(q: u64, acks: nat): seq<Event> {
    [Deliver(q), EmitAck, AckArrives(acks)]
  }

  function AfterRoundTrip(link: Link, s: State, q: u64): State {
    var delivered := Apply(link, s, Deliver(q));
    var emitted := Apply(link, delivered, EmitAck);
    Apply(link, emitted, AckArrives(|s.acks|))
  }

  lemma RunRoundTrip(link: Link, events: seq<Event>, q: u64)
    ensures var s := Run(link, events);
      Run(link, events + RoundTrip(q, |s.acks|)) == AfterRoundTrip(link, s, q)
  {
    var n := |Run(link, events).acks|;
    assert events + RoundTrip(q, n) == events + [Deliver(q)] + [EmitAck] + [AckArrives(n)];
    var s1, s2 := Run(link, events + [Deliver(q)]), Run(link, events + [Deliver(q)] + [EmitAck]);
    RunStep(link, events, Deliver(q));
    assert s1 == Apply(link, Run(link, events), Deliver(q));
    RunStep(link, events + [Deliver(q)], EmitAck);
    assert s2 == Apply(link, s1, EmitAck);
    RunStep(link, events + [Deliver(q)] + [EmitAck], AckArrives(n));
  }

  /** A packet later than all recorded ones, and not so late that the staleness test wraps around. */
  ghost predicate Fresh(peer: Peer, q: u64) {
    q != 0 && (forall p <- peer.recorded :: p < q) && q + 64 < TWO_64
  }

  lemma FreshIsRecorded(link: Link, s: State, q: u64)
    requires Received(link, s.network, s.peer) && q in s.network && Reads(link, s.network[q]) && Fresh(s.peer, q)
    ensures var peer := Receive(link, s.terms, s.peer, q, s.network[q]);
      && Apply(link, s, Deliver(q)) == s.(peer := peer)
      && peer.window.ack == q && Received(link, s.network, peer)
  {
    AckWindow.AdmitsExactly(s.peer.window, s.peer.recorded, q);
    ReceiveKeeps(link, s, q);
  }

  lemma NewestIsAcked(link: Link, s: State, booked: Entry)
    requires s.peer.window.ack != 0 && booked in s.out.pending && s.peer.window.ack in booked.sent
    ensures var t := Apply(link, Apply(link, s, EmitAck), AckArrives(|s.acks|));
      booked.message in t.out.acked && t.peer == s.peer
  {
    var emitted := Apply(link, s, EmitAck);
    assert AckedEntry(emitted.acks[|s.acks|], booked);
  }

  /** A fresh packet that can be read is recorded, and the acknowledgement removes whatever it is booked on. */
  lemma RoundTripAcks(link: Link, s: State, q: u64, booked: Entry)
    requires Received(link, s.network, s.peer) && q in s.network && Reads(link, s.network[q]) && Fresh(s.peer, q)
    requires booked in s.out.pending && q in booked.sent
    ensures var t := AfterRoundTrip(link, s, q);
      && booked.message in t.out.acked
      && t.peer == Receive(link, s.terms, s.peer, q, s.network[q])
      && Received(link, s.network, t.peer)
  {
    FreshIsRecorded(link, s, q);
    NewestIsAcked(link, Apply(link, s, Deliver(q)), booked);
  }

  lemma NegotiateThenSend(link: Link, terms: Terms, m: WireMessage)
    requires !link.sender.GoServer? && Reliable(m.delivery) && m.deliveryId == 1
    ensures var s := Run(link, [Negotiate(terms), Send(m.kind, m.payload, m.delivery)]);
      s.terms == terms && s.acks == [] && s.network == map[1 := m] && Entry(m, {1}) in s.out.pending
      && s.peer == INITIAL.peer
  {
    var a, b := Negotiate(terms), Send(m.kind, m.payload, m.delivery);
    assert [a, b] == [] + [a] + [b];
    RunStep(link, [], a);
    RunStep(link, [] + [a], b);
  }

  /** The negotiated terms decide: after this run the message is acknowledged, and it has been handled if
      and only if the terms include its class. */
  lemma UnsupportedClassIsLost(link: Link, terms: Terms, m: WireMessage)
    requires !link.sender.GoServer? && Reliable(m.delivery) && m.deliveryId == 1 && Reads(link, m)
    ensures var s := Run(link, [Negotiate(terms), Send(m.kind, m.payload, m.delivery)] + RoundTrip(1, 0));
      m in s.out.acked && (Handled(s, m) <==> Supports(terms, m.delivery))
  {
    var opening := [Negotiate(terms), Send(m.kind, m.payload, m.delivery)];
    var events := opening + RoundTrip(1, 0);
    NegotiateThenSend(link, terms, m);
    EveryRun(link, opening);
    RoundTripAcks(link, Run(link, opening), 1, Entry(m, {1}));
    RunRoundTrip(link, opening, 1);
    OneDelivery(link, opening, m.delivery);
    HandledIffSupported(link, events, m, Supports(terms, m.delivery));
  }

  lemma OneDelivery(link: Link, opening: seq<Event>, delivery: byte)
    requires forall e <- opening :: !e.Deliver? && !e.Retry?
    ensures var events := opening + RoundTrip(1, 0);
      && RetriesBookedRight(link, events)
      && ClassStays(link, events, delivery, Takes(link, Run(link, opening).terms, delivery))
  {
    var events := opening + RoundTrip(1, 0);
    forall k | 0 <= k < |events|
      ensures !events[k].Retry? && (events[k].Deliver? ==> events[..k] == opening)
    {
      assert k < |opening| ==> events[k] == opening[k] && opening[k] in opening;
      assert k >= |opening| ==> events[k] == RoundTrip(1, 0)[k - |opening|];
    }
  }

  /** The retry of `entry`, booked on `booked`, is in the network and waits for its acknowledgement. */
  lemma WrongBooking(link: Link, s: State, entry: Entry, booked: Entry)
    requires Inv(link, s) && RetryEnabled(link.sender, s.out, entry, booked)
    ensures var q, t := s.out.nextSequence + 1, Apply(link, s, Retry(entry, booked));
      && t.network == s.network[q := entry.message] && t.peer == s.peer && t.terms == s.terms && t.acks == s.acks
      && Entry(booked.message, booked.sent + {q}) in t.out.pending
      && Received(link, t.network, t.peer)
  {
    var p := TrackedIsSent(link, s, entry);
    NetworkGrows(link, s, s.out.nextSequence + 1, entry.message);
  }

  /** The guard of the failing branch is exact. Wherever a Rust client reaches a state in which a retry is
      about to be booked on another message that has not been taken, and the retried one can be read, that
      retry and one round trip end with the other message acknowledged and lost. (With room for 64 more
      sequences, lest the server's staleness test wrap around.) */
  lemma WrongBookingLoses(link: Link, events: seq<Event>, s: State, entry: Entry, booked: Entry)
    requires link.sender.RustClient? && RetriesBookedRight(link, events) && s == Run(link, events)
    requires RetryEnabled(link.sender, s.out, entry, booked) && booked != entry
    requires booked.message !in s.peer.arrivals && Reads(link, entry.message)
    requires s.out.nextSequence + 65 < TWO_64
    ensures var t := Run(link, events + [Retry(entry, booked)] + RoundTrip(s.out.nextSequence + 1, |s.acks|));
      booked.message in t.out.acked && !Handled(t, booked.message)
  {
    var q := s.out.nextSequence + 1;
    EveryRun(link, events);
    WrongBooking(link, s, entry, booked);
    assert entry.message != booked.message;
    RunStep(link, events, Retry(entry, booked));
    var s1 := Run(link, events + [Retry(entry, booked)]);
    RoundTripAcks(link, s1, q, Entry(booked.message, booked.sent + {q}));
    RunRoundTrip(link, events + [Retry(entry, booked)], q);
    var t := AfterRoundTrip(link, s1, q);
    if Handled(t, booked.message) {
      Reassembly.HandledFrom(UNNEGOTIATED, t.peer.arrivals, booked.message);
    }
  }

  /** The two meet: a retry that `RetriesBookedRight` forbids is one that loses a message. */
  lemma ForbiddenRetryLoses(link: Link, events: seq<Event>, s: State, retry: Event)
    requires link.sender.RustClient? && RetriesBookedRight(link, events) && s == Run(link, events)
    requires !BookedRight(link, s, retry) && s.out.nextSequence + 65 < TWO_64
    ensures var t := Run(link, events + [retry] + RoundTrip(s.out.nextSequence + 1, |s.acks|));
      retry.booked.message in t.out.acked && !Handled(t, retry.booked.message)
  {
    WrongBookingLoses(link, events, s, retry.entry, retry.booked);
  }

  /** Such a state is two sends away: the first ordered and the first unordered message share their id. */
  lemma RustCollisionLosesMessage(link: Link, a: WireMessage, b: WireMessage)
    requires link.sender.RustClient? && Reads(link, b)
    requires a.delivery == RELIABLE_ORDERED && b.delivery == RELIABLE_UNORDERED
    requires a.deliveryId == 1 && b.deliveryId == 1
    ensures var s := Run(link,
        [Send(a.kind, a.payload, a.delivery), Send(b.kind, b.payload, b.delivery)]
        + [Retry(Entry(b, {2}), Entry(a, {1}))] + RoundTrip(3, 0));
      a in s.out.acked && !Handled(s, a)
  {
    var first, second := Send(a.kind, a.payload, a.delivery), Send(b.kind, b.payload, b.delivery);
    var events := [first, second];
    assert events == [] + [first] + [second];
    RunStep(link, [], first);
    RunStep(link, [] + [first], second);
    var s1 := Run(link, [] + [first]);
    assert s1.out == Outbound(1, 1, 0, {}, {Entry(a, {1})}, {}) && s1.peer == INITIAL.peer && s1.acks == [];
    var s := Run(link, events);
    assert s.out == Outbound(2, 1, 1, {}, {Entry(a, {1}), Entry(b, {2})}, {});
    WrongBookingLoses(link, events, s, Entry(b, {2}), Entry(a, {1}));
  }
}
