/** The server's retry queues and the end-to-end model are one system: every event at the server, seen from
    one client, is a short sequence of sender events of `Transport`. So what `Transport` guarantees holds of
    the queue that the server really keeps. */
module SenderLink {
  import opened Bits
  import opened Wire
  import opened Sorting
  import PacketCodec
  import RetryQueue
  import Transport

  ghost function Entries(out: map<u64, RetryQueue.Queued>): set<Transport.Entry> {
    set id | id in out :: EntryOf(out[id])
  }

  function EntryOf(queued: RetryQueue.Queued): Transport.Entry {
    Transport.Entry(queued.message, queued.sent)
  }

  function ReservedOf(flight: RetryQueue.Flight): Transport.Reserved {
    Transport.Reserved(flight.message, flight.sequence)
  }

  ghost function Reservations(flights: set<RetryQueue.Flight>, address: Str): set<Transport.Reserved> {
    set f | f in flights && f.address == address :: ReservedOf(f)
  }

  /** What the server keeps for one client is what the sender of the end-to-end model keeps. */
  ghost predicate Mirrors(s: RetryQueue.Server, address: Str, out: Transport.Outbound) {
    && address in s.clients
    && out.nextSequence == s.nextSequence
    && out.orderedIds + out.unorderedIds == s.clients[address].nextReliableId
    && out.pending == Entries(s.clients[address].reliableOut)
    && out.reserved == Reservations(s.flights, address)
  }

  // ----- queue operations as set operations -----

  /** Every entry sits under its own message's id, as the queue invariant says. */
  ghost predicate Keyed(out: map<u64, RetryQueue.Queued>) {
    forall id <- out :: out[id].message.deliveryId == id
  }

  lemma QueuesAreKeyed(config: RetryQueue.Config, s: RetryQueue.Server, address: Str)
    requires RetryQueue.Inv(config, s) && address in s.clients
    ensures Keyed(s.clients[address].reliableOut)
  {
    forall id <- s.clients[address].reliableOut
      ensures s.clients[address].reliableOut[id].message.deliveryId == id
    {
      assert RetryQueue.Has(s.clients, RetryQueue.Key(address, id));
    }
  }

  lemma EntriesRemove(out: map<u64, RetryQueue.Queued>, ack: Transport.Ack)
    ensures Entries(RetryQueue.Unacked(out, ack.ack, ack.bits))
         == set e | e in Entries(out) && !Transport.AckedEntry(ack, e)
    ensures forall id <- out :: id !in RetryQueue.Unacked(out, ack.ack, ack.bits) ==>
      EntryOf(out[id]) in Entries(out) && Transport.AckedEntry(ack, EntryOf(out[id]))
  {
    var kept := RetryQueue.Unacked(out, ack.ack, ack.bits);
    forall id <- out
      ensures RetryQueue.AckedEntry(ack.ack, ack.bits, out[id]) <==> Transport.AckedEntry(ack, EntryOf(out[id]))
    {
    }
    forall e <- Entries(out) | !Transport.AckedEntry(ack, e)
      ensures e in Entries(kept)
    {
      var id :| id in out && e == EntryOf(out[id]);
      assert id in kept;
    }
  }

  lemma EntriesAdd(out: map<u64, RetryQueue.Queued>, id: u64, queued: RetryQueue.Queued)
    requires id !in out
    ensures Entries(out[id := queued]) == Entries(out) + {EntryOf(queued)}
  {
    var out' := out[id := queued];
    assert forall i <- out :: i in out' && out'[i] == out[i];
    assert out'[id] == queued;
  }

  lemma EntriesDrop(out: map<u64, RetryQueue.Queued>, id: u64)
    requires Keyed(out) && id in out
    ensures Entries(out - {id}) == Entries(out) - {EntryOf(out[id])}
  {
    assert forall i <- out :: i != id ==> i in out - {id};
  }

  lemma EntriesReplace(out: map<u64, RetryQueue.Queued>, id: u64, queued: RetryQueue.Queued)
    requires Keyed(out) && id in out
    ensures Entries(out[id := queued]) == Entries(out) - {EntryOf(out[id])} + {EntryOf(queued)}
  {
    EntriesDrop(out, id);
    EntriesAdd(out - {id}, id, queued);
    assert (out - {id})[id := queued] == out[id := queued];
  }

  lemma ReservationsDrop(flights: set<RetryQueue.Flight>, flight: RetryQueue.Flight, address: Str)
    requires flight in flights
    ensures Reservations(flights - {flight}, address)
         == if flight.address == address then Reservations(flights, address) - {ReservedOf(flight)}
            else Reservations(flights, address)
  {
    var fewer := flights - {flight};
    forall f <- flights | f.address == address && f != flight
      ensures ReservedOf(f) in Reservations(fewer, address)
    {
    }
  }

  // ----- one server event, seen from one client -----

  function ShadowOne(
    config: RetryQueue.Config, s: RetryQueue.Server, key: RetryQueue.Key, now: int, address: Str): seq<Transport.Event>
  {
    if !RetryQueue.Has(s.clients, key) || !RetryQueue.Due(config, s, key, now) then []
    else
      var queued := RetryQueue.Get(s.clients, key);
      if queued.attempts >= config.maxAttempts then
        if key.address == address then [Transport.Expire(EntryOf(queued))] else []
      else if s.nextSequence + 1 >= TWO_64 then []
      else if key.address == address then [Transport.Retry(EntryOf(queued), EntryOf(queued))]
      else [Transport.SkipSequence]
  }

  function ShadowAll(
    config: RetryQueue.Config, s: RetryQueue.Server, visits: seq<RetryQueue.Key>, now: int, address: Str)
    : seq<Transport.Event>
  {
    if visits == [] then []
    else
      var earlier := visits[..|visits| - 1];
      ShadowAll(config, s, earlier, now, address)
      + ShadowOne(config, RetryQueue.RetryAll(config, s, earlier, now), visits[|visits| - 1], now, address)
  }

  function ShadowPrepare(
    config: RetryQueue.Config, s: RetryQueue.Server, client: Str, draft: WireMessage, address: Str)
    : seq<Transport.Event>
  {
    if !RetryQueue.CanPrepare(s, client, draft) || |s.clients[client].reliableOut| >= config.queueLimit then []
    else if client == address then [Transport.Reserve(draft)]
    else [Transport.SkipSequence]
  }

  /** The send ends in the queue. */
  predicate Queues(config: RetryQueue.Config, s: RetryQueue.Server, flight: RetryQueue.Flight, sendable: bool) {
    && flight.address in s.clients && RetryQueue.Encodes(s.clients[flight.address], flight) && sendable
    && |s.clients[flight.address].reliableOut| < config.queueLimit
  }

  function ShadowSettle(
    config: RetryQueue.Config, s: RetryQueue.Server, flight: RetryQueue.Flight, sendable: bool, address: Str)
    : seq<Transport.Event>
  {
    if flight !in s.flights || flight.address != address then []
    else if Queues(config, s, flight, sendable) then [Transport.Launch(ReservedOf(flight))]
    else [Transport.Abandon(ReservedOf(flight))]
  }

  /** All but this client's own acknowledgements, and its end. */
  predicate Concerns(event: RetryQueue.Event, address: Str) {
    !(event.Acks? && event.address == address) && !(event.Leaves? && event.address == address)
  }

  function Shadow(config: RetryQueue.Config, s: RetryQueue.Server, event: RetryQueue.Event, address: Str)
    : seq<Transport.Event>
  {
    match event
    case Draws => [Transport.SkipSequence]
    case Prepares(client, draft) => ShadowPrepare(config, s, client, draft, address)
    case Settles(flight, sendable, _) => ShadowSettle(config, s, flight, sendable, address)
    case Retries(visits, now) => ShadowAll(config, s, visits, now, address)
    case _ => []
  }

  lemma ExpiryMirrors(
    config: RetryQueue.Config, s: RetryQueue.Server, key: RetryQueue.Key, now: int,
    link: Transport.Link, t: Transport.State)
    requires RetryQueue.Inv(config, s) && Mirrors(s, key.address, t.out)
    requires RetryQueue.Has(s.clients, key) && RetryQueue.Due(config, s, key, now)
    requires RetryQueue.Get(s.clients, key).attempts >= config.maxAttempts
    ensures Mirrors(RetryQueue.RetryOne(config, s, key, now), key.address,
                    Transport.Apply(link, t, Transport.Expire(EntryOf(RetryQueue.Get(s.clients, key)))).out)
  {
    QueuesAreKeyed(config, s, key.address);
    EntriesDrop(s.clients[key.address].reliableOut, key.id);
  }

  lemma ResendMirrors(
    config: RetryQueue.Config, s: RetryQueue.Server, key: RetryQueue.Key, now: int,
    link: Transport.Link, t: Transport.State)
    requires RetryQueue.Inv(config, s) && Mirrors(s, key.address, t.out) && link.sender.GoServer?
    requires RetryQueue.Has(s.clients, key) && RetryQueue.Due(config, s, key, now) && s.nextSequence + 1 < TWO_64
    requires RetryQueue.Get(s.clients, key).attempts < config.maxAttempts
    ensures var entry := EntryOf(RetryQueue.Get(s.clients, key));
      Mirrors(RetryQueue.RetryOne(config, s, key, now), key.address,
              Transport.Apply(link, t, Transport.Retry(entry, entry)).out)
  {
    var queued := RetryQueue.Get(s.clients, key);
    var again := RetryQueue.Again(s, queued, now);
    RetryQueue.RetransmitSucceeds(config, s, key, now);
    QueuesAreKeyed(config, s, key.address);
    EntriesReplace(s.clients[key.address].reliableOut, key.id, again);
    assert RetryQueue.RetryOne(config, s, key, now).clients[key.address].reliableOut
        == s.clients[key.address].reliableOut[key.id := again];
    assert EntryOf(queued) in t.out.pending;
  }

  /** A visit to another client's entry. */
  lemma ElsewhereMirrors(
    config: RetryQueue.Config, s: RetryQueue.Server, key: RetryQueue.Key, now: int, address: Str,
    link: Transport.Link, t: Transport.State)
    requires RetryQueue.Inv(config, s) && Mirrors(s, address, t.out) && key.address != address
    ensures Mirrors(RetryQueue.RetryOne(config, s, key, now), address,
                    Transport.ApplyAll(link, t, ShadowOne(config, s, key, now, address)).out)
  {
    var after := RetryQueue.RetryOne(config, s, key, now);
    assert after.flights == s.flights && address in after.clients && after.clients[address] == s.clients[address];
    if RetryQueue.Has(s.clients, key) && RetryQueue.Due(config, s, key, now)
       && RetryQueue.Get(s.clients, key).attempts < config.maxAttempts && s.nextSequence + 1 < TWO_64 {
      Transport.ApplySingle(link, t, Transport.SkipSequence);
    }
  }

  /** A retransmission visit is a retry, an expiry, a sequence that goes elsewhere, or nothing. */
  lemma RetryOneMirrors(
    config: RetryQueue.Config, s: RetryQueue.Server, key: RetryQueue.Key, now: int, address: Str,
    link: Transport.Link, t: Transport.State)
    requires RetryQueue.Inv(config, s) && Mirrors(s, address, t.out) && link.sender.GoServer?
    ensures Mirrors(RetryQueue.RetryOne(config, s, key, now), address,
                    Transport.ApplyAll(link, t, ShadowOne(config, s, key, now, address)).out)
  {
    if key.address != address {
      ElsewhereMirrors(config, s, key, now, address, link, t);
    } else if RetryQueue.Has(s.clients, key) && RetryQueue.Due(config, s, key, now) {
      var queued := RetryQueue.Get(s.clients, key);
      if queued.attempts >= config.maxAttempts {
        ExpiryMirrors(config, s, key, now, link, t);
        Transport.ApplySingle(link, t, Transport.Expire(EntryOf(queued)));
      } else if s.nextSequence + 1 < TWO_64 {
        ResendMirrors(config, s, key, now, link, t);
        Transport.ApplySingle(link, t, Transport.Retry(EntryOf(queued), EntryOf(queued)));
      }
    }
  }

  lemma {:induction false} RetryAllMirrors(
    config: RetryQueue.Config, s: RetryQueue.Server, visits: seq<RetryQueue.Key>, now: int, address: Str,
    link: Transport.Link, t: Transport.State)
    requires RetryQueue.Inv(config, s) && Mirrors(s, address, t.out) && link.sender.GoServer?
    ensures Mirrors(RetryQueue.RetryAll(config, s, visits, now), address,
                    Transport.ApplyAll(link, t, ShadowAll(config, s, visits, now, address)).out)
  {
    if visits != [] {
      var earlier, last := visits[..|visits| - 1], visits[|visits| - 1];
      var before, events := RetryQueue.RetryAll(config, s, earlier, now), ShadowAll(config, s, earlier, now, address);
      RetryAllMirrors(config, s, earlier, now, address, link, t);
      RetryQueue.RetryAllKeeps(config, s, earlier, now);
      RetryOneMirrors(config, before, last, now, address, link, Transport.ApplyAll(link, t, events));
      Transport.ApplyAppend(link, t, events, ShadowOne(config, before, last, now, address));
    }
  }

  lemma PrepareMirrors(
    config: RetryQueue.Config, s: RetryQueue.Server, client: Str, draft: WireMessage, address: Str,
    link: Transport.Link, t: Transport.State)
    requires RetryQueue.Inv(config, s) && Mirrors(s, address, t.out) && link.sender.GoServer?
    ensures Mirrors(RetryQueue.Prepare(config, s, client, draft), address,
                    Transport.ApplyAll(link, t, ShadowPrepare(config, s, client, draft, address)).out)
  {
    if RetryQueue.CanPrepare(s, client, draft) && |s.clients[client].reliableOut| < config.queueLimit {
      var flight := RetryQueue.NewFlight(s, client, draft);
      var flights := s.flights + {flight};
      if client == address {
        Transport.ApplySingle(link, t, Transport.Reserve(draft));
        assert ReservedOf(flight) == Transport.NextReserved(link.sender, t.out, draft);
        assert Reservations(flights, address) == Reservations(s.flights, address) + {ReservedOf(flight)};
      } else {
        Transport.ApplySingle(link, t, Transport.SkipSequence);
        assert Reservations(flights, address) == Reservations(s.flights, address);
      }
    }
  }

  lemma SettleMirrors(
    config: RetryQueue.Config, s: RetryQueue.Server, flight: RetryQueue.Flight, sendable: bool, now: int, address: Str,
    link: Transport.Link, t: Transport.State)
    requires RetryQueue.Inv(config, s) && Mirrors(s, address, t.out)
    ensures Mirrors(RetryQueue.Settle(config, s, flight, sendable, now), address,
                    Transport.ApplyAll(link, t, ShadowSettle(config, s, flight, sendable, address)).out)
  {
    if flight !in s.flights {
      assert s.flights - {flight} == s.flights;
    } else {
      var after := RetryQueue.Settle(config, s, flight, sendable, now);
      assert RetryQueue.FlightOk(s.nextSequence, s.clients, flight);
      ReservationsDrop(s.flights, flight, address);
      assert after.flights == s.flights - {flight};
      if flight.address != address {
        assert after.clients[address] == s.clients[address];
      } else if Queues(config, s, flight, sendable) {
        var queued := RetryQueue.Queued(flight.message, 1, now, {flight.sequence});
        EntriesAdd(s.clients[address].reliableOut, flight.message.deliveryId, queued);
        Transport.ApplySingle(link, t, Transport.Launch(ReservedOf(flight)));
        assert ReservedOf(flight) in t.out.reserved;
      } else {
        Transport.ApplySingle(link, t, Transport.Abandon(ReservedOf(flight)));
      }
    }
  }

  /** An event that concerns nothing the model sees of this client. */
  lemma QuietMirrors(
    config: RetryQueue.Config, s: RetryQueue.Server, event: RetryQueue.Event, address: Str, out: Transport.Outbound)
    requires Mirrors(s, address, out) && Concerns(event, address)
    requires event.Joins? || event.Hears? || event.Acks?
    ensures Mirrors(RetryQueue.Apply(config, s, event), address, out)
  {
    var after := RetryQueue.Apply(config, s, event);
    assert after.flights == s.flights && after.nextSequence == s.nextSequence && address in after.clients;
    assert after.clients[address].reliableOut == s.clients[address].reliableOut;
    assert after.clients[address].nextReliableId == s.clients[address].nextReliableId;
  }

  /** Every event at the server that is not this client's own acknowledgement. */
  lemma EventMirrors(
    config: RetryQueue.Config, s: RetryQueue.Server, event: RetryQueue.Event, address: Str,
    link: Transport.Link, t: Transport.State)
    requires RetryQueue.Inv(config, s) && Mirrors(s, address, t.out) && link.sender.GoServer?
    requires Concerns(event, address)
    ensures Mirrors(RetryQueue.Apply(config, s, event), address,
                    Transport.ApplyAll(link, t, Shadow(config, s, event, address)).out)
  {
    match event
    case Draws =>
      Transport.ApplySingle(link, t, Transport.SkipSequence);
      DrawMirrors(s, address, link, t);
    case Prepares(client, draft) => PrepareMirrors(config, s, client, draft, address, link, t);
    case Settles(flight, sendable, now) => SettleMirrors(config, s, flight, sendable, now, address, link, t);
    case Retries(visits, now) => RetryAllMirrors(config, s, visits, now, address, link, t);
    case Leaves(other) => OthersLeave(s, other, address, t.out);
    case _ => QuietMirrors(config, s, event, address, t.out);
  }

  lemma DrawMirrors(s: RetryQueue.Server, address: Str, link: Transport.Link, t: Transport.State)
    requires Mirrors(s, address, t.out)
    ensures Mirrors(RetryQueue.Draw(s), address, Transport.Apply(link, t, Transport.SkipSequence).out)
  {
  }

  lemma OthersLeave(s: RetryQueue.Server, other: Str, address: Str, out: Transport.Outbound)
    requires Mirrors(s, address, out) && other != address
    ensures Mirrors(RetryQueue.Timeout(s, other), address, out)
  {
    var flights := RetryQueue.Timeout(s, other).flights;
    forall f <- s.flights | f.address == address
      ensures other in s.clients ==> f in flights
    {
    }
    assert Reservations(flights, address) == Reservations(s.flights, address);
  }

  /** This client's acknowledgement removes the same messages on both sides. */
  lemma AckMirrors(
    config: RetryQueue.Config, s: RetryQueue.Server, address: Str, link: Transport.Link, t: Transport.State, i: nat)
    requires RetryQueue.Inv(config, s) && Mirrors(s, address, t.out) && i < |t.acks|
    ensures var after := RetryQueue.RemoveAcked(s, address, t.acks[i].ack, t.acks[i].bits);
      var t' := Transport.Apply(link, t, Transport.AckArrives(i));
      && Mirrors(after, address, t'.out)
      && forall id <- s.clients[address].reliableOut :: id !in after.clients[address].reliableOut ==>
           s.clients[address].reliableOut[id].message in t'.out.acked
  {
    EntriesRemove(s.clients[address].reliableOut, t.acks[i]);
  }

  // ----- the server and one client together -----

  /** `trace` is what the end-to-end model saw of the run so far. */
  datatype Joint = Joint(server: RetryQueue.Server, trace: seq<Transport.Event>)

  datatype Event =
    | Serve(event: RetryQueue.Event)      // anything at the server but this client's acknowledgements
    | Unreliable(kind: u16, payload: seq<byte>)  // a snapshot or an unreliable response to this client
    | AckIn(index: nat)                   // an acknowledgement of this client arrives
    | Receive(sequence: u64)              // a packet arrives at this client
    | Emit                                // this client sends its acknowledgement state

  /** From the moment the client joined, with whatever the server was doing before. */
  function Start(s: RetryQueue.Server, address: Str): Joint {
    Joint(RetryQueue.NewClient(s, address), seq(s.nextSequence, _ => Transport.SkipSequence))
  }

  function Apply(config: RetryQueue.Config, link: Transport.Link, address: Str, j: Joint, event: Event): Joint {
    match event
    case Serve(e) =>
      if !Concerns(e, address) then j
      else Joint(RetryQueue.Apply(config, j.server, e), j.trace + Shadow(config, j.server, e, address))
    case Unreliable(kind, payload) =>
      if j.server.nextSequence + 1 >= TWO_64 || kind == PacketCodec.RELIABLE_KIND then j
      else Joint(RetryQueue.Draw(j.server), j.trace + [Transport.Send(kind, payload, UNRELIABLE)])
    case AckIn(i) =>
      var acks := Transport.Run(link, j.trace).acks;
      if i >= |acks| then j
      else
        Joint(RetryQueue.RemoveAcked(j.server, address, acks[i].ack, acks[i].bits),
              j.trace + [Transport.AckArrives(i)])
    case Receive(sequence) => j.(trace := j.trace + [Transport.Deliver(sequence)])
    case Emit => j.(trace := j.trace + [Transport.EmitAck])
  }

  function Run(
    config: RetryQueue.Config, link: Transport.Link, address: Str, s: RetryQueue.Server, events: seq<Event>): Joint
  {
    if events == [] then Start(s, address)
    else Apply(config, link, address, Run(config, link, address, s, events[..|events| - 1]), events[|events| - 1])
  }

  ghost predicate Linked(config: RetryQueue.Config, link: Transport.Link, address: Str, j: Joint) {
    RetryQueue.Inv(config, j.server) && Mirrors(j.server, address, Transport.Run(link, j.trace).out)
  }

  lemma {:induction false} Skipping(link: Transport.Link, n: nat)
    requires n < TWO_64
    ensures Transport.Run(link, seq(n, _ => Transport.SkipSequence))
         == Transport.INITIAL.(out := Transport.INITIAL.out.(nextSequence := n))
  {
    if n > 0 {
      Skipping(link, n - 1);
      assert seq(n, _ => Transport.SkipSequence)[..n - 1] == seq(n - 1, _ => Transport.SkipSequence);
    }
  }

  lemma StartLinked(config: RetryQueue.Config, link: Transport.Link, address: Str, s: RetryQueue.Server)
    requires RetryQueue.Inv(config, s) && address !in s.clients
    ensures Linked(config, link, address, Start(s, address))
  {
    Skipping(link, s.nextSequence);
    RetryQueue.SameQueueKeeps(config, s, address, RetryQueue.Client(0, 0, 0, map[]));
    forall f <- s.flights
      ensures f.address != address
    {
      assert RetryQueue.FlightOk(s.nextSequence, s.clients, f);
    }
    assert Entries(map[]) == {} && Reservations(s.flights, address) == {};
  }

  lemma ServeLinked(config: RetryQueue.Config, link: Transport.Link, address: Str, j: Joint, event: RetryQueue.Event)
    requires config.maxAttempts >= 1 && link.sender.GoServer? && Linked(config, link, address, j)
    requires Concerns(event, address)
    ensures Linked(config, link, address,
                   Joint(RetryQueue.Apply(config, j.server, event), j.trace + Shadow(config, j.server, event, address)))
  {
    RetryQueue.StepKeeps(config, j.server, event);
    EventMirrors(config, j.server, event, address, link, Transport.Run(link, j.trace));
    Transport.RunAppend(link, j.trace, Shadow(config, j.server, event, address));
  }

  lemma UnreliableLinked(
    config: RetryQueue.Config, link: Transport.Link, address: Str, j: Joint, kind: u16, payload: seq<byte>)
    requires Linked(config, link, address, j)
    ensures Linked(config, link, address, Apply(config, link, address, j, Unreliable(kind, payload)))
  {
    RetryQueue.DrawKeeps(config, j.server);
    Transport.RunStep(link, j.trace, Transport.Send(kind, payload, UNRELIABLE));
  }

  lemma AckLinked(config: RetryQueue.Config, link: Transport.Link, address: Str, j: Joint, i: nat)
    requires Linked(config, link, address, j)
    ensures Linked(config, link, address, Apply(config, link, address, j, AckIn(i)))
  {
    var t := Transport.Run(link, j.trace);
    if i < |t.acks| {
      RetryQueue.RemoveAckedKeeps(config, j.server, address, t.acks[i].ack, t.acks[i].bits);
      AckMirrors(config, j.server, address, link, t, i);
      Transport.RunStep(link, j.trace, Transport.AckArrives(i));
    }
  }

  lemma PeerLinked(config: RetryQueue.Config, link: Transport.Link, address: Str, j: Joint, event: Transport.Event)
    requires Linked(config, link, address, j) && (event.Deliver? || event.EmitAck?)
    ensures Linked(config, link, address, j.(trace := j.trace + [event]))
  {
    Transport.RunStep(link, j.trace, event);
    assert Transport.Run(link, j.trace + [event]).out == Transport.Run(link, j.trace).out;
  }

  lemma StepLinked(config: RetryQueue.Config, link: Transport.Link, address: Str, j: Joint, event: Event)
    requires config.maxAttempts >= 1 && link.sender.GoServer? && Linked(config, link, address, j)
    ensures Linked(config, link, address, Apply(config, link, address, j, event))
  {
    match event
    case Serve(e) =>
      if Concerns(e, address) {
        ServeLinked(config, link, address, j, e);
      }
    case Unreliable(kind, payload) => UnreliableLinked(config, link, address, j, kind, payload);
    case AckIn(i) => AckLinked(config, link, address, j, i);
    case Receive(sequence) => PeerLinked(config, link, address, j, Transport.Deliver(sequence));
    case Emit => PeerLinked(config, link, address, j, Transport.EmitAck);
  }

  /** In every run of the server with any number of clients, this client's retry queue is, step for step,
      the pending set of an end-to-end run. */
  lemma {:induction false} EveryRun(
    config: RetryQueue.Config, link: Transport.Link, address: Str, s: RetryQueue.Server, events: seq<Event>)
    requires config.maxAttempts >= 1 && link.sender.GoServer?
    requires RetryQueue.Inv(config, s) && address !in s.clients
    ensures Linked(config, link, address, Run(config, link, address, s, events))
  {
    if events == [] {
      StartLinked(config, link, address, s);
    } else {
      var earlier := events[..|events| - 1];
      EveryRun(config, link, address, s, earlier);
      StepLinked(config, link, address, Run(config, link, address, s, earlier), events[|events| - 1]);
    }
  }

  /** Safety of the queue the server keeps: whatever an acknowledgement removes from it has been delivered
      by the client or waits in the client's ordered buffer. */
  lemma QueueSafety(
    config: RetryQueue.Config, link: Transport.Link, address: Str, s: RetryQueue.Server, events: seq<Event>,
    index: nat, id: u64)
    requires config.maxAttempts >= 1 && link.sender.GoServer?
    requires RetryQueue.Inv(config, s) && address !in s.clients
    ensures var before := Run(config, link, address, s, events);
      var after := Apply(config, link, address, before, AckIn(index));
      && address in before.server.clients && address in after.server.clients
      && (id in before.server.clients[address].reliableOut && id !in after.server.clients[address].reliableOut ==>
            Transport.Handled(Transport.Run(link, after.trace), before.server.clients[address].reliableOut[id].message))
  {
    EveryRun(config, link, address, s, events);
    var before := Run(config, link, address, s, events);
    var t := Transport.Run(link, before.trace);
    if index < |t.acks| {
      AckMirrors(config, before.server, address, link, t, index);
      Transport.RunStep(link, before.trace, Transport.AckArrives(index));
      var after := Apply(config, link, address, before, AckIn(index));
      if id in before.server.clients[address].reliableOut && id !in after.server.clients[address].reliableOut {
        Transport.ReliableSafety(link, after.trace, before.server.clients[address].reliableOut[id].message);
      }
    }
  }
}
