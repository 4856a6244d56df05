/** The server's retry queues over all its clients: `prepareReliableMessage`,
    `queueReliableOutbound`, `removeAckedReliableLocked` and `collectReliableRetransmits`. */
module RetryQueue {
  import opened Bits
  import opened Wire
  import opened Sorting
  import opened Bytes
  import opened PacketCodec
  import AckWindow
  import Budget
  import Trimming

  datatype Config = Config(retryInterval: int, maxAttempts: nat, queueLimit: nat)

  datatype Queued = Queued(message: WireMessage, attempts: nat, lastSentAt: int, sent: set<u64>)

  /** The fields of `UDPClient` that sending uses. */
  datatype Client = Client(ack: u64, ackBits: u64, nextReliableId: nat, reliableOut: map<u64, Queued>)

  /** `refused` and `discarded` are histories: entries dropped because re-encoding failed, and
      entries that went with a timed-out client. */
  datatype Counters = Counters(queued: nat, ackRemovals: nat, expired: nat, refused: nat, discarded: nat, drops: nat)

  /** A send under way: its id and its sequence are taken, but the message is not queued yet. */
  datatype Flight = Flight(address: Str, message: WireMessage, sequence: u64)

  datatype Server = Server(nextSequence: nat, clients: map<Str, Client>, flights: set<Flight>, counters: Counters)

  datatype Key = Key(address: Str, id: u64)

  const INITIAL: Server := Server(0, map[], {}, Counters(0, 0, 0, 0, 0, 0))

  // ----- steps -----

  function NewClient(s: Server, address: Str): Server {
    if address in s.clients then s else s.(clients := s.clients[address := Client(0, 0, 0, map[])])
  }

  function Timeout(s: Server, address: Str): Server {
    if address !in s.clients then s
    else s.(clients := s.clients - {address},
            flights := (set f | f in s.flights && f.address != address),
            counters := s.counters.(discarded := s.counters.discarded + |s.clients[address].reliableOut|))
  }

  /** The acknowledgement state that later packets to this client carry. */
  function Heard(s: Server, address: Str, ack: u64, ackBits: u64): Server {
    if address !in s.clients then s
    else s.(clients := s.clients[address := s.clients[address].(ack := ack, ackBits := ackBits)])
  }

  /** Anything else that takes a sequence: a snapshot, an unreliable response. */
  function Draw(s: Server): Server {
    if s.nextSequence + 1 < TWO_64 then s.(nextSequence := s.nextSequence + 1) else s
  }

  predicate HasRoom(s: Server, client: Client) {
    s.nextSequence + 1 < TWO_64 && client.nextReliableId + 1 < TWO_64
  }

  /** The client is there, the class is reliable, and the counters have not run out. */
  predicate CanPrepare(s: Server, address: Str, draft: WireMessage) {
    address in s.clients && Reliable(draft.delivery) && HasRoom(s, s.clients[address])
  }

  function NewFlight(s: Server, address: Str, draft: WireMessage): Flight
    requires CanPrepare(s, address, draft)
  {
    Flight(address, draft.(deliveryId := s.clients[address].nextReliableId + 1), s.nextSequence + 1)
  }

  /** The first half of a send: unless the queue is full, an id and a sequence are taken. */
  function Prepare(config: Config, s: Server, address: Str, draft: WireMessage): Server {
    if !CanPrepare(s, address, draft) then s
    else if |s.clients[address].reliableOut| >= config.queueLimit then
      s.(counters := s.counters.(drops := s.counters.drops + 1))
    else
      var flight := NewFlight(s, address, draft);
      s.(nextSequence := flight.sequence,
         clients := s.clients[address := s.clients[address].(nextReliableId := flight.message.deliveryId)],
         flights := s.flights + {flight})
  }

  /** The packet of this send can be encoded. */
  predicate Encodes(client: Client, flight: Flight) {
    EncodePacket(Packet(flight.sequence, client.ack, client.ackBits, [flight.message])).Encoded?
  }

  /** The length of that packet, if it has one. */
  function PacketLength(client: Client, flight: Flight): nat {
    var packet := EncodePacket(Packet(flight.sequence, client.ack, client.ackBits, [flight.message]));
    if packet.Encoded? then |packet.bytes| else 0
  }

  /** `clientSupportsReliable` failing turns a message into an unreliable one. */
  function Downgraded(draft: WireMessage): WireMessage {
    if Reliable(draft.delivery) then draft.(delivery := UNRELIABLE, deliveryId := 0) else draft
  }

  /** The second half, at any later time: the message is queued unless it cannot be encoded, or its packet
      is too large or over budget (`sendable` false), or the queue has become full in the meantime. */
  function Settle(config: Config, s: Server, flight: Flight, sendable: bool, now: int): Server {
    var landed := s.(flights := s.flights - {flight});
    if flight !in s.flights || flight.address !in s.clients || !Encodes(s.clients[flight.address], flight) || !sendable
    then landed
    else if |s.clients[flight.address].reliableOut| >= config.queueLimit then
      landed.(counters := s.counters.(drops := s.counters.drops + 1))
    else Enqueue(landed, flight, now)
  }

  function Enqueue(s: Server, flight: Flight, now: int): Server
    requires flight.address in s.clients
  {
    var client := s.clients[flight.address];
    var entry := Queued(flight.message, 1, now, {flight.sequence});
    s.(clients := s.clients[flight.address :=
         client.(reliableOut := client.reliableOut[flight.message.deliveryId := entry])],
       counters := s.counters.(queued := s.counters.queued + 1))
  }

  predicate AckedEntry(ack: u64, ackBits: u64, entry: Queued) {
    exists q <- entry.sent :: AckWindow.PacketSequenceAcked(ack, ackBits, q)
  }

  function Unacked(out: map<u64, Queued>, ack: u64, ackBits: u64): map<u64, Queued> {
    map id | id in out && !AckedEntry(ack, ackBits, out[id]) :: out[id]
  }

  function RemoveAcked(s: Server, address: Str, ack: u64, ackBits: u64): Server {
    if address !in s.clients then s
    else
      var out := s.clients[address].reliableOut;
      var kept := Unacked(out, ack, ackBits);
      s.(clients := s.clients[address := s.clients[address].(reliableOut := kept)],
         counters := s.counters.(ackRemovals := s.counters.ackRemovals + |out.Keys - kept.Keys|))
  }

  function Without(clients: Clients, key: Key): Clients
    requires key.address in clients
  {
    var client := clients[key.address];
    clients[key.address := client.(reliableOut := client.reliableOut - {key.id})]
  }

  type Clients = map<Str, Client>

  predicate Has(clients: Clients, key: Key) {
    key.address in clients && key.id in clients[key.address].reliableOut
  }

  function Get(clients: Clients, key: Key): Queued
    requires Has(clients, key)
  {
    clients[key.address].reliableOut[key.id]
  }

  /** One visit of the retransmission loop. */
  function RetryOne(config: Config, s: Server, key: Key, now: int): Server {
    if !Has(s.clients, key) || now - Get(s.clients, key).lastSentAt < config.retryInterval then s
    else
      var client, entry, c := s.clients[key.address], Get(s.clients, key), s.counters;
      if entry.attempts >= config.maxAttempts then
        s.(clients := Without(s.clients, key), counters := c.(expired := c.expired + 1, drops := c.drops + 1))
      else if s.nextSequence + 1 >= TWO_64 then s
      else
        var sequence := s.nextSequence + 1;
        if EncodePacket(Packet(sequence, client.ack, client.ackBits, [entry.message])).Refused? then
          s.(nextSequence := sequence, clients := Without(s.clients, key),
             counters := c.(refused := c.refused + 1, drops := c.drops + 1))
        else
          var again := Queued(entry.message, entry.attempts + 1, now, entry.sent + {sequence});
          s.(nextSequence := sequence,
             clients := s.clients[key.address := client.(reliableOut := client.reliableOut[key.id := again])])
  }

  /** The whole loop; Go visits the two maps in any order. */
  function RetryAll(config: Config, s: Server, visits: seq<Key>, now: int): Server {
    if visits == [] then s
    else RetryOne(config, RetryAll(config, s, visits[..|visits| - 1], now), visits[|visits| - 1], now)
  }

  /** The packet that one visit writes, if any. */
  function PacketOne(config: Config, s: Server, key: Key, now: int): seq<seq<byte>> {
    if !Has(s.clients, key) || RetryOne(config, s, key, now).nextSequence == s.nextSequence then []
    else
      var client, entry := s.clients[key.address], Get(s.clients, key);
      var packet := EncodePacket(Packet(s.nextSequence + 1, client.ack, client.ackBits, [entry.message]));
      if packet.Encoded? then [packet.bytes] else []
  }

  function AllPackets(config: Config, s: Server, visits: seq<Key>, now: int): seq<seq<byte>> {
    if visits == [] then []
    else
      var earlier := visits[..|visits| - 1];
      AllPackets(config, s, earlier, now)
      + PacketOne(config, RetryAll(config, s, earlier, now), visits[|visits| - 1], now)
  }

  // ----- invariant -----

  ghost function Pending(clients: Clients): set<Key> {
    set address, id | address in clients && id in clients[address].reliableOut :: Key(address, id)
  }

  /** One queue entry is well formed; in particular, encoding it again cannot fail. */
  ghost predicate EntryOk(config: Config, lastSequence: nat, lastId: nat, id: u64, entry: Queued) {
    && entry.message.deliveryId == id && 1 <= id <= lastId
    && Reliable(entry.message.delivery)
    && 1 <= entry.attempts <= config.maxAttempts && |entry.sent| == entry.attempts
    && (forall q <- entry.sent :: 1 <= q <= lastSequence)
    && Encodable(entry.message)
  }

  ghost predicate Encodable(message: WireMessage) {
    forall sequence: u64, ack: u64, ackBits: u64 :: EncodePacket(Packet(sequence, ack, ackBits, [message])).Encoded?
  }

  ghost predicate Ok(config: Config, lastSequence: nat, clients: Clients, key: Key)
    requires Has(clients, key)
  {
    EntryOk(config, lastSequence, clients[key.address].nextReliableId, key.id, Get(clients, key))
  }

  ghost predicate ClientOk(config: Config, lastSequence: nat, client: Client) {
    |client.reliableOut| <= config.queueLimit && client.nextReliableId <= lastSequence
  }

  /** Every client's queue is within the limit, every entry is well formed, and no packet sequence is
      booked twice, on whatever client. */
  ghost predicate QueuesOk(config: Config, lastSequence: nat, clients: Clients) {
    && (forall address <- clients :: ClientOk(config, lastSequence, clients[address]))
    && (forall key: Key :: Has(clients, key) ==> Ok(config, lastSequence, clients, key))
    && (forall k: Key, l: Key :: Has(clients, k) && Has(clients, l) && k != l ==>
          Get(clients, k).sent !! Get(clients, l).sent)
  }

  /** Every message ever queued is accounted for, and none was lost to a failed re-encoding. */
  ghost predicate Balanced(s: Server) {
    var c := s.counters;
    c.refused == 0 && c.queued == c.ackRemovals + c.expired + c.refused + c.discarded + |Pending(s.clients)|
  }

  /** Some entry has this sequence booked. */
  ghost predicate IsBooked(clients: Clients, q: u64) {
    exists key: Key :: Has(clients, key) && q in Get(clients, key).sent
  }

  /** The id and the sequence of a send under way are taken and used nowhere else. */
  ghost predicate FlightOk(lastSequence: nat, clients: Clients, f: Flight) {
    && f.address in clients && Reliable(f.message.delivery)
    && 1 <= f.message.deliveryId <= clients[f.address].nextReliableId
    && f.message.deliveryId !in clients[f.address].reliableOut
    && 1 <= f.sequence <= lastSequence && !IsBooked(clients, f.sequence)
  }

  ghost predicate Apart(f: Flight, g: Flight) {
    f.sequence != g.sequence && (f.address == g.address ==> f.message.deliveryId != g.message.deliveryId)
  }

  ghost predicate FlightsOk(lastSequence: nat, clients: Clients, flights: set<Flight>) {
    && (forall f <- flights :: FlightOk(lastSequence, clients, f))
    && (forall f <- flights, g <- flights :: f != g ==> Apart(f, g))
  }

  ghost predicate Inv(config: Config, s: Server) {
    && s.nextSequence < TWO_64
    && QueuesOk(config, s.nextSequence, s.clients) && Balanced(s) && FlightsOk(s.nextSequence, s.clients, s.flights)
  }

  // ----- preservation -----

  lemma EncodedOnceEncodable(message: WireMessage, sequence: u64, ack: u64, ackBits: u64)
    requires EncodePacket(Packet(sequence, ack, ackBits, [message])).Encoded?
    ensures Encodable(message)
  {
    forall q: u64, a: u64, b: u64
      ensures EncodePacket(Packet(q, a, b, [message])).Encoded?
    {
      ReencodingKeepsLength(Packet(sequence, ack, ackBits, [message]), q, a, b);
    }
  }

  lemma PendingMeaning(clients: Clients)
    ensures forall k: Key :: k in Pending(clients) <==> Has(clients, k)
  {
  }

  /** Replacing or adding one entry, under a possibly larger sequence and id counter. */
  lemma PutKeeps(config: Config, n: nat, clients: Clients, n': nat, key: Key, entry: Queued, nextId: nat)
    requires QueuesOk(config, n, clients) && key.address in clients && n <= n'
    requires clients[key.address].nextReliableId <= nextId <= n'
    requires |clients[key.address].reliableOut[key.id := entry]| <= config.queueLimit
    requires EntryOk(config, n', nextId, key.id, entry)
    requires forall k: Key :: Has(clients, k) && k != key ==> Get(clients, k).sent !! entry.sent
    ensures var client := clients[key.address];
      var clients' := clients[key.address :=
        client.(nextReliableId := nextId, reliableOut := client.reliableOut[key.id := entry])];
      QueuesOk(config, n', clients') && Pending(clients') == Pending(clients) + {key}
  {
    var client := clients[key.address];
    var clients' := clients[key.address :=
      client.(nextReliableId := nextId, reliableOut := client.reliableOut[key.id := entry])];
    forall k: Key
      ensures Has(clients', k) <==> Has(clients, k) || k == key
      ensures Has(clients, k) && k != key ==> Get(clients', k) == Get(clients, k) && Ok(config, n', clients', k)
    {
      if Has(clients, k) {
        assert Ok(config, n, clients, k);
      }
    }
    assert Get(clients', key) == entry;
    PendingMeaning(clients);
    PendingMeaning(clients');
  }

  /** `fewer` has lost clients or entries; otherwise only the acknowledgements may differ. */
  ghost predicate Shrinks(clients: Clients, fewer: Clients) {
    forall a <- fewer ::
      && a in clients && fewer[a].nextReliableId == clients[a].nextReliableId
      && fewer[a].reliableOut.Keys <= clients[a].reliableOut.Keys
      && forall id <- fewer[a].reliableOut :: fewer[a].reliableOut[id] == clients[a].reliableOut[id]
  }

  lemma ShrinkKeeps(config: Config, n: nat, clients: Clients, n': nat, fewer: Clients)
    requires QueuesOk(config, n, clients) && Shrinks(clients, fewer) && n <= n'
    ensures QueuesOk(config, n', fewer)
  {
    forall a <- fewer
      ensures ClientOk(config, n', fewer[a])
    {
      SubsetSize(fewer[a].reliableOut.Keys, clients[a].reliableOut.Keys);
    }
    forall k: Key | Has(fewer, k)
      ensures Has(clients, k) && Get(fewer, k) == Get(clients, k) && Ok(config, n', fewer, k)
    {
      assert Ok(config, n, clients, k);
    }
  }

  lemma SubsetSize<T>(a: set<T>, b: set<T>)
    requires a <= b
    ensures |a| <= |b|
  {
    assert b == a + (b - a);
  }

  lemma WithoutKeeps(config: Config, n: nat, clients: Clients, key: Key)
    requires QueuesOk(config, n, clients) && Has(clients, key)
    ensures QueuesOk(config, n, Without(clients, key))
    ensures |Pending(Without(clients, key))| == |Pending(clients)| - 1
  {
    var fewer := Without(clients, key);
    ShrinkKeeps(config, n, clients, n, fewer);
    forall k: Key
      ensures Has(fewer, k) <==> Has(clients, k) && k != key
    {
    }
    PendingMeaning(clients);
    PendingMeaning(fewer);
    assert Pending(fewer) == Pending(clients) - {key};
  }

  lemma RetryKeeps(config: Config, s: Server, key: Key, now: int)
    requires Inv(config, s)
    ensures Inv(config, RetryOne(config, s, key, now))
  {
    RetryKeepsFlights(config, s, key, now);
    if Has(s.clients, key) && Due(config, s, key, now) {
      if Get(s.clients, key).attempts >= config.maxAttempts {
        WithoutKeeps(config, s.nextSequence, s.clients, key);
      } else if s.nextSequence + 1 < TWO_64 {
        RetransmitSucceeds(config, s, key, now);
        RetransmitKeeps(config, s, key, now);
      }
    }
  }

  function Again(s: Server, entry: Queued, now: int): Queued
    requires s.nextSequence + 1 < TWO_64
  {
    Queued(entry.message, entry.attempts + 1, now, entry.sent + {s.nextSequence + 1})
  }

  predicate Due(config: Config, s: Server, key: Key, now: int)
    requires Has(s.clients, key)
  {
    now - Get(s.clients, key).lastSentAt >= config.retryInterval
  }

  /** A due entry with attempts left is always sent again: the branch that drops an entry because it
      cannot be encoded any more is never taken. */
  lemma RetransmitSucceeds(config: Config, s: Server, key: Key, now: int)
    requires Inv(config, s) && Has(s.clients, key) && s.nextSequence + 1 < TWO_64
    requires Due(config, s, key, now) && Get(s.clients, key).attempts < config.maxAttempts
    ensures var client := s.clients[key.address];
      var again := Again(s, Get(s.clients, key), now);
      RetryOne(config, s, key, now)
      == s.(nextSequence := s.nextSequence + 1,
            clients := s.clients[key.address := client.(reliableOut := client.reliableOut[key.id := again])])
  {
    assert Ok(config, s.nextSequence, s.clients, key);
  }

  lemma RetransmitKeeps(config: Config, s: Server, key: Key, now: int)
    requires Inv(config, s) && Has(s.clients, key) && s.nextSequence + 1 < TWO_64
    requires Get(s.clients, key).attempts < config.maxAttempts
    ensures var client := s.clients[key.address];
      var again := Again(s, Get(s.clients, key), now);
      var clients' := s.clients[key.address := client.(reliableOut := client.reliableOut[key.id := again])];
      QueuesOk(config, s.nextSequence + 1, clients') && Pending(clients') == Pending(s.clients)
  {
    var client, entry := s.clients[key.address], Get(s.clients, key);
    var sequence := s.nextSequence + 1;
    assert Ok(config, s.nextSequence, s.clients, key);
    var again := Again(s, entry, now);
    assert client.reliableOut[key.id := again].Keys == client.reliableOut.Keys;
    forall k: Key | Has(s.clients, k) && k != key
      ensures Get(s.clients, k).sent !! again.sent
    {
      assert Ok(config, s.nextSequence, s.clients, k);
    }
    PutKeeps(config, s.nextSequence, s.clients, sequence, key, again, client.nextReliableId);
    PendingMeaning(s.clients);
    assert Pending(s.clients) + {key} == Pending(s.clients);
  }

  // ----- sends under way -----

  /** Sends under way are left alone while ids are not used up by others, and while sequences are booked
      only if they were before or are new. */
  lemma FlightsKeep(n: nat, clients: Clients, flights: set<Flight>, n': nat, clients': Clients)
    requires FlightsOk(n, clients, flights) && n <= n'
    requires forall f <- flights ::
      && f.address in clients' && f.message.deliveryId <= clients'[f.address].nextReliableId
      && f.message.deliveryId !in clients'[f.address].reliableOut
    requires forall q: u64 :: q <= n && IsBooked(clients', q) ==> IsBooked(clients, q)
    ensures FlightsOk(n', clients', flights)
  {
  }

  lemma ResendKeepsFlights(n: nat, clients: Clients, flights: set<Flight>, key: Key, entry: Queued)
    requires FlightsOk(n, clients, flights) && Has(clients, key)
    requires forall q: u64 :: q in entry.sent ==> q in Get(clients, key).sent || q > n
    ensures var client := clients[key.address];
      FlightsOk(n + 1, clients[key.address := client.(reliableOut := client.reliableOut[key.id := entry])], flights)
  {
    var client := clients[key.address];
    var clients' := clients[key.address := client.(reliableOut := client.reliableOut[key.id := entry])];
    forall q: u64 | q <= n && IsBooked(clients', q)
      ensures IsBooked(clients, q)
    {
      var k :| Has(clients', k) && q in Get(clients', k).sent;
      assert Has(clients, k) && q in Get(clients, k).sent;
    }
    forall f <- flights
      ensures f.address in clients' && clients'[f.address].nextReliableId == clients[f.address].nextReliableId
      ensures f.message.deliveryId !in clients'[f.address].reliableOut
    {
      assert FlightOk(n, clients, f);
    }
    FlightsKeep(n, clients, flights, n + 1, clients');
  }

  lemma RetryKeepsFlights(config: Config, s: Server, key: Key, now: int)
    requires Inv(config, s)
    ensures var t := RetryOne(config, s, key, now);
      FlightsOk(t.nextSequence, t.clients, s.flights)
  {
    if Has(s.clients, key) && Due(config, s, key, now) {
      if Get(s.clients, key).attempts >= config.maxAttempts {
        ShrinkKeepsFlights(s.nextSequence, s.clients, Without(s.clients, key), s.flights);
      } else if s.nextSequence + 1 < TWO_64 {
        RetransmitSucceeds(config, s, key, now);
        ResendKeepsFlights(s.nextSequence, s.clients, s.flights, key, Again(s, Get(s.clients, key), now));
      }
    }
  }

  lemma DrawKeeps(config: Config, s: Server)
    requires Inv(config, s)
    ensures Inv(config, Draw(s))
  {
    forall k: Key | Has(s.clients, k)
      ensures Ok(config, Draw(s).nextSequence, s.clients, k)
    {
      assert Ok(config, s.nextSequence, s.clients, k);
    }
  }

  lemma PrepareKeepsQueues(config: Config, s: Server, address: Str, nextId: nat)
    requires Inv(config, s) && address in s.clients && nextId == s.clients[address].nextReliableId + 1
    ensures var clients' := s.clients[address := s.clients[address].(nextReliableId := nextId)];
      && QueuesOk(config, s.nextSequence + 1, clients')
      && Pending(clients') == Pending(s.clients)
      && forall q: u64 :: IsBooked(clients', q) ==> IsBooked(s.clients, q)
  {
    var clients' := s.clients[address := s.clients[address].(nextReliableId := nextId)];
    forall k: Key
      ensures Has(clients', k) <==> Has(s.clients, k)
      ensures Has(s.clients, k) ==> Get(clients', k) == Get(s.clients, k) && Ok(config, s.nextSequence + 1, clients', k)
    {
      if Has(s.clients, k) {
        assert Ok(config, s.nextSequence, s.clients, k);
      }
    }
    PendingMeaning(s.clients);
    PendingMeaning(clients');
    forall q: u64 | IsBooked(clients', q)
      ensures IsBooked(s.clients, q)
    {
      var k :| Has(clients', k) && q in Get(clients', k).sent;
      assert Has(s.clients, k) && q in Get(s.clients, k).sent;
    }
  }

  /** The new id and sequence are larger than all before. */
  lemma NewFlightOk(config: Config, s: Server, address: Str, draft: WireMessage)
    requires Inv(config, s) && CanPrepare(s, address, draft)
    ensures var f := NewFlight(s, address, draft);
      && !IsBooked(s.clients, f.sequence) && f.message.deliveryId !in s.clients[address].reliableOut
      && forall g <- s.flights :: Apart(f, g) && Apart(g, f)
  {
    var f := NewFlight(s, address, draft);
    forall k: Key | Has(s.clients, k)
      ensures f.sequence !in Get(s.clients, k).sent && k != Key(address, f.message.deliveryId)
    {
      assert Ok(config, s.nextSequence, s.clients, k);
    }
    var id := f.message.deliveryId;
    assert id in s.clients[address].reliableOut ==> Has(s.clients, Key(address, id));
    forall g <- s.flights
      ensures Apart(f, g) && Apart(g, f)
    {
      assert FlightOk(s.nextSequence, s.clients, g);
    }
  }

  lemma PrepareKeeps(config: Config, s: Server, address: Str, draft: WireMessage)
    requires Inv(config, s)
    ensures Inv(config, Prepare(config, s, address, draft))
  {
    if CanPrepare(s, address, draft) && |s.clients[address].reliableOut| < config.queueLimit {
      var t, f := Prepare(config, s, address, draft), NewFlight(s, address, draft);
      PrepareKeepsQueues(config, s, address, f.message.deliveryId);
      NewFlightOk(config, s, address, draft);
      FlightsKeep(s.nextSequence, s.clients, s.flights, t.nextSequence, t.clients);
      assert FlightOk(t.nextSequence, t.clients, f);
    }
  }

  /** Queueing uses an id that no entry has, so it overwrites nothing, and a sequence booked nowhere. */
  lemma EnqueueKeepsQueues(config: Config, s: Server, flight: Flight, now: int)
    requires Inv(config, s) && flight in s.flights && config.maxAttempts >= 1
    requires |s.clients[flight.address].reliableOut| < config.queueLimit && Encodable(flight.message)
    ensures var t := Enqueue(s, flight, now);
      && flight.message.deliveryId !in s.clients[flight.address].reliableOut
      && QueuesOk(config, s.nextSequence, t.clients)
      && |Pending(t.clients)| == |Pending(s.clients)| + 1
  {
    assert FlightOk(s.nextSequence, s.clients, flight);
    var client := s.clients[flight.address];
    var key := Key(flight.address, flight.message.deliveryId);
    var entry := Queued(flight.message, 1, now, {flight.sequence});
    assert !Has(s.clients, key);
    forall k: Key | Has(s.clients, k)
      ensures k != key && Get(s.clients, k).sent !! entry.sent
    {
      assert flight.sequence !in Get(s.clients, k).sent;
    }
    assert client.reliableOut[key.id := entry].Keys == client.reliableOut.Keys + {key.id};
    PutKeeps(config, s.nextSequence, s.clients, s.nextSequence, key, entry, client.nextReliableId);
    PendingMeaning(s.clients);
    assert client.(nextReliableId := client.nextReliableId, reliableOut := client.reliableOut[key.id := entry])
        == client.(reliableOut := client.reliableOut[key.id := entry]);
  }

  lemma EnqueueKeepsFlights(config: Config, s: Server, flight: Flight, now: int)
    requires Inv(config, s) && flight in s.flights
    ensures FlightsOk(s.nextSequence, Enqueue(s, flight, now).clients, s.flights - {flight})
  {
    var clients' := Enqueue(s, flight, now).clients;
    assert FlightOk(s.nextSequence, s.clients, flight);
    forall f <- s.flights - {flight}
      ensures FlightOk(s.nextSequence, clients', f)
    {
      assert FlightOk(s.nextSequence, s.clients, f) && Apart(f, flight);
      forall k: Key | Has(clients', k)
        ensures f.sequence !in Get(clients', k).sent
      {
        if k != Key(flight.address, flight.message.deliveryId) {
          assert Has(s.clients, k) && Get(clients', k) == Get(s.clients, k);
        }
      }
    }
  }

  lemma SettleKeeps(config: Config, s: Server, flight: Flight, sendable: bool, now: int)
    requires Inv(config, s) && config.maxAttempts >= 1
    ensures Inv(config, Settle(config, s, flight, sendable, now))
  {
    if flight in s.flights && Encodes(s.clients[flight.address], flight) {
      var client := s.clients[flight.address];
      EncodedOnceEncodable(flight.message, flight.sequence, client.ack, client.ackBits);
      if |client.reliableOut| < config.queueLimit {
        EnqueueKeepsQueues(config, s, flight, now);
        EnqueueKeepsFlights(config, s, flight, now);
      }
    }
  }

  lemma UnackedHas(clients: Clients, address: Str, kept: map<u64, Queued>, k: Key)
    requires address in clients && kept.Keys <= clients[address].reliableOut.Keys
    ensures var fewer := clients[address := clients[address].(reliableOut := kept)];
      Has(fewer, k)
      <==> Has(clients, k) && !(k.address == address && k.id in clients[address].reliableOut.Keys - kept.Keys)
  {
  }

  /** One client's queue reduced to `kept`. */
  lemma ReducedKeeps(
    config: Config, n: nat, clients: Clients, flights: set<Flight>, address: Str, kept: map<u64, Queued>)
    requires QueuesOk(config, n, clients) && FlightsOk(n, clients, flights) && address in clients
    requires kept.Keys <= clients[address].reliableOut.Keys
    requires forall id <- kept :: kept[id] == clients[address].reliableOut[id]
    ensures var fewer := clients[address := clients[address].(reliableOut := kept)];
      && QueuesOk(config, n, fewer) && FlightsOk(n, fewer, flights)
      && |Pending(fewer)| == |Pending(clients)| - |clients[address].reliableOut.Keys - kept.Keys|
  {
    var fewer := clients[address := clients[address].(reliableOut := kept)];
    ShrinkKeeps(config, n, clients, n, fewer);
    ShrinkKeepsFlights(n, clients, fewer, flights);
    forall k: Key
      ensures Has(fewer, k)
         <==> Has(clients, k) && !(k.address == address && k.id in clients[address].reliableOut.Keys - kept.Keys)
    {
      UnackedHas(clients, address, kept, k);
    }
    PendingLoses(clients, fewer, address, clients[address].reliableOut.Keys - kept.Keys);
  }

  lemma RemoveAckedKeeps(config: Config, s: Server, address: Str, ack: u64, ackBits: u64)
    requires Inv(config, s)
    ensures Inv(config, RemoveAcked(s, address, ack, ackBits))
  {
    if address in s.clients {
      var kept := Unacked(s.clients[address].reliableOut, ack, ackBits);
      ReducedKeeps(config, s.nextSequence, s.clients, s.flights, address, kept);
    }
  }

  lemma ShrinkKeepsFlights(n: nat, clients: Clients, fewer: Clients, flights: set<Flight>)
    requires FlightsOk(n, clients, flights) && Shrinks(clients, fewer) && forall f <- flights :: f.address in fewer
    ensures FlightsOk(n, fewer, flights)
  {
    forall q: u64 | IsBooked(fewer, q)
      ensures IsBooked(clients, q)
    {
      var k :| Has(fewer, k) && q in Get(fewer, k).sent;
      assert Has(clients, k) && q in Get(clients, k).sent;
    }
    forall f <- flights
      ensures f.message.deliveryId <= fewer[f.address].nextReliableId
      ensures f.message.deliveryId !in fewer[f.address].reliableOut
    {
      assert FlightOk(n, clients, f);
    }
    FlightsKeep(n, clients, flights, n, fewer);
  }

  /** Losing the ids `gone` from one queue takes exactly that many keys away. */
  lemma PendingLoses(clients: Clients, fewer: Clients, address: Str, gone: set<u64>)
    requires address in clients && gone <= clients[address].reliableOut.Keys
    requires forall k: Key :: Has(fewer, k) <==> Has(clients, k) && !(k.address == address && k.id in gone)
    ensures |Pending(fewer)| == |Pending(clients)| - |gone|
  {
    var lost := set id | id in gone :: Key(address, id);
    KeysOf(address, gone);
    PendingMeaning(clients);
    PendingMeaning(fewer);
    assert Pending(fewer) == Pending(clients) - lost;
    assert lost <= Pending(clients);
  }

  lemma {:induction false} KeysOf(address: Str, ids: set<u64>)
    ensures |set id | id in ids :: Key(address, id)| == |ids|
  {
    if ids != {} {
      var id :| id in ids;
      KeysOf(address, ids - {id});
      assert (set i | i in ids :: Key(address, i)) == (set i | i in ids - {id} :: Key(address, i)) + {Key(address, id)};
    }
  }

  lemma TimeoutKeeps(config: Config, s: Server, address: Str)
    requires Inv(config, s)
    ensures Inv(config, Timeout(s, address))
  {
    if address in s.clients {
      var t := Timeout(s, address);
      ShrinkKeeps(config, s.nextSequence, s.clients, t.nextSequence, t.clients);
      PendingLoses(s.clients, t.clients, address, s.clients[address].reliableOut.Keys);
      assert FlightsOk(s.nextSequence, s.clients, t.flights);
      ShrinkKeepsFlights(s.nextSequence, s.clients, t.clients, t.flights);
    }
  }

  /** A new client, or new acknowledgement fields, leave all queues alone. */
  lemma SameQueueKeeps(config: Config, s: Server, address: Str, client: Client)
    requires Inv(config, s)
    requires if address in s.clients
             then client.reliableOut == s.clients[address].reliableOut
               && client.nextReliableId == s.clients[address].nextReliableId
             else client.reliableOut == map[] && client.nextReliableId == 0
    ensures Inv(config, s.(clients := s.clients[address := client]))
  {
    var clients' := s.clients[address := client];
    forall k: Key
      ensures Has(clients', k) <==> Has(s.clients, k)
      ensures Has(s.clients, k) ==> Get(clients', k) == Get(s.clients, k) && Ok(config, s.nextSequence, clients', k)
    {
      if Has(s.clients, k) {
        assert Ok(config, s.nextSequence, s.clients, k);
      }
    }
    PendingMeaning(s.clients);
    PendingMeaning(clients');
    assert Pending(s.clients) == Pending(clients');
    SameQueueKeepsFlights(config, s, address, client);
  }

  lemma SameQueueKeepsFlights(config: Config, s: Server, address: Str, client: Client)
    requires Inv(config, s)
    requires if address in s.clients
             then client.reliableOut == s.clients[address].reliableOut
               && client.nextReliableId == s.clients[address].nextReliableId
             else client.reliableOut == map[] && client.nextReliableId == 0
    ensures FlightsOk(s.nextSequence, s.clients[address := client], s.flights)
  {
    var clients' := s.clients[address := client];
    forall q: u64 | IsBooked(clients', q)
      ensures IsBooked(s.clients, q)
    {
      var k :| Has(clients', k) && q in Get(clients', k).sent;
      assert Has(s.clients, k) && q in Get(s.clients, k).sent;
    }
    forall f <- s.flights
      ensures f.address in clients' && f.message.deliveryId <= clients'[f.address].nextReliableId
      ensures f.message.deliveryId !in clients'[f.address].reliableOut
    {
      assert FlightOk(s.nextSequence, s.clients, f);
    }
    FlightsKeep(s.nextSequence, s.clients, s.flights, s.nextSequence, clients');
  }

  // ----- whole runs -----

  datatype Event =
    | Joins(address: Str)
    | Leaves(address: Str)
    | Hears(address: Str, ack: u64, ackBits: u64)
    | Draws                                                     // a snapshot, an unreliable response
    | Prepares(address: Str, draft: WireMessage)
    | Settles(flight: Flight, sendable: bool, now: int)
    | Acks(address: Str, ack: u64, ackBits: u64)
    | Retries(visits: seq<Key>, now: int)

  function Apply(config: Config, s: Server, event: Event): Server {
    match event
    case Joins(address) => NewClient(s, address)
    case Leaves(address) => Timeout(s, address)
    case Hears(address, ack, ackBits) => Heard(s, address, ack, ackBits)
    case Draws => Draw(s)
    case Prepares(address, draft) => Prepare(config, s, address, draft)
    case Settles(flight, sendable, now) => Settle(config, s, flight, sendable, now)
    case Acks(address, ack, ackBits) => RemoveAcked(s, address, ack, ackBits)
    case Retries(visits, now) => RetryAll(config, s, visits, now)
  }

  function Run(config: Config, events: seq<Event>): Server {
    if events == [] then INITIAL
    else Apply(config, Run(config, events[..|events| - 1]), events[|events| - 1])
  }

  lemma {:induction false} RetryAllKeeps(config: Config, s: Server, visits: seq<Key>, now: int)
    requires Inv(config, s)
    ensures Inv(config, RetryAll(config, s, visits, now))
  {
    if visits != [] {
      RetryAllKeeps(config, s, visits[..|visits| - 1], now);
      RetryKeeps(config, RetryAll(config, s, visits[..|visits| - 1], now), visits[|visits| - 1], now);
    }
  }

  /** The retry-queue invariant in every reachable state: queue sizes and attempts within their
      limits, attempts equal to the number of sequences booked, no sequence booked twice anywhere, ids
      never overwritten, re-encoding never failing, and
      queued = acknowledged + expired + discarded with a client + still pending. */
  lemma {:induction false} EveryRun(config: Config, events: seq<Event>)
    requires config.maxAttempts >= 1
    ensures Inv(config, Run(config, events))
  {
    if events == [] {
      assert Pending(map[]) == {};
    } else {
      EveryRun(config, events[..|events| - 1]);
      StepKeeps(config, Run(config, events[..|events| - 1]), events[|events| - 1]);
    }
  }

  lemma StepKeeps(config: Config, s: Server, event: Event)
    requires config.maxAttempts >= 1 && Inv(config, s)
    ensures Inv(config, Apply(config, s, event))
  {
    match event
    case Joins(address) =>
      if address !in s.clients {
        SameQueueKeeps(config, s, address, Client(0, 0, 0, map[]));
      }
    case Leaves(address) => TimeoutKeeps(config, s, address);
    case Hears(address, ack, ackBits) =>
      if address in s.clients {
        SameQueueKeeps(config, s, address, s.clients[address].(ack := ack, ackBits := ackBits));
      }
    case Draws => DrawKeeps(config, s);
    case Prepares(address, draft) => PrepareKeeps(config, s, address, draft);
    case Settles(flight, sendable, now) => SettleKeeps(config, s, flight, sendable, now);
    case Acks(address, ack, ackBits) => RemoveAckedKeeps(config, s, address, ack, ackBits);
    case Retries(visits, now) => RetryAllKeeps(config, s, visits, now);
  }

  // ----- what one retransmission pass does to each entry -----

  ghost predicate Distinct(visits: seq<Key>) {
    forall i, j :: 0 <= i < j < |visits| ==> visits[i] != visits[j]
  }

  lemma RetryOneElsewhere(config: Config, s: Server, key: Key, other: Key, now: int)
    requires key != other
    ensures var t := RetryOne(config, s, key, now);
      && (Has(t.clients, other) <==> Has(s.clients, other))
      && (Has(s.clients, other) ==> Get(t.clients, other) == Get(s.clients, other))
  {
  }

  lemma RetryOneCounts(config: Config, s: Server, key: Key, now: int)
    ensures s.nextSequence <= RetryOne(config, s, key, now).nextSequence <= s.nextSequence + 1
  {
  }

  /** What a pass does to an entry that it visits. */
  ghost predicate Visited(config: Config, t: Server, key: Key, entry: Queued, now: int, first: nat) {
    if now - entry.lastSentAt < config.retryInterval then Has(t.clients, key) && Get(t.clients, key) == entry
    else if entry.attempts >= config.maxAttempts then !Has(t.clients, key)
    else
      && Has(t.clients, key)
      && exists q: u64 :: first < q <= t.nextSequence
           && Get(t.clients, key) == Queued(entry.message, entry.attempts + 1, now, entry.sent + {q})
  }

  lemma VisitEffect(config: Config, s: Server, key: Key, now: int, first: nat)
    requires Inv(config, s) && Has(s.clients, key) && first <= s.nextSequence && s.nextSequence + 1 < TWO_64
    ensures Visited(config, RetryOne(config, s, key, now), key, Get(s.clients, key), now, first)
  {
    if Due(config, s, key, now) && Get(s.clients, key).attempts < config.maxAttempts {
      RetransmitSucceeds(config, s, key, now);
    }
  }

  /** After a pass in any order, an entry that was not visited is as it was; a visited one is as it was if it
      was not due, gone if it was due with no attempts left, and otherwise carries exactly one more attempt
      and one more, fresh, sequence. */
  lemma {:induction false} RetryAllEffect(config: Config, s: Server, visits: seq<Key>, now: int, key: Key)
    requires Inv(config, s) && Distinct(visits) && Has(s.clients, key)
    requires s.nextSequence + |visits| < TWO_64
    ensures var t := RetryAll(config, s, visits, now);
      && s.nextSequence <= t.nextSequence <= s.nextSequence + |visits|
      && if key in visits then Visited(config, t, key, Get(s.clients, key), now, s.nextSequence)
         else Has(t.clients, key) && Get(t.clients, key) == Get(s.clients, key)
  {
    if visits != [] {
      var earlier, last := visits[..|visits| - 1], visits[|visits| - 1];
      var before := RetryAll(config, s, earlier, now);
      RetryAllEffect(config, s, earlier, now, key);
      RetryAllKeeps(config, s, earlier, now);
      RetryOneCounts(config, before, last, now);
      assert visits == earlier + [last] && last !in earlier;
      if last == key {
        VisitEffect(config, before, key, now, s.nextSequence);
      } else {
        RetryOneElsewhere(config, before, last, key, now);
      }
    }
  }

  /** The first retry is due once the interval has passed since the message was queued, and not before. */
  lemma FirstRetry(config: Config, s: Server, flight: Flight, queuedAt: int, now: int)
    requires Inv(config, s) && flight in s.flights && Encodes(s.clients[flight.address], flight)
    requires |s.clients[flight.address].reliableOut| < config.queueLimit && config.maxAttempts >= 2
    requires s.nextSequence + 1 < TWO_64
    ensures var queued := Settle(config, s, flight, true, queuedAt);
      var packets := PacketOne(config, queued, Key(flight.address, flight.message.deliveryId), now);
      packets != [] <==> now >= queuedAt + config.retryInterval
  {
    assert FlightOk(s.nextSequence, s.clients, flight);
    SettleKeeps(config, s, flight, true, queuedAt);
    var queued, key := Settle(config, s, flight, true, queuedAt), Key(flight.address, flight.message.deliveryId);
    assert Get(queued.clients, key) == Queued(flight.message, 1, queuedAt, {flight.sequence});
    if now >= queuedAt + config.retryInterval {
      ResendCarries(config, queued, key, now);
    }
  }

  /** Visits of one entry, with whatever the map order puts between them left out. */
  function VisitsAt(config: Config, s: Server, key: Key, times: seq<int>): Server {
    if times == [] then s
    else RetryOne(config, VisitsAt(config, s, key, times[..|times| - 1]), key, times[|times| - 1])
  }

  function TimeBefore(first: int, times: seq<int>, i: nat): int
    requires i <= |times|
  {
    if i == 0 then first else times[i - 1]
  }

  ghost predicate Spaced(first: int, times: seq<int>, interval: int) {
    forall i :: 0 <= i < |times| ==> times[i] - TimeBefore(first, times, i) >= interval
  }

  lemma SpacedPrefix(first: int, times: seq<int>, interval: int)
    requires Spaced(first, times, interval) && times != []
    ensures var n := |times| - 1;
      && Spaced(first, times[..n], interval)
      && times[n] - TimeBefore(first, times[..n], n) >= interval
  {
    var earlier := times[..|times| - 1];
    assert forall i :: 0 <= i <= |earlier| ==> TimeBefore(first, earlier, i) == TimeBefore(first, times, i);
  }

  /** The entry has been sent `sent` times, last at `at`, or is gone since that was once too often. */
  ghost predicate Aged(config: Config, s: Server, key: Key, sent: nat, at: int) {
    && Inv(config, s) && (Has(s.clients, key) <==> sent <= config.maxAttempts)
    && (Has(s.clients, key) ==>
          Get(s.clients, key).attempts == sent == |Get(s.clients, key).sent| && Get(s.clients, key).lastSentAt == at)
  }

  /** An entry that is visited whenever it is due goes out until it has been sent `maxAttempts` times in all,
      under as many sequences, and is gone after the visit that follows. */
  lemma Lifetime(config: Config, s: Server, key: Key, times: seq<int>)
    requires Inv(config, s) && Has(s.clients, key) && s.nextSequence + |times| < TWO_64
    requires Spaced(Get(s.clients, key).lastSentAt, times, config.retryInterval)
    ensures var entry := Get(s.clients, key);
      Aged(config, VisitsAt(config, s, key, times), key, entry.attempts + |times|,
           TimeBefore(entry.lastSentAt, times, |times|))
  {
    assert Ok(config, s.nextSequence, s.clients, key);
    AgesOn(config, s, key, Get(s.clients, key).attempts, Get(s.clients, key).lastSentAt, times);
  }

  lemma {:induction false} AgesOn(config: Config, s: Server, key: Key, sent: nat, at: int, times: seq<int>)
    requires Aged(config, s, key, sent, at) && Spaced(at, times, config.retryInterval)
    requires s.nextSequence + |times| < TWO_64
    ensures VisitsAt(config, s, key, times).nextSequence <= s.nextSequence + |times|
    ensures Aged(config, VisitsAt(config, s, key, times), key, sent + |times|, TimeBefore(at, times, |times|))
  {
    if times != [] {
      var earlier, now := times[..|times| - 1], times[|times| - 1];
      SpacedPrefix(at, times, config.retryInterval);
      AgesOn(config, s, key, sent, at, earlier);
      var before := VisitsAt(config, s, key, earlier);
      RetryOneCounts(config, before, key, now);
      AnotherVisit(config, before, key, sent + |earlier|, TimeBefore(at, earlier, |earlier|), now);
    }
  }

  lemma AnotherVisit(config: Config, s: Server, key: Key, sent: nat, at: int, now: int)
    requires Aged(config, s, key, sent, at) && now - at >= config.retryInterval && s.nextSequence + 1 < TWO_64
    ensures Aged(config, RetryOne(config, s, key, now), key, sent + 1, now)
  {
    RetryKeeps(config, s, key, now);
    if Has(s.clients, key) {
      assert Ok(config, s.nextSequence, s.clients, key);
      if sent < config.maxAttempts {
        ResendAges(config, s, key, now);
      }
    }
  }

  lemma ResendAges(config: Config, s: Server, key: Key, now: int)
    requires Inv(config, s) && Has(s.clients, key) && s.nextSequence + 1 < TWO_64
    requires Due(config, s, key, now) && Get(s.clients, key).attempts < config.maxAttempts
    ensures var t, entry := RetryOne(config, s, key, now), Get(s.clients, key);
      && Has(t.clients, key)
      && Get(t.clients, key).attempts == entry.attempts + 1 == |Get(t.clients, key).sent|
      && Get(t.clients, key).lastSentAt == now
  {
    assert Ok(config, s.nextSequence, s.clients, key);
    RetransmitSucceeds(config, s, key, now);
    assert Get(RetryOne(config, s, key, now).clients, key) == Again(s, Get(s.clients, key), now);
  }

  /** An entry stays exactly while none of its sequences is acknowledged: none is the newest one heard of, and
      of those up to 64 below it none has its bit set. */
  lemma UnackedMeaning(out: map<u64, Queued>, ack: u64, ackBits: u64, id: u64)
    ensures id in Unacked(out, ack, ackBits) <==>
      id in out && forall q <- out[id].sent ::
        q == 0 || q > ack || (q < ack && (q + 64 < ack || !BitAt(ackBits, ack - 1 - q)))
    ensures id in Unacked(out, ack, ackBits) ==> Unacked(out, ack, ackBits)[id] == out[id]
  {
    if id in out {
      forall q <- out[id].sent
        ensures !AckWindow.PacketSequenceAcked(ack, ackBits, q) <==>
                q == 0 || q > ack || (q < ack && (q + 64 < ack || !BitAt(ackBits, ack - 1 - q)))
      {
      }
    }
  }

  /** A pass drops exactly what has expired. */
  lemma {:induction false} RetryDrops(config: Config, s: Server, visits: seq<Key>, now: int)
    requires Inv(config, s)
    ensures var c, d := s.counters, RetryAll(config, s, visits, now).counters;
      d == c.(drops := d.drops, expired := d.expired) && d.drops - c.drops == d.expired - c.expired
  {
    if visits != [] {
      var before := RetryAll(config, s, visits[..|visits| - 1], now);
      RetryDrops(config, s, visits[..|visits| - 1], now);
      RetryAllKeeps(config, s, visits[..|visits| - 1], now);
      RetryKeeps(config, before, visits[|visits| - 1], now);
    }
  }

  // ----- what the packets of a pass carry -----

  /** A pass from `start` that had made the visits `before` has made `visits` by now, writing `packets`. */
  ghost predicate Passed(
    config: Config, start: Server, before: seq<Key>, visits: seq<Key>, now: int, s: Server, packets: seq<seq<byte>>)
  {
    && s == RetryAll(config, start, visits, now)
    && AllPackets(config, start, visits, now) == AllPackets(config, start, before, now) + packets
  }

  lemma PassOneMore(
    config: Config, start: Server, before: seq<Key>, visits: seq<Key>, now: int, s: Server, packets: seq<seq<byte>>,
    key: Key)
    requires Passed(config, start, before, visits, now, s, packets)
    ensures Passed(config, start, before, visits + [key], now, RetryOne(config, s, key, now),
                   packets + PacketOne(config, s, key, now))
  {
    assert (visits + [key])[..|visits|] == visits;
  }

  /** `packet` is this entry's message under this sequence, with its client's acknowledgements, and the
      sequence is the one that the pass from `s` to `t` booked on the entry. */
  ghost predicate CarriesEntry(s: Server, t: Server, packet: seq<byte>, sequence: nat, key: Key, now: int) {
    && Has(s.clients, key) && Has(t.clients, key) && sequence < TWO_64
    && var client, entry := s.clients[key.address], Get(s.clients, key);
      && Get(t.clients, key) == Queued(entry.message, entry.attempts + 1, now, entry.sent + {sequence})
      && IsPacket(packet, sequence, client, entry.message)
  }

  /** These bytes are the packet with this one message under this sequence and the client's acknowledgements. */
  ghost predicate IsPacket(bytes: seq<byte>, sequence: nat, client: Client, message: WireMessage) {
    forall p: Packet | p.sequence == sequence && p.ack == client.ack && p.ackBits == client.ackBits
                       && p.messages == [message] ::
      EncodePacket(p) == Encoded(bytes)
  }

  /** Any reader that can carry the entry's message gets it back from the packet, with the sequence and the
      client's acknowledgements. */
  lemma CarriedIsRead(
    dialect: Dialect, s: Server, t: Server, packet: seq<byte>, sequence: nat, key: Key, now: int)
    requires CarriesEntry(s, t, packet, sequence, key, now)
    ensures var client, message := s.clients[key.address], Get(s.clients, key).message;
      DecodePacket(dialect, packet) == Parsed(Packet(sequence, client.ack, client.ackBits, [Received(message)]), [])
      <==> Carries(dialect, message, false)
  {
    var client, message := s.clients[key.address], Get(s.clients, key).message;
    assert EncodePacket(Packet(sequence, client.ack, client.ackBits, [message])) == Encoded(packet);
    SinglePacket(dialect, sequence, client.ack, client.ackBits, message);
  }

  lemma RetryOneKeepsAcks(config: Config, s: Server, key: Key, now: int, address: Str)
    requires address in s.clients
    ensures var t := RetryOne(config, s, key, now);
      && address in t.clients
      && t.clients[address].ack == s.clients[address].ack && t.clients[address].ackBits == s.clients[address].ackBits
  {
  }

  /** A pass leaves acknowledgements, and the entries it does not visit, as they were. */
  lemma {:induction false} RetryAllElsewhere(config: Config, s: Server, visits: seq<Key>, now: int, key: Key)
    requires Has(s.clients, key) && key !in visits
    ensures var t := RetryAll(config, s, visits, now);
      && Has(t.clients, key) && Get(t.clients, key) == Get(s.clients, key)
      && t.clients[key.address].ack == s.clients[key.address].ack
      && t.clients[key.address].ackBits == s.clients[key.address].ackBits
  {
    if visits != [] {
      var earlier, last := visits[..|visits| - 1], visits[|visits| - 1];
      RetryAllElsewhere(config, s, earlier, now, key);
      RetryOneElsewhere(config, RetryAll(config, s, earlier, now), last, key, now);
      RetryOneKeepsAcks(config, RetryAll(config, s, earlier, now), last, now, key.address);
    }
  }

  lemma {:induction false} RetryAllAdds(config: Config, s: Server, visits: seq<Key>, now: int, key: Key)
    requires Has(RetryAll(config, s, visits, now).clients, key)
    ensures Has(s.clients, key)
  {
    if visits != [] {
      RetryAllAdds(config, s, visits[..|visits| - 1], now, key);
    }
  }

  lemma ResendCarries(config: Config, s: Server, key: Key, now: int)
    requires Inv(config, s) && Has(s.clients, key) && s.nextSequence + 1 < TWO_64
    requires Due(config, s, key, now) && Get(s.clients, key).attempts < config.maxAttempts
    ensures var t, packets := RetryOne(config, s, key, now), PacketOne(config, s, key, now);
      && t.nextSequence == s.nextSequence + 1 && |packets| == 1
      && CarriesEntry(s, t, packets[0], t.nextSequence, key, now)
  {
    RetransmitSucceeds(config, s, key, now);
    assert Ok(config, s.nextSequence, s.clients, key);
  }

  lemma OneCarried(config: Config, s: Server, key: Key, now: int)
    requires Inv(config, s)
    ensures var t, packets := RetryOne(config, s, key, now), PacketOne(config, s, key, now);
      && s.nextSequence + |packets| == t.nextSequence && |packets| <= 1
      && (packets != [] ==> CarriesEntry(s, t, packets[0], t.nextSequence, key, now))
  {
    if Has(s.clients, key) && Due(config, s, key, now)
       && Get(s.clients, key).attempts < config.maxAttempts && s.nextSequence + 1 < TWO_64
    {
      ResendCarries(config, s, key, now);
    }
  }

  /** One packet for each sequence taken between `s` and `t`, in their order, each carrying a visited entry. */
  ghost predicate AllCarried(s: Server, t: Server, visits: seq<Key>, packets: seq<seq<byte>>, now: int) {
    && s.nextSequence + |packets| == t.nextSequence
    && forall i :: 0 <= i < |packets| ==> Carried(s, t, visits, packets[i], s.nextSequence + 1 + i, now)
  }

  ghost predicate Carried(s: Server, t: Server, visits: seq<Key>, packet: seq<byte>, sequence: nat, now: int) {
    exists key <- visits :: CarriesEntry(s, t, packet, sequence, key, now)
  }

  lemma CarriedLater(
    config: Config, s: Server, t: Server, earlier: seq<Key>, last: Key, packet: seq<byte>, sequence: nat, now: int)
    requires Carried(s, t, earlier, packet, sequence, now) && last !in earlier
    ensures Carried(s, RetryOne(config, t, last, now), earlier + [last], packet, sequence, now)
  {
    var key :| key in earlier && CarriesEntry(s, t, packet, sequence, key, now);
    RetryOneElsewhere(config, t, last, key, now);
    assert CarriesEntry(s, RetryOne(config, t, last, now), packet, sequence, key, now) && key in earlier + [last];
  }

  lemma CarriedNow(config: Config, s: Server, earlier: seq<Key>, last: Key, now: int)
    requires Inv(config, RetryAll(config, s, earlier, now)) && last !in earlier
    ensures var before := RetryAll(config, s, earlier, now);
      var t, more := RetryOne(config, before, last, now), PacketOne(config, before, last, now);
      && before.nextSequence + |more| == t.nextSequence && |more| <= 1
      && (more != [] ==> Carried(s, t, earlier + [last], more[0], t.nextSequence, now))
  {
    var before := RetryAll(config, s, earlier, now);
    OneCarried(config, before, last, now);
    if PacketOne(config, before, last, now) != [] {
      RetryAllAdds(config, s, earlier, now, last);
      RetryAllElsewhere(config, s, earlier, now, last);
      assert last in earlier + [last];
    }
  }

  /** The packets of a pass: there is one for each sequence taken, and it carries the entry on which that
      sequence was booked. */
  lemma {:induction false} PacketsCarryEntries(config: Config, s: Server, visits: seq<Key>, now: int)
    requires Inv(config, s) && Distinct(visits)
    ensures AllCarried(s, RetryAll(config, s, visits, now), visits, AllPackets(config, s, visits, now), now)
  {
    if visits != [] {
      var earlier, last := visits[..|visits| - 1], visits[|visits| - 1];
      assert visits == earlier + [last] && last !in earlier;
      PacketsCarryEntries(config, s, earlier, now);
      RetryAllKeeps(config, s, earlier, now);
      CarriedNow(config, s, earlier, last, now);
      forall packet, q: nat | Carried(s, RetryAll(config, s, earlier, now), earlier, packet, q, now)
        ensures Carried(s, RetryAll(config, s, visits, now), visits, packet, q, now)
      {
        CarriedLater(config, s, RetryAll(config, s, earlier, now), earlier, last, packet, q, now);
      }
      CarriedJoin(s, RetryAll(config, s, earlier, now), RetryAll(config, s, visits, now), earlier, last,
                  AllPackets(config, s, earlier, now),
                  PacketOne(config, RetryAll(config, s, earlier, now), last, now), now);
    }
  }

  lemma CarriedJoin(
    s: Server, before: Server, t: Server, earlier: seq<Key>, last: Key, packets: seq<seq<byte>>,
    more: seq<seq<byte>>, now: int)
    requires AllCarried(s, before, earlier, packets, now)
    requires before.nextSequence + |more| == t.nextSequence && |more| <= 1
    requires more != [] ==> Carried(s, t, earlier + [last], more[0], t.nextSequence, now)
    requires forall packet, q :: Carried(s, before, earlier, packet, q, now) ==>
      Carried(s, t, earlier + [last], packet, q, now)
    ensures AllCarried(s, t, earlier + [last], packets + more, now)
  {
    forall i | 0 <= i < |packets + more|
      ensures Carried(s, t, earlier + [last], (packets + more)[i], s.nextSequence + 1 + i, now)
    {
      if i < |packets| {
        assert Carried(s, before, earlier, packets[i], s.nextSequence + 1 + i, now);
      }
    }
  }

  ghost predicate EntrySent(s: Server, t: Server, packets: seq<seq<byte>>, key: Key, now: int) {
    exists i :: 0 <= i < |packets| && CarriesEntry(s, t, packets[i], s.nextSequence + 1 + i, key, now)
  }

  /** Conversely, every entry that is due and has attempts left has its packet among them. */
  lemma RetriedIsSent(config: Config, s: Server, visits: seq<Key>, now: int, key: Key)
    requires Inv(config, s) && Distinct(visits) && key in visits && Has(s.clients, key)
    requires s.nextSequence + |visits| < TWO_64
    requires now - Get(s.clients, key).lastSentAt >= config.retryInterval
    requires Get(s.clients, key).attempts < config.maxAttempts
    ensures EntrySent(s, RetryAll(config, s, visits, now), AllPackets(config, s, visits, now), key, now)
  {
    RetryAllEffect(config, s, visits, now, key);
    RetryAllKeeps(config, s, visits, now);
    PacketsCarryEntries(config, s, visits, now);
    FindPacket(config, s, RetryAll(config, s, visits, now), visits, AllPackets(config, s, visits, now), key, now);
  }

  lemma FindPacket(
    config: Config, s: Server, t: Server, visits: seq<Key>, packets: seq<seq<byte>>, key: Key, now: int)
    requires Inv(config, t) && AllCarried(s, t, visits, packets, now)
    requires Has(s.clients, key) && Visited(config, t, key, Get(s.clients, key), now, s.nextSequence)
    requires now - Get(s.clients, key).lastSentAt >= config.retryInterval
    requires Get(s.clients, key).attempts < config.maxAttempts
    ensures EntrySent(s, t, packets, key, now)
  {
    var q: u64 :| s.nextSequence < q <= t.nextSequence && q in Get(t.clients, key).sent;
    var i := q - s.nextSequence - 1;
    assert Carried(s, t, visits, packets[i], s.nextSequence + 1 + i, now);
    OwnPacket(config, s, t, visits, packets[i], q, key, now);
  }

  lemma OwnPacket(
    config: Config, s: Server, t: Server, visits: seq<Key>, packet: seq<byte>, sequence: u64, key: Key, now: int)
    requires Inv(config, t) && Has(t.clients, key) && sequence in Get(t.clients, key).sent
    requires Carried(s, t, visits, packet, sequence, now)
    ensures CarriesEntry(s, t, packet, sequence, key, now)
  {
    var other :| other in visits && CarriesEntry(s, t, packet, sequence, other, now);
    assert sequence in Get(t.clients, other).sent;
  }

  // ----- the code -----

  /** The sending fields of `UDPServer`; the sends under way live on the stacks of their callers. */
  class UdpServer {
    const config: Config
    var nextSequence: nat
    var clients: map<Str, Client>
    ghost var flights: set<Flight>
    var counters: Counters

    ghost function View(): Server
      reads this
    {
      Server(nextSequence, clients, flights, counters)
    }

    ghost predicate Valid()
      reads this
    {
      Inv(config, View())
    }

    constructor (config: Config)
      ensures this.config == config && View() == INITIAL && Valid()
    {
      this.config := config;
      nextSequence, clients, flights, counters := 0, map[], {}, Counters(0, 0, 0, 0, 0, 0);
      new;
      assert Pending(map[]) == {};
    }

    /** `prepareReliableMessage`: an unreliable message passes; a class the client does not support becomes
        unreliable; a full queue refuses; otherwise the next delivery id is taken. */
    method PrepareReliableMessage(address: Str, terms: Terms, draft: WireMessage)
      returns (prepared: bool, message: WireMessage)
      requires address in clients && clients[address].nextReliableId + 1 < TWO_64
      modifies this`clients, this`counters
      ensures !Reliable(draft.delivery) ==> prepared && message == draft && View() == old(View())
      ensures Reliable(draft.delivery) && !Supports(terms, draft.delivery) ==>
        prepared && message == draft.(delivery := 0, deliveryId := 0) && View() == old(View())
      ensures Reliable(draft.delivery) && Supports(terms, draft.delivery) ==>
        prepared == (|old(clients[address].reliableOut)| < config.queueLimit)
      ensures !prepared ==> View() == old(View()).(counters := old(counters).(drops := old(counters.drops) + 1))
      ensures prepared && Reliable(draft.delivery) && Supports(terms, draft.delivery) ==>
        && message == draft.(deliveryId := old(clients[address].nextReliableId) + 1)
        && View() == old(View()).(clients :=
             old(clients)[address := old(clients[address]).(nextReliableId := message.deliveryId)])
    {
      if !Reliable(draft.delivery) {
        return true, draft;
      }
      if !Supports(terms, draft.delivery) {
        return true, draft.(delivery := UNRELIABLE, deliveryId := 0);
      }
      var client := clients[address];
      if |client.reliableOut| >= config.queueLimit {
        counters := counters.(drops := counters.drops + 1);
        return false, draft;
      }
      clients := clients[address := client.(nextReliableId := client.nextReliableId + 1)];
      return true, draft.(deliveryId := client.nextReliableId + 1);
    }

    /** `queueReliableOutbound`: nothing to do for an unreliable message; a message without an id and a full
        queue are refused. */
    method QueueReliableOutbound(address: Str, message: WireMessage, sequence: u64, now: int) returns (ok: bool)
      requires address in clients
      modifies this`clients, this`counters
      ensures ok == (!Reliable(message.delivery)
                     || (message.deliveryId != 0 && |old(clients[address].reliableOut)| < config.queueLimit))
      ensures !Reliable(message.delivery) || message.deliveryId == 0 ==> View() == old(View())
      ensures ok && Reliable(message.delivery) ==>
        View() == Enqueue(old(View()), Flight(address, message, sequence), now)
      ensures !ok && message.deliveryId != 0 ==>
        View() == old(View()).(counters := old(counters).(drops := old(counters.drops) + 1))
    {
      if !Reliable(message.delivery) {
        return true;
      }
      if message.deliveryId == 0 {
        return false;
      }
      var client := clients[address];
      if |client.reliableOut| >= config.queueLimit {
        counters := counters.(drops := counters.drops + 1);
        return false;
      }
      clients := clients[address := client.(
        reliableOut := client.reliableOut[message.deliveryId := Queued(message, 1, now, {sequence})])];
      counters := counters.(queued := counters.queued + 1);
      return true;
    }

    /** The wire branch of `sendUDPResponse` up to the point where the sequence is taken. */
    method BeginSend(address: Str, terms: Terms, draft: WireMessage) returns (prepared: bool, flight: Flight)
      requires address in clients && HasRoom(View(), clients[address])
      modifies this
      ensures var reliable := Reliable(draft.delivery) && Supports(terms, draft.delivery);
        && prepared == (!reliable || |old(clients[address].reliableOut)| < config.queueLimit)
        && View() == (if reliable then Prepare(config, old(View()), address, draft) else Draw(old(View())))
        && (reliable && prepared ==> flight == NewFlight(old(View()), address, draft))
        && (!reliable ==> flight == Flight(address, Downgraded(draft), old(nextSequence) + 1))
    {
      flight := Flight(address, draft, 0);
      var message;
      prepared, message := PrepareReliableMessage(address, terms, draft);
      if !prepared {
        return;
      }
      nextSequence := nextSequence + 1;
      flight := Flight(address, message, nextSequence);
      if Reliable(message.delivery) {
        flights := flights + {flight};
      }
    }

    /** The rest of it, whenever it comes: encoding, the size check, the budget, the queue. A reliable
        message's packet goes out exactly when the message was queued. */
    method FinishSend(
      flight: Flight, clientMax: int, serverMax: int, budget: Budget.ClientBudget, enabled: bool, capacity: int,
      clock: real, now: int)
      returns (packets: seq<seq<byte>>)
      requires flight.address in clients && (Reliable(flight.message.delivery) ==> Valid() && flight in flights)
      modifies this, budget
      ensures var client, rate := old(clients[flight.address]), Budget.PerSecond(capacity);
        var bytes := PacketLength(client, flight);
        var fits := Encodes(client, flight) && Trimming.ValidLength(clientMax, serverMax, bytes);
        var sendable := fits && (!enabled || Budget.Grants(old(budget.Value()), rate, bytes, clock));
        && View() == (if Reliable(flight.message.delivery) then Settle(config, old(View()), flight, sendable, now)
                      else old(View()))
        && budget.Value() == (if fits && enabled then Budget.Reserve(old(budget.Value()), rate, bytes, clock)
                              else old(budget.Value()))
        && var sent := sendable && (Reliable(flight.message.delivery) ==> counters.queued > old(counters.queued));
        && packets == (if sent then [EncodePacket(Packet(flight.sequence, client.ack, client.ackBits,
                                                         [flight.message])).bytes]
                       else [])
        && forall dialect | sent && Carries(dialect, flight.message, false) ::
             DecodePacket(dialect, packets[0])
             == Parsed(Packet(flight.sequence, client.ack, client.ackBits, [Received(flight.message)]), [])
    {
      packets := [];
      var client := clients[flight.address];
      if Reliable(flight.message.delivery) {
        assert FlightOk(nextSequence, clients, flight);
        flights := flights - {flight};
      }
      var payload := EncodePacket(Packet(flight.sequence, client.ack, client.ackBits, [flight.message]));
      if payload.Refused? || !Trimming.ValidLength(clientMax, serverMax, |payload.bytes|) {
        return;
      }
      var granted := budget.ReserveOutboundBudget(enabled, capacity, |payload.bytes|, false, clock);
      if !granted {
        return;
      }
      var ok := QueueReliableOutbound(flight.address, flight.message, flight.sequence, now);
      if ok {
        packets := [payload.bytes];
        forall dialect {
          SinglePacket(dialect, flight.sequence, client.ack, client.ackBits, flight.message);
        }
      }
    }

    /** `removeAckedReliableLocked`: drops the entries of which some packet has been acknowledged. */
    method RemoveAckedReliable(address: Str, ack: u64, ackBits: u64)
      modifies this
      ensures View() == RemoveAcked(old(View()), address, ack, ackBits)
    {
      if address !in clients {
        return;
      }
      var client := clients[address];
      var kept, removals := KeepUnacked(client.reliableOut, ack, ackBits);
      clients := clients[address := client.(reliableOut := kept)];
      counters := counters.(ackRemovals := counters.ackRemovals + removals);
    }

    static method KeepUnacked(out: map<u64, Queued>, ack: u64, ackBits: u64)
      returns (kept: map<u64, Queued>, removals: nat)
      ensures kept == Unacked(out, ack, ackBits)
      ensures removals == |out.Keys - kept.Keys|
    {
      var ids := out.Keys;
      kept, removals := out, 0;
      while ids != {}
        invariant ids <= kept.Keys <= out.Keys
        invariant forall id <- kept :: kept[id] == out[id]
        invariant forall id <- out :: id in kept <==> id in ids || !AckedEntry(ack, ackBits, out[id])
        invariant removals == |out.Keys - kept.Keys|
        decreases |ids|
      {
        var id :| id in ids;
        ids := ids - {id};
        if exists q :: q in kept[id].sent && AckWindow.PacketSequenceAcked(ack, ackBits, q) {
          assert out.Keys - (kept - {id}).Keys == (out.Keys - kept.Keys) + {id};
          kept := kept - {id};
          removals := removals + 1;
        }
      }
    }

    /** `collectReliableRetransmits`: visits every queued entry of every client once, in the map's own
        order (`visits`), and returns the packets to write, one for each entry sent again. */
    method CollectReliableRetransmits(now: int) returns (packets: seq<seq<byte>>, ghost visits: seq<Key>)
      requires Valid()
      modifies this
      ensures Valid()
      ensures View() == RetryAll(config, old(View()), visits, now)
      ensures Distinct(visits) && forall k: Key :: k in visits <==> Has(old(clients), k)
      ensures packets == AllPackets(config, old(View()), visits, now)
      ensures AllCarried(old(View()), View(), visits, packets, now)
    {
      packets, visits := [], [];
      var addresses := clients.Keys;
      while addresses != {}
        invariant addresses <= old(clients).Keys
        invariant View() == RetryAll(config, old(View()), visits, now)
        invariant Distinct(visits)
        invariant forall k: Key :: k in visits <==> Has(old(clients), k) && k.address !in addresses
        invariant forall a <- addresses :: a in clients && clients[a] == old(clients)[a]
        invariant packets == AllPackets(config, old(View()), visits, now)
        decreases |addresses|
      {
        var address :| address in addresses;
        addresses := addresses - {address};
        var more;
        more, visits := RetransmitClient(address, now, old(View()), visits);
        packets := packets + more;
      }
      RetryAllKeeps(config, old(View()), visits, now);
      PacketsCarryEntries(config, old(View()), visits, now);
    }

    /** The inner loop: one client's entries, after the visits `before` of a pass from `start`. */
    method RetransmitClient(address: Str, now: int, ghost start: Server, ghost before: seq<Key>)
      returns (packets: seq<seq<byte>>, ghost visits: seq<Key>)
      requires address in clients && View() == RetryAll(config, start, before, now)
      requires Distinct(before) && forall k <- before :: k.address != address
      modifies this
      ensures Passed(config, start, before, visits, now, View(), packets) && Distinct(visits)
      ensures forall k: Key :: k in visits <==>
        k in before || (k.address == address && k.id in old(clients)[address].reliableOut)
      ensures forall a <- old(clients) :: a in clients && (a != address ==> clients[a] == old(clients)[a])
    {
      packets, visits := [], before;
      var ids := clients[address].reliableOut.Keys;
      while ids != {}
        invariant Passed(config, start, before, visits, now, View(), packets) && Distinct(visits)
        invariant ids <= old(clients)[address].reliableOut.Keys
        invariant forall k: Key :: k in visits <==>
          k in before || (k.address == address && k.id in old(clients)[address].reliableOut && k.id !in ids)
        invariant forall a <- old(clients) :: a in clients && (a != address ==> clients[a] == old(clients)[a])
        invariant address in clients && forall id <- ids :: id in clients[address].reliableOut
        decreases |ids|
      {
        var id :| id in ids;
        ids := ids - {id};
        PassOneMore(config, start, before, visits, now, View(), packets, Key(address, id));
        var more := VisitEntry(address, id, now);
        packets := packets + more;
        visits := visits + [Key(address, id)];
      }
    }

    /** One visit of the loop. */
    method VisitEntry(address: Str, id: u64, now: int) returns (packets: seq<seq<byte>>)
      requires address in clients && id in clients[address].reliableOut
      modifies this
      ensures View() == RetryOne(config, old(View()), Key(address, id), now)
      ensures packets == PacketOne(config, old(View()), Key(address, id), now)
      ensures forall a <- old(clients) :: a in clients && (a != address ==> clients[a] == old(clients)[a])
      ensures forall i <- old(clients)[address].reliableOut :: i != id ==> i in clients[address].reliableOut
    {
      packets := [];
      var client := clients[address];
      var queued := client.reliableOut[id];
      if now - queued.lastSentAt < config.retryInterval {
        return;
      }
      if queued.attempts >= config.maxAttempts {
        clients := clients[address := client.(reliableOut := client.reliableOut - {id})];
        counters := counters.(expired := counters.expired + 1, drops := counters.drops + 1);
        return;
      }
      if nextSequence + 1 >= TWO_64 {
        return;
      }
      nextSequence := nextSequence + 1;
      var payload := EncodePacket(Packet(nextSequence, client.ack, client.ackBits, [queued.message]));
      if payload.Refused? {
        clients := clients[address := client.(reliableOut := client.reliableOut - {id})];
        counters := counters.(refused := counters.refused + 1, drops := counters.drops + 1);
        return;
      }
      var again := Queued(queued.message, queued.attempts + 1, now, queued.sent + {nextSequence});
      clients := clients[address := client.(reliableOut := client.reliableOut[id := again])];
      packets := [payload.bytes];
    }
  }
}
