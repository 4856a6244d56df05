/** The tick-aligned input buffer of network/input_buffer.go: a bounded, stably sorted list per client with
    cumulative counters. Trimming white space and case folding are parameters. */
module InputBuffer {
  import opened Bits
  import opened Wire
  import opened Sorting
  import opened Wrappers

  /** `receivedAt` is `None` for Go's zero time. */
  datatype ClientInput = ClientInput(
    clientId: Str, sequence: u64, tick: u64, objectType: Str, objectId: Str, targetId: Str,
    payload: seq<byte>, receivedAt: Option<real>)

  datatype Config = Config(maxPast: u64, maxFuture: u64, limit: nat)

  /** `strings.TrimSpace` and `strings.EqualFold` */
  datatype Text = Text(trim: Str -> Str, equalFold: (Str, Str) -> bool)

  datatype Metrics = Metrics(buffered: nat, consumed: nat, staleRejected: nat, futureRejected: nat, dropped: nat)

  // ----- the sort order -----

  datatype Key = Key(tick: u64, sequence: u64, objectType: Str, objectId: Str, targetId: Str)

  function KeyOf(input: ClientInput): Key {
    Key(input.tick, input.sequence, input.objectType, input.objectId, input.targetId)
  }

  predicate KeyLess(a: Key, b: Key) {
    if a.tick != b.tick then a.tick < b.tick
    else if a.sequence != b.sequence then a.sequence < b.sequence
    else if a.objectType != b.objectType then StrLess(a.objectType, b.objectType)
    else if a.objectId != b.objectId then StrLess(a.objectId, b.objectId)
    else StrLess(a.targetId, b.targetId)
  }

  lemma KeyTotal()
    ensures StrictTotal(KeyLess)
  {
    StrTotal();
  }

  predicate Before(a: ClientInput, b: ClientInput) {
    KeyLess(KeyOf(a), KeyOf(b))
  }

  ghost predicate Ordered(inputs: seq<ClientInput>) {
    forall i, j :: 0 <= i < j < |inputs| ==> !Before(inputs[j], inputs[i])
  }

  /** The inputs with this key, in their order. */
  ghost function WithKey(inputs: seq<ClientInput>, key: Key): seq<ClientInput> {
    if inputs == [] then []
    else (if KeyOf(inputs[0]) == key then [inputs[0]] else []) + WithKey(inputs[1..], key)
  }

  /** What a stable sort promises: ordered, and inputs with equal keys as they came. */
  ghost predicate IsStableSort(inputs: seq<ClientInput>, sorted: seq<ClientInput>) {
    Ordered(sorted) && forall key :: WithKey(sorted, key) == WithKey(inputs, key)
  }

  function Insert(sorted: seq<ClientInput>, input: ClientInput): (r: seq<ClientInput>)
    ensures |r| == |sorted| + 1 && multiset(r) == multiset(sorted) + multiset{input}
  {
    if sorted == [] || Before(input, sorted[0]) then [input] + sorted
    else
      assert sorted == [sorted[0]] + sorted[1..];
      [sorted[0]] + Insert(sorted[1..], input)
  }

  /** `sort.SliceStable` with `Before`; `StableSortMeaning` says that this is what it does. */
  function StableSort(inputs: seq<ClientInput>): (r: seq<ClientInput>)
    ensures |r| == |inputs| && multiset(r) == multiset(inputs)
  {
    if inputs == [] then []
    else
      var n := |inputs| - 1;
      assert inputs == inputs[..n] + [inputs[n]];
      Insert(StableSort(inputs[..n]), inputs[n])
  }

  /** What comes before the first comes before all, and its key is none of theirs. */
  lemma BeforeAll(sorted: seq<ClientInput>, input: ClientInput)
    requires Ordered(sorted) && sorted != [] && Before(input, sorted[0])
    ensures forall i | 0 <= i < |sorted| :: Before(input, sorted[i]) && KeyOf(sorted[i]) != KeyOf(input)
  {
    KeyTotal();
  }

  lemma {:induction false} InsertOrdered(sorted: seq<ClientInput>, input: ClientInput)
    requires Ordered(sorted)
    ensures Ordered(Insert(sorted, input))
  {
    if sorted == [] || Before(input, sorted[0]) {
      if sorted != [] {
        BeforeAll(sorted, input);
      }
      forall j | 0 < j < |sorted| + 1
        ensures !Before(([input] + sorted)[j], input)
      {
        KeyTotal();
      }
    } else {
      var rest := Insert(sorted[1..], input);
      InsertOrdered(sorted[1..], input);
      forall j | 0 <= j < |rest|
        ensures !Before(rest[j], sorted[0])
      {
        assert rest[j] in multiset(rest);
        assert rest[j] == input || rest[j] in sorted[1..];
      }
    }
  }

  lemma {:induction false} NoneWithKey(inputs: seq<ClientInput>, key: Key)
    requires forall i | 0 <= i < |inputs| :: KeyOf(inputs[i]) != key
    ensures WithKey(inputs, key) == []
  {
    if inputs != [] {
      assert KeyOf(inputs[0]) != key;
      NoneWithKey(inputs[1..], key);
    }
  }

  /** `WithKey` on a list of one. */
  ghost function Alone(input: ClientInput, key: Key): seq<ClientInput> {
    if KeyOf(input) == key then [input] else []
  }

  lemma ConsWithKey(input: ClientInput, rest: seq<ClientInput>, key: Key)
    ensures WithKey([input] + rest, key) == Alone(input, key) + WithKey(rest, key)
  {
    assert ([input] + rest)[1..] == rest;
  }

  lemma Assoc(a: seq<ClientInput>, b: seq<ClientInput>, c: seq<ClientInput>)
    ensures a + b + c == a + (b + c)
  {
  }

  lemma {:induction false} InsertWithKey(sorted: seq<ClientInput>, input: ClientInput, key: Key)
    requires Ordered(sorted)
    ensures WithKey(Insert(sorted, input), key) == WithKey(sorted, key) + Alone(input, key)
  {
    if sorted == [] || Before(input, sorted[0]) {
      ConsWithKey(input, sorted, key);
      InsertFirst(sorted, input, key);
    } else {
      var rest := sorted[1..];
      InsertWithKey(rest, input, key);
      ConsWithKey(sorted[0], Insert(rest, input), key);
      ConsWithKey(sorted[0], rest, key);
      assert sorted == [sorted[0]] + rest;
      Assoc(Alone(sorted[0], key), WithKey(rest, key), Alone(input, key));
    }
  }

  /** What comes before all has a key that none of them has. */
  lemma InsertFirst(sorted: seq<ClientInput>, input: ClientInput, key: Key)
    requires Ordered(sorted) && (sorted == [] || Before(input, sorted[0]))
    ensures Alone(input, key) + WithKey(sorted, key) == WithKey(sorted, key) + Alone(input, key)
  {
    if KeyOf(input) == key && sorted != [] {
      BeforeAll(sorted, input);
      NoneWithKey(sorted, key);
    }
  }

  lemma {:induction false} SnocWithKey(inputs: seq<ClientInput>, input: ClientInput, key: Key)
    ensures WithKey(inputs + [input], key) == WithKey(inputs, key) + Alone(input, key)
  {
    if inputs == [] {
      assert [] + [input] == [input] + [];
      ConsWithKey(input, [], key);
    } else {
      SnocWithKey(inputs[1..], input, key);
      ConsWithKey(inputs[0], inputs[1..] + [input], key);
      ConsWithKey(inputs[0], inputs[1..], key);
      assert inputs + [input] == [inputs[0]] + (inputs[1..] + [input]);
      assert inputs == [inputs[0]] + inputs[1..];
      Assoc(Alone(inputs[0], key), WithKey(inputs[1..], key), Alone(input, key));
    }
  }

  lemma {:induction false} StableSortMeaning(inputs: seq<ClientInput>)
    ensures IsStableSort(inputs, StableSort(inputs))
  {
    if inputs != [] {
      var n := |inputs| - 1;
      StableSortMeaning(inputs[..n]);
      InsertOrdered(StableSort(inputs[..n]), inputs[n]);
      assert inputs == inputs[..n] + [inputs[n]];
      forall key
        ensures WithKey(StableSort(inputs), key) == WithKey(inputs, key)
      {
        InsertWithKey(StableSort(inputs[..n]), inputs[n], key);
        SnocWithKey(inputs[..n], inputs[n], key);
      }
    }
  }

  /** The promise of a stable sort leaves no choice. */
  lemma {:induction false} StableSortUnique(a: seq<ClientInput>, b: seq<ClientInput>)
    requires Ordered(a) && Ordered(b) && forall key :: WithKey(a, key) == WithKey(b, key)
    ensures a == b
  {
    if b != [] {
      HeadIsLeast(b, a);
    }
    if a != [] {
      var key := KeyOf(a[0]);
      assert WithKey(a, key) == WithKey(b, key);
      HeadIsLeast(a, b);
      assert a[0] == WithKey(a, key)[0] == WithKey(b, key)[0] == b[0];
      forall k
        ensures WithKey(a[1..], k) == WithKey(b[1..], k)
      {
        var head := if key == k then [a[0]] else [];
        assert WithKey(a[1..], k) == WithKey(a, k)[|head|..];
        assert WithKey(b[1..], k) == WithKey(b, k)[|head|..];
      }
      StableSortUnique(a[1..], b[1..]);
    }
  }

  lemma {:induction false} HasKey(inputs: seq<ClientInput>, key: Key)
    requires WithKey(inputs, key) != []
    ensures exists i | 0 <= i < |inputs| :: KeyOf(inputs[i]) == key
  {
    if KeyOf(inputs[0]) != key {
      HasKey(inputs[1..], key);
    }
  }

  /** A key that occurs in an ordered list does not come before its head's. */
  lemma HeadBeforeAll(sorted: seq<ClientInput>, key: Key)
    requires Ordered(sorted) && sorted != [] && WithKey(sorted, key) != []
    ensures !KeyLess(key, KeyOf(sorted[0]))
  {
    HasKey(sorted, key);
    var i :| 0 <= i < |sorted| && KeyOf(sorted[i]) == key;
    if i == 0 {
      KeyIrreflexive(key);
    } else {
      assert !Before(sorted[i], sorted[0]);
    }
  }

  lemma KeyIrreflexive(key: Key)
    ensures !KeyLess(key, key)
  {
    StrConnected(key.targetId, key.targetId);
  }

  lemma KeyConnected(a: Key, b: Key)
    ensures a == b || KeyLess(a, b) || KeyLess(b, a)
  {
    StrConnected(a.objectType, b.objectType);
    StrConnected(a.objectId, b.objectId);
    StrConnected(a.targetId, b.targetId);
  }

  lemma HeadIsLeast(a: seq<ClientInput>, b: seq<ClientInput>)
    requires Ordered(a) && Ordered(b) && a != [] && forall key :: WithKey(a, key) == WithKey(b, key)
    ensures b != [] && KeyOf(a[0]) == KeyOf(b[0])
  {
    assert WithKey(b, KeyOf(a[0])) == WithKey(a, KeyOf(a[0])) != [];
    HeadBeforeAll(b, KeyOf(a[0]));
    assert WithKey(a, KeyOf(b[0])) == WithKey(b, KeyOf(b[0])) != [];
    HeadBeforeAll(a, KeyOf(b[0]));
    KeyConnected(KeyOf(a[0]), KeyOf(b[0]));
  }

  lemma SortedAlready(inputs: seq<ClientInput>)
    requires Ordered(inputs)
    ensures StableSort(inputs) == inputs
  {
    StableSortMeaning(inputs);
    StableSortUnique(inputs, StableSort(inputs));
  }

  /** The order that sorting gives: by tick, then by sequence, then by type, id and target as strings. */
  lemma SortOrder(inputs: seq<ClientInput>, i: nat, j: nat)
    requires i < j < |inputs|
    ensures var a, b := StableSort(inputs)[i], StableSort(inputs)[j];
      && a.tick <= b.tick
      && (a.tick == b.tick ==> a.sequence <= b.sequence)
      && (a.tick == b.tick && a.sequence == b.sequence ==>
            || StrLess(a.objectType, b.objectType)
            || (a.objectType == b.objectType && StrLess(a.objectId, b.objectId))
            || (a.objectType == b.objectType && a.objectId == b.objectId && !StrLess(b.targetId, a.targetId)))
  {
    StableSortMeaning(inputs);
    var a, b := StableSort(inputs)[i], StableSort(inputs)[j];
    assert !Before(b, a);
    StrConnected(a.objectType, b.objectType);
    StrConnected(a.objectId, b.objectId);
  }

  // ----- bounding -----

  /** The last `limit` of them. */
  function Newest(inputs: seq<ClientInput>, limit: nat): seq<ClientInput> {
    if |inputs| <= limit then inputs else inputs[|inputs| - limit..]
  }

  function Surplus(inputs: seq<ClientInput>, limit: nat): seq<ClientInput> {
    if |inputs| <= limit then [] else inputs[..|inputs| - limit]
  }

  lemma SplitNewest(inputs: seq<ClientInput>, limit: nat)
    ensures inputs == Surplus(inputs, limit) + Newest(inputs, limit)
  {
  }

  lemma NewestOfTail(input: ClientInput, rest: seq<ClientInput>, limit: nat)
    requires limit <= |rest|
    ensures Newest([input] + rest, limit) == Newest(rest, limit)
  {
  }

  /** Forgetting the surplus before an insertion changes nothing after it. */
  lemma {:induction false} ForgetSurplus(sorted: seq<ClientInput>, input: ClientInput, limit: nat)
    requires Ordered(sorted)
    ensures Newest(Insert(Newest(sorted, limit), input), limit) == Newest(Insert(sorted, input), limit)
  {
    if |sorted| > limit {
      var rest := sorted[1..];
      assert sorted == [sorted[0]] + rest;
      NewestOfTail(sorted[0], rest, limit);
      if Before(input, sorted[0]) {
        BeforeAll(sorted, input);
        NewestOfTail(input, sorted, limit);
        NewestOfTail(input, Newest(sorted, limit), limit);
      } else {
        ForgetSurplus(rest, input, limit);
        NewestOfTail(sorted[0], Insert(rest, input), limit);
      }
    }
  }

  // ----- the operations on values -----

  datatype Verdict = Accepted(input: ClientInput) | MissingId | Stale | Future

  function Normalised(text: Text, input: ClientInput, currentTick: u64, now: real): ClientInput {
    input.(
      clientId := text.trim(input.clientId),
      tick := if input.tick == 0 then currentTick else input.tick,
      receivedAt := if input.receivedAt.None? then Some(now) else input.receivedAt,
      objectType := text.trim(input.objectType),
      objectId := text.trim(input.objectId),
      targetId := text.trim(input.targetId))
  }

  /** The future bound is a uint64 sum, which wraps around. */
  function Judge(text: Text, config: Config, input: ClientInput, currentTick: u64, now: real): Verdict {
    var it := Normalised(text, input, currentTick, now);
    if it.clientId == [] then MissingId
    else if it.tick < currentTick && currentTick - it.tick > config.maxPast then Stale
    else if it.tick > (currentTick + config.maxFuture) % TWO_64 then Future
    else Accepted(it)
  }

  type Buffers = map<Str, seq<ClientInput>>

  function Held(buffers: Buffers, client: Str): seq<ClientInput> {
    if client in buffers then buffers[client] else []
  }

  function Filter(inputs: seq<ClientInput>, wanted: ClientInput -> bool): seq<ClientInput> {
    if inputs == [] then []
    else
      var n := |inputs| - 1;
      Filter(inputs[..n], wanted) + if wanted(inputs[n]) then [inputs[n]] else []
  }

  function Except(wanted: ClientInput -> bool): ClientInput -> bool {
    input => !wanted(input)
  }

  function AtTick(tick: u64): ClientInput -> bool {
    (input: ClientInput) => input.tick == tick
  }

  /** An empty type or id asks for any. */
  predicate ForObject(text: Text, input: ClientInput, objectType: Str, objectId: Str) {
    && (objectType == [] || text.equalFold(input.objectType, objectType))
    && (objectId == [] || input.objectId == objectId || input.targetId == objectId)
  }

  function AtTickForObject(text: Text, tick: u64, objectType: Str, objectId: Str): ClientInput -> bool {
    (input: ClientInput) => input.tick == tick && ForObject(text, input, objectType, objectId)
  }

  /** The content of an `inputBuffer`. */
  datatype State = State(buffers: Buffers, metrics: Metrics)

  const EMPTY: State := State(map[], Metrics(0, 0, 0, 0, 0))

  function Added(state: State, config: Config, input: ClientInput): State {
    var sorted := StableSort(Held(state.buffers, input.clientId) + [input]);
    State(
      state.buffers[input.clientId := Newest(sorted, config.limit)],
      state.metrics.(
        dropped := state.metrics.dropped + |Surplus(sorted, config.limit)|,
        buffered := state.metrics.buffered + 1))
  }

  function Add(state: State, config: Config, verdict: Verdict): State {
    match verdict
    case MissingId => state
    case Stale => state.(metrics := state.metrics.(staleRejected := state.metrics.staleRejected + 1))
    case Future => state.(metrics := state.metrics.(futureRejected := state.metrics.futureRejected + 1))
    case Accepted(input) => Added(state, config, input)
  }

  function Put(buffers: Buffers, client: Str, inputs: seq<ClientInput>): Buffers {
    if inputs == [] then buffers - {client} else buffers[client := inputs]
  }

  function Taken(state: State, client: Str, wanted: ClientInput -> bool): seq<ClientInput> {
    if client == [] then [] else Filter(Held(state.buffers, client), wanted)
  }

  function Take(state: State, client: Str, wanted: ClientInput -> bool): State {
    if client == [] || Held(state.buffers, client) == [] then state
    else
      State(
        Put(state.buffers, client, Filter(Held(state.buffers, client), Except(wanted))),
        state.metrics.(consumed := state.metrics.consumed + |Taken(state, client, wanted)|))
  }

  // ----- the bounded buffer is a batch sort -----

  datatype Arrival = Arrival(input: ClientInput, currentTick: u64, now: real)

  function AddAll(text: Text, config: Config, arrivals: seq<Arrival>): State {
    if arrivals == [] then EMPTY
    else
      var n := |arrivals| - 1;
      Add(AddAll(text, config, arrivals[..n]), config, VerdictOn(text, config, arrivals[n]))
  }

  function VerdictOn(text: Text, config: Config, arrival: Arrival): Verdict {
    Judge(text, config, arrival.input, arrival.currentTick, arrival.now)
  }

  /** The accepted inputs of one client, as they came. */
  function AcceptedFor(text: Text, config: Config, arrivals: seq<Arrival>, client: Str): seq<ClientInput> {
    if arrivals == [] then []
    else
      var n := |arrivals| - 1;
      var verdict := VerdictOn(text, config, arrivals[n]);
      AcceptedFor(text, config, arrivals[..n], client)
      + if verdict.Accepted? && verdict.input.clientId == client then [verdict.input] else []
  }

  lemma SortedAppend(sorted: seq<ClientInput>, input: ClientInput)
    requires Ordered(sorted)
    ensures StableSort(sorted + [input]) == Insert(sorted, input)
  {
    SortedAlready(sorted);
    assert (sorted + [input])[..|sorted|] == sorted;
  }

  lemma NewestOrdered(sorted: seq<ClientInput>, limit: nat)
    requires Ordered(sorted)
    ensures Ordered(Newest(sorted, limit))
  {
  }

  lemma HeldAfterAdd(state: State, config: Config, verdict: Verdict, client: Str)
    ensures Held(Add(state, config, verdict).buffers, client)
         == if verdict.Accepted? && verdict.input.clientId == client
            then Newest(StableSort(Held(state.buffers, client) + [verdict.input]), config.limit)
            else Held(state.buffers, client)
  {
  }

  /** Sorting and truncating after every arrival comes to the same as sorting all that was ever accepted
      and truncating once. */
  lemma {:induction false} BufferIsBatchSort(text: Text, config: Config, arrivals: seq<Arrival>, client: Str)
    ensures Held(AddAll(text, config, arrivals).buffers, client)
         == Newest(StableSort(AcceptedFor(text, config, arrivals, client)), config.limit)
  {
    if arrivals != [] {
      var n := |arrivals| - 1;
      BufferIsBatchSort(text, config, arrivals[..n], client);
      var before, verdict := AddAll(text, config, arrivals[..n]), VerdictOn(text, config, arrivals[n]);
      var accepted := AcceptedFor(text, config, arrivals[..n], client);
      HeldAfterAdd(before, config, verdict, client);
      if verdict.Accepted? && verdict.input.clientId == client {
        OneMore(accepted, verdict.input, config.limit);
      } else {
        assert AcceptedFor(text, config, arrivals, client) == accepted;
      }
    }
  }

  lemma OneMore(accepted: seq<ClientInput>, input: ClientInput, limit: nat)
    ensures Newest(StableSort(Newest(StableSort(accepted), limit) + [input]), limit)
         == Newest(StableSort(accepted + [input]), limit)
  {
    var sorted := StableSort(accepted);
    StableSortMeaning(accepted);
    NewestOrdered(sorted, limit);
    SortedAppend(Newest(sorted, limit), input);
    ForgetSurplus(sorted, input, limit);
    assert (accepted + [input])[..|accepted|] == accepted;
  }

  // ----- arrival order -----

  lemma {:induction false} WithKeyCopies(inputs: seq<ClientInput>, x: ClientInput)
    requires forall y <- inputs :: KeyOf(y) == KeyOf(x) ==> y == x
    ensures |WithKey(inputs, KeyOf(x))| == multiset(inputs)[x]
    ensures forall y <- WithKey(inputs, KeyOf(x)) :: y == x
  {
    if inputs != [] {
      WithKeyCopies(inputs[1..], x);
      assert inputs == [inputs[0]] + inputs[1..];
    }
  }

  lemma SameWithKey(a: seq<ClientInput>, b: seq<ClientInput>, key: Key)
    requires multiset(a) == multiset(b)
    requires forall x <- a, y <- a :: KeyOf(x) == KeyOf(y) ==> x == y
    ensures WithKey(a, key) == WithKey(b, key)
  {
    assert forall x :: x in a <==> x in multiset(a);
    assert forall x :: x in b <==> x in multiset(b);
    if x :| x in a && KeyOf(x) == key {
      WithKeyCopies(a, x);
      WithKeyCopies(b, x);
      AllCopies(WithKey(a, key), WithKey(b, key), x);
    } else {
      NoneWithKey(a, key);
      NoneWithKey(b, key);
    }
  }

  lemma AllCopies(p: seq<ClientInput>, q: seq<ClientInput>, x: ClientInput)
    requires |p| == |q| && (forall y <- p :: y == x) && forall y <- q :: y == x
    ensures p == q
  {
    assert forall i | 0 <= i < |p| :: p[i] in p && q[i] in q;
  }

  lemma SameKeysSameSort(a: seq<ClientInput>, b: seq<ClientInput>)
    requires multiset(a) == multiset(b)
    requires forall x <- a, y <- a :: KeyOf(x) == KeyOf(y) ==> x == y
    ensures StableSort(a) == StableSort(b)
  {
    StableSortMeaning(a);
    StableSortMeaning(b);
    forall key
      ensures WithKey(StableSort(a), key) == WithKey(StableSort(b), key)
    {
      SameWithKey(a, b, key);
    }
    StableSortUnique(StableSort(a), StableSort(b));
  }

  /** As long as one key means one input, the network may reorder a client's inputs at will: the buffer
      comes out the same, even when it overflowed on the way. */
  lemma ArrivalOrderIrrelevant(text: Text, config: Config, a: seq<Arrival>, b: seq<Arrival>, client: Str)
    requires multiset(AcceptedFor(text, config, a, client)) == multiset(AcceptedFor(text, config, b, client))
    requires forall x <- AcceptedFor(text, config, a, client), y <- AcceptedFor(text, config, a, client) ::
      KeyOf(x) == KeyOf(y) ==> x == y
    ensures Held(AddAll(text, config, a).buffers, client) == Held(AddAll(text, config, b).buffers, client)
  {
    BufferIsBatchSort(text, config, a, client);
    BufferIsBatchSort(text, config, b, client);
    SameKeysSameSort(AcceptedFor(text, config, a, client), AcceptedFor(text, config, b, client));
  }

  // ----- the tick window -----

  predicate InWindow(config: Config, tick: u64, currentTick: u64) {
    currentTick - config.maxPast <= tick <= currentTick + config.maxFuture
  }

  /** The configured window is what the code enforces as long as its upper end does not wrap around. */
  lemma WindowExact(text: Text, config: Config, input: ClientInput, currentTick: u64, now: real)
    requires text.trim(input.clientId) != [] && currentTick + config.maxFuture < TWO_64
    ensures Judge(text, config, input, currentTick, now).Accepted?
       <==> InWindow(config, Normalised(text, input, currentTick, now).tick, currentTick)
  {
  }

  /** Once it wraps, even an input for the current tick is refused as too far ahead. */
  lemma CurrentTickAccepted(text: Text, config: Config, input: ClientInput, currentTick: u64, now: real)
    requires text.trim(input.clientId) != [] && Normalised(text, input, currentTick, now).tick == currentTick
    ensures Judge(text, config, input, currentTick, now).Accepted? <==> currentTick + config.maxFuture < TWO_64
  {
    var sum := currentTick + config.maxFuture;
    if sum >= TWO_64 {
      assert sum % TWO_64 == sum - TWO_64;
    }
  }

  /** What happens to an arriving input, in the terms of its own fields: refused without a client, refused as
      stale more than `maxPast` ticks behind, refused as future beyond the sum that wraps around, and accepted
      otherwise, with its tick and time filled in and its names trimmed. */
  lemma VerdictMeaning(text: Text, config: Config, input: ClientInput, currentTick: u64, now: real)
    ensures var verdict := Judge(text, config, input, currentTick, now);
      var client, tick := text.trim(input.clientId), if input.tick == 0 then currentTick else input.tick;
      var last := if currentTick + config.maxFuture < 0x1_0000_0000_0000_0000 then currentTick + config.maxFuture
                  else currentTick + config.maxFuture - 0x1_0000_0000_0000_0000;
      && (verdict.MissingId? <==> client == [])
      && (verdict.Stale? <==> client != [] && tick + config.maxPast < currentTick)
      && (verdict.Future? <==> client != [] && tick + config.maxPast >= currentTick && tick > last)
      && (verdict.Accepted? ==>
            verdict.input == ClientInput(
              client, input.sequence, tick, text.trim(input.objectType), text.trim(input.objectId),
              text.trim(input.targetId), input.payload,
              if input.receivedAt.Some? then input.receivedAt else Some(now)))
  {
    var sum := currentTick + config.maxFuture;
    if sum >= TWO_64 {
      assert sum % TWO_64 == sum - TWO_64;
    }
  }

  /** A refused input changes nothing but its counter. */
  lemma RefusalMeaning(state: State, config: Config, verdict: Verdict)
    requires !verdict.Accepted?
    ensures var after := Add(state, config, verdict);
      && after.buffers == state.buffers
      && after.metrics.staleRejected == state.metrics.staleRejected + (if verdict.Stale? then 1 else 0)
      && after.metrics.futureRejected == state.metrics.futureRejected + (if verdict.Future? then 1 else 0)
      && after.metrics.buffered == state.metrics.buffered && after.metrics.dropped == state.metrics.dropped
  {
  }

  ghost predicate IsTail(held: seq<ClientInput>, sorted: seq<ClientInput>, limit: nat) {
    && |held| == (if |sorted| <= limit then |sorted| else limit)
    && forall i :: 0 <= i < |held| ==> held[i] == sorted[|sorted| - |held| + i]
  }

  /** When the buffer overflowed it holds the last `limit` inputs of the sorted list: the latest ticks stay. */
  lemma KeepsTheLatest(text: Text, config: Config, arrivals: seq<Arrival>, client: Str)
    ensures IsTail(Held(AddAll(text, config, arrivals).buffers, client),
                   StableSort(AcceptedFor(text, config, arrivals, client)), config.limit)
  {
    BufferIsBatchSort(text, config, arrivals, client);
    NewestMeaning(StableSort(AcceptedFor(text, config, arrivals, client)), config.limit);
  }

  lemma NewestMeaning(sorted: seq<ClientInput>, limit: nat)
    ensures IsTail(Newest(sorted, limit), sorted, limit)
  {
  }

  // ----- what consuming hands out -----

  /** `taken` and `kept` are the wanted and the other ones of `held`, each in the order of `held`: for every
      key all of its inputs, as they came, are in one or all are in the other. */
  ghost predicate HandsOut(
    held: seq<ClientInput>, wants: Key -> bool, taken: seq<ClientInput>, kept: seq<ClientInput>)
  {
    && (Ordered(held) ==> Ordered(taken) && Ordered(kept))
    && forall key ::
         && WithKey(taken, key) == (if wants(key) then WithKey(held, key) else [])
         && WithKey(kept, key) == (if wants(key) then [] else WithKey(held, key))
  }

  /** The inputs for a tick whose object type is the one asked for, up to case, or none was asked for, and
      whose object or target has the id asked for, or none was. */
  function WantedBy(text: Text, client: Str, tick: u64, objectType: Str, objectId: Str): Key -> bool {
    (key: Key) =>
      && text.trim(client) != [] && key.tick == tick
      && (text.trim(objectType) == [] || text.equalFold(key.objectType, text.trim(objectType)))
      && (text.trim(objectId) == [] || key.objectId == text.trim(objectId) || key.targetId == text.trim(objectId))
  }

  lemma {:induction false} FilterWithKey(
    inputs: seq<ClientInput>, wanted: ClientInput -> bool, key: Key, wantsKey: bool)
    requires forall x <- inputs :: KeyOf(x) == key ==> wanted(x) == wantsKey
    ensures WithKey(Filter(inputs, wanted), key) == if wantsKey then WithKey(inputs, key) else []
  {
    if inputs != [] {
      var earlier, last := inputs[..|inputs| - 1], inputs[|inputs| - 1];
      assert inputs == earlier + [last];
      FilterWithKey(earlier, wanted, key, wantsKey);
      SnocWithKey(earlier, last, key);
      SnocWithKey(Filter(earlier, wanted), last, key);
      assert Filter(earlier, wanted) + [] == Filter(earlier, wanted);
    }
  }

  /** Taking what is wanted by key. */
  lemma TakeHandsOut(state: State, client: Str, wanted: ClientInput -> bool, wants: Key -> bool)
    requires forall x :: client != [] && wanted(x) <==> wants(KeyOf(x))
    ensures HandsOut(Held(state.buffers, client), wants, Taken(state, client, wanted),
                     Held(Take(state, client, wanted).buffers, client))
  {
    var held := Held(state.buffers, client);
    HeldAfterTake(state, client, wanted);
    if client == [] {
      NothingWanted(held, wants);
    } else {
      FilterHandsOut(held, wanted, wants);
    }
  }

  lemma HeldAfterTake(state: State, client: Str, wanted: ClientInput -> bool)
    ensures Held(Take(state, client, wanted).buffers, client)
         == if client == [] then Held(state.buffers, client) else Filter(Held(state.buffers, client), Except(wanted))
  {
  }

  /** Consuming for one client leaves the others' inputs alone. */
  lemma OthersUntouched(state: State, client: Str, wanted: ClientInput -> bool, other: Str)
    requires other != client
    ensures Held(Take(state, client, wanted).buffers, other) == Held(state.buffers, other)
  {
  }

  lemma NothingWanted(held: seq<ClientInput>, wants: Key -> bool)
    requires forall x :: !wants(KeyOf(x))
    ensures HandsOut(held, wants, [], held)
  {
    forall key
      ensures !wants(key)
    {
      assert key
          == KeyOf(ClientInput([], key.sequence, key.tick, key.objectType, key.objectId, key.targetId, [], None));
    }
  }

  lemma FilterHandsOut(held: seq<ClientInput>, wanted: ClientInput -> bool, wants: Key -> bool)
    requires forall x :: wanted(x) <==> wants(KeyOf(x))
    ensures HandsOut(held, wants, Filter(held, wanted), Filter(held, Except(wanted)))
  {
    FilterOrderedBoth(held, wanted);
    forall key
      ensures WithKey(Filter(held, wanted), key) == if wants(key) then WithKey(held, key) else []
      ensures WithKey(Filter(held, Except(wanted)), key) == if wants(key) then [] else WithKey(held, key)
    {
      FilterWithKey(held, wanted, key, wants(key));
      FilterWithKey(held, Except(wanted), key, !wants(key));
    }
  }

  lemma FilterOrderedBoth(inputs: seq<ClientInput>, wanted: ClientInput -> bool)
    ensures Ordered(inputs) ==> Ordered(Filter(inputs, wanted)) && Ordered(Filter(inputs, Except(wanted)))
  {
    if Ordered(inputs) {
      FilterOrdered(inputs, wanted);
      FilterOrdered(inputs, Except(wanted));
    }
  }

  // ----- conservation over any run -----

  datatype Event =
    | Arrive(arrival: Arrival)
    | Consume(client: Str, tick: u64)
    | ConsumeForObject(client: Str, tick: u64, objectType: Str, objectId: Str)

  /** The buffer, with every input it ever accepted, handed out or dropped. */
  datatype Ledger = Ledger(
    state: State,
    accepted: multiset<ClientInput>, handedOut: multiset<ClientInput>, dropped: multiset<ClientInput>)

  function AddStep(ledger: Ledger, config: Config, verdict: Verdict): Ledger {
    var state := Add(ledger.state, config, verdict);
    if verdict.Accepted? then
      var sorted := StableSort(Held(ledger.state.buffers, verdict.input.clientId) + [verdict.input]);
      Ledger(state, ledger.accepted + multiset{verdict.input}, ledger.handedOut,
             ledger.dropped + multiset(Surplus(sorted, config.limit)))
    else ledger.(state := state)
  }

  function TakeStep(ledger: Ledger, client: Str, wanted: ClientInput -> bool): Ledger {
    ledger.(
      state := Take(ledger.state, client, wanted),
      handedOut := ledger.handedOut + multiset(Taken(ledger.state, client, wanted)))
  }

  function Step(text: Text, config: Config, ledger: Ledger, event: Event): Ledger {
    match event
    case Arrive(arrival) => AddStep(ledger, config, VerdictOn(text, config, arrival))
    case Consume(client, tick) => TakeStep(ledger, text.trim(client), AtTick(tick))
    case ConsumeForObject(client, tick, objectType, objectId) =>
      TakeStep(ledger, text.trim(client), AtTickForObject(text, tick, text.trim(objectType), text.trim(objectId)))
  }

  const OPENING: Ledger := Ledger(EMPTY, multiset{}, multiset{}, multiset{})

  function Run(text: Text, config: Config, events: seq<Event>): Ledger {
    if events == [] then OPENING
    else
      var n := |events| - 1;
      Step(text, config, Run(text, config, events[..n]), events[n])
  }

  ghost function SomeClient(buffers: Buffers): (client: Str)
    requires buffers != map[]
    ensures client in buffers
  {
    var client :| client in buffers;
    client
  }

  /** All inputs of all clients. */
  ghost function AllHeld(buffers: Buffers): multiset<ClientInput>
    decreases |buffers|
  {
    if buffers == map[] then multiset{}
    else
      var client := SomeClient(buffers);
      multiset(buffers[client]) + AllHeld(buffers - {client})
  }

  lemma {:induction false} AllHeldWithout(buffers: Buffers, client: Str)
    ensures AllHeld(buffers) == multiset(Held(buffers, client)) + AllHeld(buffers - {client})
    decreases |buffers|
  {
    if client in buffers {
      var first := SomeClient(buffers);
      if first != client {
        AllHeldWithout(buffers - {first}, client);
        AllHeldWithout(buffers - {client}, first);
        assert buffers - {first} - {client} == buffers - {client} - {first};
      }
    } else {
      assert buffers - {client} == buffers;
    }
  }

  lemma AllHeldPut(buffers: Buffers, client: Str, inputs: seq<ClientInput>)
    ensures AllHeld(buffers[client := inputs]) == multiset(inputs) + AllHeld(buffers - {client})
    ensures AllHeld(Put(buffers, client, inputs)) == multiset(inputs) + AllHeld(buffers - {client})
  {
    AllHeldWithout(buffers[client := inputs], client);
    assert buffers[client := inputs] - {client} == buffers - {client};
  }

  lemma FilterStep(inputs: seq<ClientInput>, wanted: ClientInput -> bool)
    requires inputs != []
    ensures var earlier, last := inputs[..|inputs| - 1], inputs[|inputs| - 1];
      && multiset(inputs) == multiset(earlier) + multiset{last}
      && multiset(Filter(inputs, wanted))
         == multiset(Filter(earlier, wanted)) + if wanted(last) then multiset{last} else multiset{}
  {
    assert inputs == inputs[..|inputs| - 1] + [inputs[|inputs| - 1]];
  }

  lemma {:induction false} FilterSplits(inputs: seq<ClientInput>, wanted: ClientInput -> bool)
    ensures multiset(inputs) == multiset(Filter(inputs, wanted)) + multiset(Filter(inputs, Except(wanted)))
  {
    if inputs != [] {
      FilterSplits(inputs[..|inputs| - 1], wanted);
      FilterStep(inputs, wanted);
      FilterStep(inputs, Except(wanted));
    }
  }

  ghost predicate Conserved(ledger: Ledger) {
    ledger.accepted == ledger.handedOut + ledger.dropped + AllHeld(ledger.state.buffers)
  }

  ghost predicate Counted(ledger: Ledger) {
    var metrics := ledger.state.metrics;
    && metrics.buffered == |ledger.accepted|
    && metrics.consumed == |ledger.handedOut|
    && metrics.dropped == |ledger.dropped|
  }

  /** Every list is in order, bounded, and its client's own. */
  ghost predicate WellKept(config: Config, buffers: Buffers) {
    forall client <- buffers ::
      && Ordered(buffers[client]) && |buffers[client]| <= config.limit
      && forall input <- buffers[client] :: input.clientId == client
  }

  lemma Rebook(
    accepted: multiset<ClientInput>, handedOut: multiset<ClientInput>, dropped: multiset<ClientInput>,
    held: multiset<ClientInput>, others: multiset<ClientInput>,
    input: multiset<ClientInput>, surplus: multiset<ClientInput>, newest: multiset<ClientInput>)
    requires accepted == handedOut + dropped + (held + others)
    requires held + input == surplus + newest
    ensures accepted + input == handedOut + (dropped + surplus) + (newest + others)
  {
    assert accepted + input == handedOut + dropped + others + (held + input);
  }

  lemma AddConserves(ledger: Ledger, config: Config, input: ClientInput)
    requires Conserved(ledger)
    ensures Conserved(AddStep(ledger, config, Accepted(input)))
  {
    var buffers, client := ledger.state.buffers, input.clientId;
    var sorted := StableSort(Held(buffers, client) + [input]);
    AllHeldWithout(buffers, client);
    AllHeldPut(buffers, client, Newest(sorted, config.limit));
    SplitNewest(sorted, config.limit);
    Rebook(ledger.accepted, ledger.handedOut, ledger.dropped,
           multiset(Held(buffers, client)), AllHeld(buffers - {client}),
           multiset{input}, multiset(Surplus(sorted, config.limit)), multiset(Newest(sorted, config.limit)));
  }

  lemma AddKeepsWell(buffers: Buffers, config: Config, input: ClientInput)
    requires WellKept(config, buffers)
    ensures WellKept(config, Added(State(buffers, EMPTY.metrics), config, input).buffers)
  {
    var inputs := Held(buffers, input.clientId) + [input];
    var sorted := StableSort(inputs);
    StableSortMeaning(inputs);
    NewestOrdered(sorted, config.limit);
    forall x <- Newest(sorted, config.limit)
      ensures x.clientId == input.clientId
    {
      assert x in multiset(sorted);
      assert x in inputs;
    }
  }

  lemma {:induction false} FilterOrdered(inputs: seq<ClientInput>, wanted: ClientInput -> bool)
    requires Ordered(inputs)
    ensures Ordered(Filter(inputs, wanted)) && |Filter(inputs, wanted)| <= |inputs|
    ensures forall x <- Filter(inputs, wanted) :: x in inputs && wanted(x)
  {
    if inputs != [] {
      var n := |inputs| - 1;
      FilterOrdered(inputs[..n], wanted);
      var kept := Filter(inputs[..n], wanted);
      forall i | 0 <= i < |kept|
        ensures !Before(inputs[n], kept[i])
      {
        assert kept[i] in inputs[..n];
      }
    }
  }

  lemma TakeConserves(ledger: Ledger, client: Str, wanted: ClientInput -> bool)
    requires Conserved(ledger)
    ensures Conserved(TakeStep(ledger, client, wanted))
  {
    var buffers := ledger.state.buffers;
    var inputs := Held(buffers, client);
    if client != [] && inputs != [] {
      AllHeldWithout(buffers, client);
      AllHeldPut(buffers, client, Filter(inputs, Except(wanted)));
      FilterSplits(inputs, wanted);
    }
  }

  ghost predicate Inv(config: Config, ledger: Ledger) {
    Conserved(ledger) && Counted(ledger) && WellKept(config, ledger.state.buffers)
  }

  lemma AddCounts(ledger: Ledger, config: Config, verdict: Verdict)
    requires Counted(ledger)
    ensures Counted(AddStep(ledger, config, verdict))
  {
  }

  lemma TakeCounts(ledger: Ledger, client: Str, wanted: ClientInput -> bool)
    requires Counted(ledger)
    ensures Counted(TakeStep(ledger, client, wanted))
  {
    if client == [] || Held(ledger.state.buffers, client) == [] {
      assert Taken(ledger.state, client, wanted) == [];
    }
  }

  lemma AddKeeps(config: Config, ledger: Ledger, verdict: Verdict)
    requires Inv(config, ledger)
    ensures Inv(config, AddStep(ledger, config, verdict))
  {
    AddCounts(ledger, config, verdict);
    if verdict.Accepted? {
      AddConserves(ledger, config, verdict.input);
      AddKeepsWell(ledger.state.buffers, config, verdict.input);
      assert AddStep(ledger, config, verdict).state.buffers
          == Added(State(ledger.state.buffers, EMPTY.metrics), config, verdict.input).buffers;
    }
  }

  lemma StepKeeps(text: Text, config: Config, ledger: Ledger, event: Event)
    requires Inv(config, ledger)
    ensures Inv(config, Step(text, config, ledger, event))
  {
    match event
    case Arrive(arrival) =>
      AddKeeps(config, ledger, VerdictOn(text, config, arrival));
    case Consume(client, tick) =>
      TakeKeeps(config, ledger, text.trim(client), AtTick(tick));
    case ConsumeForObject(client, tick, objectType, objectId) =>
      TakeKeeps(config, ledger, text.trim(client),
                AtTickForObject(text, tick, text.trim(objectType), text.trim(objectId)));
  }

  lemma PutKeepsWell(config: Config, buffers: Buffers, client: Str, wanted: ClientInput -> bool)
    requires WellKept(config, buffers) && client in buffers
    ensures WellKept(config, Put(buffers, client, Filter(buffers[client], wanted)))
  {
    FilterOrdered(buffers[client], wanted);
  }

  lemma TakeKeeps(config: Config, ledger: Ledger, client: Str, wanted: ClientInput -> bool)
    requires Inv(config, ledger)
    ensures Inv(config, TakeStep(ledger, client, wanted))
  {
    TakeConserves(ledger, client, wanted);
    TakeCounts(ledger, client, wanted);
    var inputs := Held(ledger.state.buffers, client);
    if client != [] && inputs != [] {
      PutKeepsWell(config, ledger.state.buffers, client, Except(wanted));
    }
  }

  /** In every run: whatever was accepted was handed out once, or dropped once, or is still held; the
      counters count exactly that; and every client's list is ordered and bounded. */
  lemma {:induction false} EveryRun(text: Text, config: Config, events: seq<Event>)
    ensures Inv(config, Run(text, config, events))
  {
    if events != [] {
      var n := |events| - 1;
      EveryRun(text, config, events[..n]);
      StepKeeps(text, config, Run(text, config, events[..n]), events[n]);
    }
  }

  lemma Conservation(text: Text, config: Config, events: seq<Event>)
    ensures var ledger := Run(text, config, events);
      var metrics := ledger.state.metrics;
      metrics.buffered == metrics.consumed + metrics.dropped + |AllHeld(ledger.state.buffers)|
  {
    EveryRun(text, config, events);
  }

  // ----- the code -----

  /** The loops over `inputs[:0]`: what is kept is written back into the slice that is being read. */
  method PartitionInPlace(inputs: array<ClientInput>, wanted: ClientInput -> bool)
    returns (taken: seq<ClientInput>, kept: nat)
    modifies inputs
    ensures taken == Filter(old(inputs[..]), wanted)
    ensures kept <= inputs.Length && inputs[..kept] == Filter(old(inputs[..]), Except(wanted))
  {
    taken, kept := [], 0;
    ghost var was := inputs[..];
    for i := 0 to inputs.Length
      invariant kept <= i
      invariant taken == Filter(was[..i], wanted)
      invariant inputs[..kept] == Filter(was[..i], Except(wanted))
      invariant inputs[i..] == was[i..]
    {
      var input := inputs[i];
      assert input == inputs[i..][0] == was[i];
      assert was[..i + 1][..i] == was[..i];
      assert inputs[i + 1..] == inputs[i..][1..];
      if wanted(input) {
        taken := taken + [input];
      } else {
        inputs[kept] := input;
        kept := kept + 1;
        assert inputs[..kept] == inputs[..kept - 1] + [input];
      }
    }
    assert was[..inputs.Length] == was;
  }

  method DropSurplus(sorted: seq<ClientInput>, limit: nat) returns (inputs: seq<ClientInput>, dropped: nat)
    ensures inputs == Newest(sorted, limit) && dropped == |Surplus(sorted, limit)|
  {
    inputs, dropped := sorted, 0;
    while |inputs| > limit
      invariant dropped <= |sorted| && inputs == sorted[dropped..]
      invariant dropped > 0 ==> |inputs| >= limit
    {
      inputs := inputs[1..];
      dropped := dropped + 1;
    }
  }

  class Buffer {
    var byClient: Buffers
    var metrics: Metrics

    ghost function Content(): State reads this { State(byClient, metrics) }

    constructor ()
      ensures Content() == EMPTY
    {
      byClient, metrics := map[], Metrics(0, 0, 0, 0, 0);
    }

    method AddInput(text: Text, config: Config, arrived: ClientInput, currentTick: u64, now: real)
      returns (verdict: Verdict)
      modifies this
      ensures verdict == Judge(text, config, arrived, currentTick, now)
      ensures Content() == Add(old(Content()), config, verdict)
    {
      var input := Normalised(text, arrived, currentTick, now);
      if input.clientId == [] {
        return MissingId;
      }
      if input.tick < currentTick && currentTick - input.tick > config.maxPast {
        metrics := metrics.(staleRejected := metrics.staleRejected + 1);
        return Stale;
      }
      if input.tick > (currentTick + config.maxFuture) % TWO_64 {
        metrics := metrics.(futureRejected := metrics.futureRejected + 1);
        return Future;
      }
      StoreInput(config, input);
      return Accepted(input);
    }

    /** Append, sort, drop the oldest over the limit. */
    method StoreInput(config: Config, input: ClientInput)
      modifies this
      ensures Content() == Added(old(Content()), config, input)
    {
      var inputs := (if input.clientId in byClient then byClient[input.clientId] else []) + [input];
      inputs := StableSort(inputs);
      var surplus;
      inputs, surplus := DropSurplus(inputs, config.limit);
      metrics := metrics.(dropped := metrics.dropped + surplus);
      byClient := byClient[input.clientId := inputs];
      metrics := metrics.(buffered := metrics.buffered + 1);
    }

    /** What `consume` and `consumeForObject` share: hand out the wanted inputs, keep the others. */
    method TakeInputs(client: Str, wanted: ClientInput -> bool) returns (taken: seq<ClientInput>)
      modifies this
      ensures taken == Taken(old(Content()), client, wanted)
      ensures Content() == Take(old(Content()), client, wanted)
    {
      if client == [] || client !in byClient || byClient[client] == [] {
        return [];
      }
      var held := byClient[client];
      var inputs := new ClientInput[|held|](i requires 0 <= i < |held| => held[i]);
      assert inputs[..] == held;
      var kept;
      taken, kept := PartitionInPlace(inputs, wanted);
      if kept == 0 {
        byClient := byClient - {client};
      } else {
        byClient := byClient[client := inputs[..kept]];
      }
      metrics := metrics.(consumed := metrics.consumed + |taken|);
    }

    method ConsumeInputs(text: Text, client: Str, tick: u64) returns (taken: seq<ClientInput>)
      modifies this
      ensures taken == Taken(old(Content()), text.trim(client), AtTick(tick))
      ensures Content() == Take(old(Content()), text.trim(client), AtTick(tick))
      ensures HandsOut(
        Held(old(byClient), text.trim(client)), (key: Key) => text.trim(client) != [] && key.tick == tick,
        taken, Held(byClient, text.trim(client)))
    {
      TakeHandsOut(Content(), text.trim(client), AtTick(tick),
                   (key: Key) => text.trim(client) != [] && key.tick == tick);
      taken := TakeInputs(text.trim(client), AtTick(tick));
    }

    method ConsumeInputsForObject(text: Text, client: Str, tick: u64, objectType: Str, objectId: Str)
      returns (taken: seq<ClientInput>)
      modifies this
      ensures taken == Taken(old(Content()), text.trim(client),
                             AtTickForObject(text, tick, text.trim(objectType), text.trim(objectId)))
      ensures Content() == Take(old(Content()), text.trim(client),
                                AtTickForObject(text, tick, text.trim(objectType), text.trim(objectId)))
      ensures HandsOut(
        Held(old(byClient), text.trim(client)), WantedBy(text, client, tick, objectType, objectId),
        taken, Held(byClient, text.trim(client)))
    {
      TakeHandsOut(Content(), text.trim(client),
                   AtTickForObject(text, tick, text.trim(objectType), text.trim(objectId)),
                   WantedBy(text, client, tick, objectType, objectId));
      taken := TakeInputs(
        text.trim(client), AtTickForObject(text, tick, text.trim(objectType), text.trim(objectId)));
    }
  }
}
