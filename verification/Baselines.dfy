/** Snapshot baselines: what the server commits per client (`encodeUDPSnapshot`,
    `shouldSendFullSnapshot`, `commitSnapshotBaseline`, `resetSnapshotBaseline`), and what a client can
    reconstruct from full and delta snapshots over a network that loses, duplicates and reorders. */
module Baselines {
  import opened Sorting
  import opened Wrappers
  import opened SnapshotDelta

  datatype Config = Config(enableDelta: bool, fullEvery: nat)

  datatype Baseline = Baseline(tick: nat, snapshot: Objects, sinceFull: nat)

  datatype Message =
    | Full(tick: nat, objects: Objects)
    | Incremental(tick: nat, baselineTick: nat, delta: Delta)

  /** A snapshot that is encoded but not committed yet. */
  datatype Draft = Draft(objects: Objects, message: Message)

  /** The client's world: the objects of the last snapshot it took over, and that snapshot's tick. */
  datatype World = World(tick: nat, objects: Objects)

  datatype Mark = SentFull | SentDelta | WasReset

  /** `committed` and `history` remember every committed snapshot, and the order of sending and of
      baseline resets. */
  datatype State = State(
    tick: nat,
    baseline: Option<Baseline>,
    draft: Option<Draft>,
    committed: map<nat, Objects>,
    history: seq<Mark>,
    network: seq<Message>,
    world: Option<World>)

  const INITIAL: State := State(0, None, None, map[], [], [], None)

  datatype Event =
    | Encode(idleTicks: nat, objects: Objects, supportsDelta: bool)
    | Commit
    | Abandon               // too large, or over budget: never sent
    | Reset                 // authentication, scene switch, first wire packet
    | Deliver(index: nat)

  // ----- steps -----

  predicate ShouldSendFull(config: Config, baseline: Baseline) {
    config.fullEvery <= 1 || baseline.sinceFull + 1 >= config.fullEvery
  }

  predicate SendsDelta(config: Config, baseline: Option<Baseline>, supportsDelta: bool) {
    config.enableDelta && baseline.Some? && !ShouldSendFull(config, baseline.value) && supportsDelta
  }

  ghost function EncodeSnapshot(
    config: Config, baseline: Option<Baseline>, supportsDelta: bool, tick: nat, objects: Objects): Message
  {
    if SendsDelta(config, baseline, supportsDelta)
    then Incremental(tick, baseline.value.tick, DeltaOf(baseline.value.snapshot, objects))
    else Full(tick, objects)
  }

  ghost function CommitBaseline(
    config: Config, canon: Json -> Json, baseline: Option<Baseline>, draft: Draft): Option<Baseline>
  {
    if !config.enableDelta then baseline
    else
      Some(Baseline(draft.message.tick, Clone(canon, draft.objects),
                    if draft.message.Incremental? && baseline.Some? then baseline.value.sinceFull + 1 else 0))
  }

  /** The client replaces its world on a full snapshot, and applies a delta only to its baseline. */
  ghost function TakeOver(world: Option<World>, message: Message): Option<World> {
    match message
    case Full(tick, objects) => Some(World(tick, objects))
    case Incremental(tick, baselineTick, delta) =>
      if world.Some? && world.value.tick == baselineTick
      then Some(World(tick, ApplyDelta(world.value.objects, delta))) else world
  }

  ghost function Apply(config: Config, canon: Json -> Json, s: State, event: Event): State {
    match event
    case Encode(idleTicks, objects, supportsDelta) =>
      if s.draft.Some? then s
      else
        var tick := s.tick + idleTicks + 1;
        var message := EncodeSnapshot(config, s.baseline, supportsDelta, tick, objects);
        s.(tick := tick, draft := Some(Draft(objects, message)))
    case Commit =>
      if s.draft.None? then s
      else
        var draft := s.draft.value;
        s.(draft := None,
           baseline := CommitBaseline(config, canon, s.baseline, draft),
           committed := s.committed[draft.message.tick := draft.objects],
           history := s.history + [if draft.message.Full? then SentFull else SentDelta],
           network := s.network + [draft.message])
    case Abandon => s.(draft := None)
    case Reset => s.(baseline := None, history := s.history + [WasReset])
    case Deliver(i) => if i < |s.network| then s.(world := TakeOver(s.world, s.network[i])) else s
  }

  ghost function Run(config: Config, canon: Json -> Json, events: seq<Event>): State {
    if events == [] then INITIAL
    else Apply(config, canon, Run(config, canon, events[..|events| - 1]), events[|events| - 1])
  }

  // ----- reconstruction -----

  /** A message tells the truth about the committed snapshots. */
  ghost predicate Truthful(canon: Json -> Json, committed: map<nat, Objects>, message: Message, objects: Objects) {
    match message
    case Full(_, sent) => sent == objects
    case Incremental(_, baselineTick, delta) =>
      baselineTick in committed && IsDelta(Clone(canon, committed[baselineTick]), objects, delta)
  }

  ghost predicate NetworkOk(canon: Json -> Json, committed: map<nat, Objects>, network: seq<Message>) {
    forall m <- network :: m.tick in committed && Truthful(canon, committed, m, committed[m.tick])
  }

  /** What the client holds is, value by value, the snapshot committed for the tick it holds. */
  ghost predicate WorldOk(canon: Json -> Json, committed: map<nat, Objects>, world: Option<World>) {
    world.Some? ==>
      && world.value.tick in committed
      && Clone(canon, world.value.objects) == Clone(canon, committed[world.value.tick])
  }

  ghost predicate Inv(canon: Json -> Json, s: State) {
    && (forall t <- s.committed :: t <= s.tick)
    && (s.baseline.Some? ==>
          var b := s.baseline.value;
          b.tick in s.committed && b.snapshot == Clone(canon, s.committed[b.tick]))
    && (s.draft.Some? ==>
          var d := s.draft.value;
          d.message.tick == s.tick && s.tick !in s.committed && Truthful(canon, s.committed, d.message, d.objects))
    && NetworkOk(canon, s.committed, s.network)
    && WorldOk(canon, s.committed, s.world)
  }

  lemma TakeOverKeeps(canon: Json -> Json, committed: map<nat, Objects>, world: Option<World>, message: Message)
    requires Idempotent(canon) && WorldOk(canon, committed, world)
    requires message.tick in committed && Truthful(canon, committed, message, committed[message.tick])
    ensures WorldOk(canon, committed, TakeOver(world, message))
  {
    if message.Incremental? && world.Some? && world.value.tick == message.baselineTick {
      DeltaThroughClone(canon, world.value.objects, Clone(canon, committed[message.baselineTick]),
                        committed[message.tick], message.delta);
    }
  }

  lemma CommitKeeps(config: Config, canon: Json -> Json, s: State)
    requires Inv(canon, s) && s.draft.Some?
    ensures Inv(canon, Apply(config, canon, s, Commit))
  {
    var t := Apply(config, canon, s, Commit);
    assert forall k <- s.committed :: k in t.committed && t.committed[k] == s.committed[k];
    forall m <- t.network
      ensures m.tick in t.committed && Truthful(canon, t.committed, m, t.committed[m.tick])
    {
      assert m in s.network || m == s.draft.value.message;
    }
  }

  lemma StepKeeps(config: Config, canon: Json -> Json, s: State, event: Event)
    requires Idempotent(canon) && Inv(canon, s)
    ensures Inv(canon, Apply(config, canon, s, event))
  {
    if event.Commit? && s.draft.Some? {
      CommitKeeps(config, canon, s);
    } else if event.Deliver? && event.index < |s.network| {
      TakeOverKeeps(canon, s.committed, s.world, s.network[event.index]);
    }
  }

  /** Delta reconstruction under loss, duplication and reordering, with resets at any moment, even
      between encoding and committing: whatever the client holds is, up to the re-marshalled JSON of
      each value, the snapshot the server committed for that tick. */
  lemma {:induction false} Reconstruction(config: Config, canon: Json -> Json, events: seq<Event>)
    requires Idempotent(canon)
    ensures Inv(canon, Run(config, canon, events))
    ensures var s := Run(config, canon, events);
      s.world.Some? ==>
        && s.world.value.tick in s.committed
        && Clone(canon, s.world.value.objects) == Clone(canon, s.committed[s.world.value.tick])
  {
    if events != [] {
      Reconstruction(config, canon, events[..|events| - 1]);
      StepKeeps(config, canon, Run(config, canon, events[..|events| - 1]), events[|events| - 1]);
    }
  }

  // ----- cadence -----

  ghost predicate EndsInReset(history: seq<Mark>) {
    history != [] && history[|history| - 1] == WasReset
  }

  /** The first snapshot of a session, and the first after a reset, is full: a delta directly follows
      another snapshot. */
  ghost predicate DeltasFollowSnapshots(history: seq<Mark>) {
    forall i :: 0 <= i < |history| && history[i] == SentDelta ==> i > 0 && history[i - 1] != WasReset
  }

  ghost predicate DraftsDelta(s: State) {
    s.draft.Some? && s.draft.value.message.Incremental?
  }

  /** A reset fell while a delta was encoded and not yet committed or given up, as it still is. */
  ghost predicate Hit(config: Config, canon: Json -> Json, events: seq<Event>) {
    exists i :: HitAt(config, canon, events, i)
  }

  ghost predicate HitAt(config: Config, canon: Json -> Json, events: seq<Event>, i: int) {
    && 0 <= i < |events| && events[i].Reset? && DraftsDelta(Run(config, canon, events[..i]))
    && forall j :: i < j < |events| ==> !events[j].Commit? && !events[j].Abandon?
  }

  /** A delta that a reset had hit was committed all the same. */
  ghost predicate Raced(config: Config, canon: Json -> Json, events: seq<Event>) {
    exists k :: 0 <= k < |events| && events[k].Commit? && Hit(config, canon, events[..k])
  }

  /** A baseline comes from the snapshot sent last; and a delta hit by a reset is one that waits to be
      committed behind a reset mark. */
  lemma {:induction false} HitMeaning(config: Config, canon: Json -> Json, events: seq<Event>)
    ensures var s := Run(config, canon, events);
      && (s.baseline.Some? ==> config.enableDelta && s.history != [] && !EndsInReset(s.history))
      && (DraftsDelta(s) ==> s.history != [])
      && (Hit(config, canon, events) <==> DraftsDelta(s) && EndsInReset(s.history))
  {
    if events == [] {
      assert !Hit(config, canon, events);
    } else {
      var earlier, event := events[..|events| - 1], events[|events| - 1];
      HitMeaning(config, canon, earlier);
      HitStep(config, canon, events);
    }
  }

  /** Only a reset hits, and only a commit or giving up ends it. */
  lemma HitStep(config: Config, canon: Json -> Json, events: seq<Event>)
    requires events != []
    ensures var earlier, event := events[..|events| - 1], events[|events| - 1];
      Hit(config, canon, events)
      <==> if event.Reset? then DraftsDelta(Run(config, canon, earlier)) || Hit(config, canon, earlier)
           else !event.Commit? && !event.Abandon? && Hit(config, canon, earlier)
  {
    var earlier, event := events[..|events| - 1], events[|events| - 1];
    forall i | 0 <= i < |earlier|
      ensures HitAt(config, canon, events, i)
         <==> HitAt(config, canon, earlier, i) && !event.Commit? && !event.Abandon?
    {
      assert earlier[..i] == events[..i];
    }
    assert HitAt(config, canon, events, |earlier|) <==> event.Reset? && DraftsDelta(Run(config, canon, earlier));
    if Hit(config, canon, earlier) {
      var i :| HitAt(config, canon, earlier, i);
    }
    if Hit(config, canon, events) {
      var i :| HitAt(config, canon, events, i);
    }
  }

  lemma FollowsStep(history: seq<Mark>, mark: Mark)
    ensures DeltasFollowSnapshots(history + [mark])
       <==> DeltasFollowSnapshots(history) && (mark == SentDelta ==> history != [] && !EndsInReset(history))
  {
    var grown := history + [mark];
    assert forall i :: 0 <= i < |history| ==> grown[i] == history[i];
    if DeltasFollowSnapshots(grown) {
      forall i | 0 <= i < |history| && history[i] == SentDelta
        ensures i > 0 && history[i - 1] != WasReset
      {
        assert grown[i] == SentDelta;
      }
      assert grown[|history|] == mark;
    }
  }

  /** Exactly when the promise holds: in every run, the first snapshot of the session and the first after
      each reset is full if and only if no delta was committed that a reset had hit in between. */
  lemma {:induction false} FullAfterResetUnlessRaced(config: Config, canon: Json -> Json, events: seq<Event>)
    ensures DeltasFollowSnapshots(Run(config, canon, events).history) <==> !Raced(config, canon, events)
  {
    if events != [] {
      var earlier, event := events[..|events| - 1], events[|events| - 1];
      var before := Run(config, canon, earlier);
      FullAfterResetUnlessRaced(config, canon, earlier);
      HitMeaning(config, canon, earlier);
      RacedStep(config, canon, events);
      if event.Reset? {
        FollowsStep(before.history, WasReset);
      } else if event.Commit? && before.draft.Some? {
        FollowsStep(before.history, if before.draft.value.message.Full? then SentFull else SentDelta);
      }
    }
  }

  lemma RacedStep(config: Config, canon: Json -> Json, events: seq<Event>)
    requires events != []
    ensures var earlier, event := events[..|events| - 1], events[|events| - 1];
      Raced(config, canon, events)
      <==> Raced(config, canon, earlier) || (event.Commit? && Hit(config, canon, earlier))
  {
    var earlier := events[..|events| - 1];
    assert forall k :: 0 <= k <= |earlier| ==> earlier[..k] == events[..k];
    if Raced(config, canon, earlier) {
      var k :| 0 <= k < |earlier| && earlier[k].Commit? && Hit(config, canon, earlier[..k]);
      assert events[k].Commit? && Hit(config, canon, events[..k]);
    }
    if Raced(config, canon, events) {
      var k :| 0 <= k < |events| && events[k].Commit? && Hit(config, canon, events[..k]);
      assert k < |earlier| ==> earlier[k].Commit? && Hit(config, canon, earlier[..k]);
    }
  }

  /** A committed snapshot: full, a delta, or a delta that the promise above would have had full. */
  datatype Kind = Whole | Diff | Stray

  /** The committed snapshots of a history, without the reset marks. */
  ghost function Snapshots(history: seq<Mark>): seq<Kind> {
    if history == [] then []
    else
      var earlier := history[..|history| - 1];
      match history[|history| - 1]
      case WasReset => Snapshots(earlier)
      case SentFull => Snapshots(earlier) + [Whole]
      case SentDelta => Snapshots(earlier) + [if earlier == [] || EndsInReset(earlier) then Stray else Diff]
  }

  /** The number of deltas at the end. */
  function Trailing(kinds: seq<Kind>): nat {
    if kinds == [] || kinds[|kinds| - 1] != Diff then 0 else Trailing(kinds[..|kinds| - 1]) + 1
  }

  ghost predicate Bounded(config: Config, kinds: seq<Kind>) {
    forall i :: 0 <= i <= |kinds| ==> Trailing(kinds[..i]) == 0 || Trailing(kinds[..i]) < config.fullEvery
  }

  ghost predicate CadenceInv(config: Config, s: State) {
    var kinds := Snapshots(s.history);
    && Bounded(config, kinds)
    && (s.baseline.Some? ==> s.baseline.value.sinceFull == Trailing(kinds))
    && (DraftsDelta(s) && !EndsInReset(s.history) ==>
          s.baseline.Some? && s.baseline.value.sinceFull + 1 < config.fullEvery)
  }

  lemma TrailingGrows(kinds: seq<Kind>, kind: Kind)
    ensures Trailing(kinds + [kind]) == if kind == Diff then Trailing(kinds) + 1 else 0
  {
    assert (kinds + [kind])[..|kinds|] == kinds;
  }

  lemma BoundedGrows(config: Config, kinds: seq<Kind>, kind: Kind)
    requires Bounded(config, kinds) && (kind == Diff ==> Trailing(kinds) + 1 < config.fullEvery)
    ensures Bounded(config, kinds + [kind])
  {
    var grown := kinds + [kind];
    TrailingGrows(kinds, kind);
    forall i | 0 <= i <= |grown|
      ensures Trailing(grown[..i]) == 0 || Trailing(grown[..i]) < config.fullEvery
    {
      if i <= |kinds| {
        assert grown[..i] == kinds[..i];
      } else {
        assert grown[..i] == grown;
      }
    }
  }

  lemma SnapshotsGrow(history: seq<Mark>, mark: Mark)
    ensures Snapshots(history + [mark])
         == Snapshots(history)
            + match mark
              case WasReset => []
              case SentFull => [Whole]
              case SentDelta => [if history == [] || EndsInReset(history) then Stray else Diff]
  {
    assert (history + [mark])[..|history|] == history;
  }

  lemma CommitCadence(config: Config, canon: Json -> Json, s: State)
    requires CadenceInv(config, s) && s.draft.Some?
    requires s.baseline.Some? ==> config.enableDelta && !EndsInReset(s.history)
    requires DraftsDelta(s) ==> s.history != []
    ensures CadenceInv(config, Apply(config, canon, s, Commit))
  {
    var kinds := Snapshots(s.history);
    var mark := if s.draft.value.message.Full? then SentFull else SentDelta;
    var kind := if mark == SentFull then Whole else if EndsInReset(s.history) then Stray else Diff;
    SnapshotsGrow(s.history, mark);
    TrailingGrows(kinds, kind);
    BoundedGrows(config, kinds, kind);
  }

  lemma {:induction false} CadenceRun(config: Config, canon: Json -> Json, events: seq<Event>)
    ensures CadenceInv(config, Run(config, canon, events))
  {
    if events != [] {
      var earlier, event := events[..|events| - 1], events[|events| - 1];
      var before := Run(config, canon, earlier);
      CadenceRun(config, canon, earlier);
      HitMeaning(config, canon, earlier);
      if event.Reset? {
        SnapshotsGrow(before.history, WasReset);
        assert Snapshots(before.history) + [] == Snapshots(before.history);
      } else if event.Commit? && before.draft.Some? {
        CommitCadence(config, canon, before);
      } else {
        QuietCadence(config, canon, before, event);
      }
    }
  }

  lemma QuietCadence(config: Config, canon: Json -> Json, s: State, event: Event)
    requires CadenceInv(config, s) && !event.Reset? && (event.Commit? ==> s.draft.None?)
    ensures CadenceInv(config, Apply(config, canon, s, event))
  {
    var t := Apply(config, canon, s, event);
    assert t.history == s.history && t.baseline == s.baseline;
  }

  /** Full-snapshot cadence over the committed snapshots alone, in every run: any `fullEvery` consecutive
      ones are not all deltas, raced ones aside. */
  lemma Cadence(config: Config, canon: Json -> Json, events: seq<Event>, i: nat)
    requires config.fullEvery >= 1
    requires i + config.fullEvery <= |Snapshots(Run(config, canon, events).history)|
    ensures var kinds := Snapshots(Run(config, canon, events).history);
      exists j :: i <= j < i + config.fullEvery && kinds[j] != Diff
  {
    CadenceRun(config, canon, events);
    var kinds := Snapshots(Run(config, canon, events).history);
    if forall j :: i <= j < i + config.fullEvery ==> kinds[j] == Diff {
      TrailingCounts(kinds[..i + config.fullEvery], config.fullEvery);
    }
  }

  lemma {:induction false} TrailingCounts(kinds: seq<Kind>, n: nat)
    requires n <= |kinds| && forall j :: |kinds| - n <= j < |kinds| ==> kinds[j] == Diff
    ensures Trailing(kinds) >= n
  {
    if n > 0 {
      TrailingCounts(kinds[..|kinds| - 1], n - 1);
    }
  }

  function Strays(kinds: seq<Kind>): nat {
    if kinds == [] then 0
    else Strays(kinds[..|kinds| - 1]) + if kinds[|kinds| - 1] == Stray then 1 else 0
  }

  lemma {:induction false} TrailingOfPart(kinds: seq<Kind>, i: nat)
    requires i <= |kinds|
    ensures Trailing(kinds[i..]) <= Trailing(kinds)
    decreases |kinds|
  {
    if i < |kinds| {
      var earlier := kinds[..|kinds| - 1];
      assert kinds[i..][..|kinds| - i - 1] == earlier[i..];
      TrailingOfPart(earlier, i);
    }
  }

  /** Every stray one starts another stretch of deltas. */
  lemma {:induction false} StretchOfDeltas(config: Config, kinds: seq<Kind>, i: nat, j: nat)
    requires config.fullEvery >= 1 && Bounded(config, kinds) && i <= j <= |kinds|
    requires forall k :: i <= k < j ==> kinds[k] != Whole
    ensures j - i <= Strays(kinds[i..j]) * config.fullEvery + Trailing(kinds[i..j])
    decreases j
  {
    if i < j {
      StretchOfDeltas(config, kinds, i, j - 1);
      assert kinds[i..j][..j - i - 1] == kinds[i..j - 1];
      TrailingOfPart(kinds[..j - 1], i);
      assert kinds[..j - 1][i..] == kinds[i..j - 1];
      if kinds[j - 1] == Stray {
        OneMore(Strays(kinds[i..j - 1]), config.fullEvery);
      }
    }
  }

  lemma OneMore(n: nat, m: nat)
    ensures (n + 1) * m == n * m + m
  {
  }

  /** However often resets race, deltas in a row are bounded, raced ones included: with `n` raced ones among
      them there are at most (n + 1) * fullEvery - 1. */
  lemma DeltasInARow(config: Config, canon: Json -> Json, events: seq<Event>, i: nat, j: nat)
    requires config.fullEvery >= 1 && i <= j <= |Snapshots(Run(config, canon, events).history)|
    requires forall k :: i <= k < j ==> Snapshots(Run(config, canon, events).history)[k] != Whole
    ensures var kinds := Snapshots(Run(config, canon, events).history);
      j - i <= (Strays(kinds[i..j]) + 1) * config.fullEvery - 1
  {
    CadenceRun(config, canon, events);
    BoundedRow(config, Snapshots(Run(config, canon, events).history), i, j);
  }

  lemma BoundedRow(config: Config, kinds: seq<Kind>, i: nat, j: nat)
    requires config.fullEvery >= 1 && Bounded(config, kinds) && i <= j <= |kinds|
    requires forall k :: i <= k < j ==> kinds[k] != Whole
    ensures j - i <= (Strays(kinds[i..j]) + 1) * config.fullEvery - 1
  {
    StretchOfDeltas(config, kinds, i, j);
    TrailingOfPart(kinds[..j], i);
    assert kinds[..j][i..] == kinds[i..j];
    OneMore(Strays(kinds[i..j]), config.fullEvery);
  }

  lemma {:induction false} NoStrays(history: seq<Mark>)
    requires DeltasFollowSnapshots(history)
    ensures Stray !in Snapshots(history)
  {
    if history != [] {
      var earlier, mark := history[..|history| - 1], history[|history| - 1];
      assert history == earlier + [mark];
      FollowsStep(earlier, mark);
      NoStrays(earlier);
    }
  }

  /** Without a race, one of any `fullEvery` consecutive snapshots is full. */
  lemma CadenceUnlessRaced(config: Config, canon: Json -> Json, events: seq<Event>, i: nat)
    requires config.fullEvery >= 1 && !Raced(config, canon, events)
    requires i + config.fullEvery <= |Snapshots(Run(config, canon, events).history)|
    ensures var kinds := Snapshots(Run(config, canon, events).history);
      exists j :: i <= j < i + config.fullEvery && kinds[j] == Whole
  {
    FullAfterResetUnlessRaced(config, canon, events);
    NoStrays(Run(config, canon, events).history);
    Cadence(config, canon, events, i);
    var kinds := Snapshots(Run(config, canon, events).history);
    var j :| i <= j < i + config.fullEvery && kinds[j] != Diff;
    assert kinds[j] in kinds;
  }

  lemma RunStep(config: Config, canon: Json -> Json, events: seq<Event>, event: Event)
    ensures Run(config, canon, events + [event]) == Apply(config, canon, Run(config, canon, events), event)
  {
    assert (events + [event])[..|events|] == events;
  }

  /** With deltas enabled there is a baseline as soon as a snapshot was sent that no reset followed, and it is
      the newest one committed. */
  ghost predicate BaselineInv(config: Config, s: State) {
    && (s.baseline.Some? <==> config.enableDelta && s.history != [] && !EndsInReset(s.history))
    && (forall t <- s.committed :: t <= s.tick && (s.baseline.Some? ==> t <= s.baseline.value.tick))
    && (s.draft.Some? ==> s.draft.value.message.tick == s.tick)
  }

  lemma {:induction false} BaselineRun(config: Config, canon: Json -> Json, events: seq<Event>)
    ensures BaselineInv(config, Run(config, canon, events))
  {
    if events != [] {
      BaselineRun(config, canon, events[..|events| - 1]);
      BaselineStep(config, canon, Run(config, canon, events[..|events| - 1]), events[|events| - 1]);
    }
  }

  lemma BaselineStep(config: Config, canon: Json -> Json, s: State, event: Event)
    requires BaselineInv(config, s)
    ensures BaselineInv(config, Apply(config, canon, s, event))
  {
    match event
    case Encode(_, _, _) =>
    case Commit =>
    case Abandon =>
    case Reset =>
    case Deliver(_) =>
  }

  /** What kind the next snapshot is, told from what was sent and reset before, in every run: a delta exactly
      if deltas are enabled, the client takes them, the last thing that happened is that a snapshot was sent,
      and fewer than `fullEvery` deltas would then stand at the end. */
  lemma NextDraft(
    config: Config, canon: Json -> Json, events: seq<Event>, idleTicks: nat, objects: Objects, supportsDelta: bool)
    requires Run(config, canon, events).draft.None?
    ensures var history := Run(config, canon, events).history;
      DraftsDelta(Run(config, canon, events + [Encode(idleTicks, objects, supportsDelta)])) <==>
        && config.enableDelta && supportsDelta
        && history != [] && history[|history| - 1] != WasReset
        && Trailing(Snapshots(history)) + 1 < config.fullEvery
  {
    RunStep(config, canon, events, Encode(idleTicks, objects, supportsDelta));
    BaselineRun(config, canon, events);
    CadenceRun(config, canon, events);
  }

  /** A client that holds the newest committed snapshot keeps up with the next one it gets; so does any client
      after a reset. */
  lemma KeepsUp(
    config: Config, canon: Json -> Json, events: seq<Event>, idleTicks: nat, objects: Objects, supportsDelta: bool)
    requires Idempotent(canon) && Run(config, canon, events).draft.None?
    requires var s := Run(config, canon, events);
      || s.history == [] || s.history[|s.history| - 1] == WasReset
      || (s.world.Some? && forall t <- s.committed :: t <= s.world.value.tick)
    ensures var s := Run(config, canon, events);
      var t := Run(config, canon,
                   events + [Encode(idleTicks, objects, supportsDelta)] + [Commit] + [Deliver(|s.network|)]);
      t.world.Some? && t.world.value.tick == s.tick + idleTicks + 1
      && Clone(canon, t.world.value.objects) == Clone(canon, objects)
  {
    var encode, deliver := Encode(idleTicks, objects, supportsDelta), Deliver(|Run(config, canon, events).network|);
    RunStep(config, canon, events, encode);
    RunStep(config, canon, events + [encode], Commit);
    RunStep(config, canon, events + [encode] + [Commit], deliver);
    BaselineRun(config, canon, events);
    Reconstruction(config, canon, events);
    KeepsUpOnce(config, canon, Run(config, canon, events), idleTicks, objects, supportsDelta);
  }

  lemma KeepsUpOnce(
    config: Config, canon: Json -> Json, s: State, idleTicks: nat, objects: Objects, supportsDelta: bool)
    requires Idempotent(canon) && s.draft.None? && Inv(canon, s) && BaselineInv(config, s)
    requires s.history == [] || EndsInReset(s.history)
          || (s.world.Some? && forall t <- s.committed :: t <= s.world.value.tick)
    ensures var encoded := Apply(config, canon, s, Encode(idleTicks, objects, supportsDelta));
      var world := Apply(config, canon, Apply(config, canon, encoded, Commit), Deliver(|s.network|)).world;
      && world.Some? && world.value.tick == s.tick + idleTicks + 1
      && Clone(canon, world.value.objects) == Clone(canon, objects)
  {
    var encoded := Apply(config, canon, s, Encode(idleTicks, objects, supportsDelta));
    var committed := Apply(config, canon, encoded, Commit);
    var message := encoded.draft.value.message;
    StepKeeps(config, canon, s, Encode(idleTicks, objects, supportsDelta));
    CommitKeeps(config, canon, encoded);
    assert committed.network[|s.network|] == message;
    assert committed.committed[message.tick] == objects;
    TakeOverKeeps(canon, committed.committed, s.world, message);
    assert message.Incremental? ==> s.world.value.tick == message.baselineTick;
  }

  /** Where deltas are enabled at all, the third snapshot can be one. */
  lemma DeltaIsReachable(config: Config, canon: Json -> Json, objects: Objects)
    requires config.enableDelta && config.fullEvery >= 2
    ensures DraftsDelta(Run(config, canon, [Encode(0, objects, true)] + [Commit] + [Encode(0, objects, true)]))
  {
    var encode := Encode(0, objects, true);
    assert [] + [encode] == [encode];
    RunStep(config, canon, [], encode);
    RunStep(config, canon, [encode], Commit);
    RunStep(config, canon, [encode] + [Commit], encode);
  }

  /** Every reachable state with a delta encoded is one reset and one commit away from the race. */
  lemma ResetRace(config: Config, canon: Json -> Json, events: seq<Event>)
    requires DraftsDelta(Run(config, canon, events))
    ensures !DeltasFollowSnapshots(Run(config, canon, events + [Reset] + [Commit]).history)
  {
    RunStep(config, canon, events, Reset);
    RunStep(config, canon, events + [Reset], Commit);
    var history := Run(config, canon, events).history;
    FollowsStep(history + [WasReset], SentDelta);
  }

  // ----- the code -----

  /** The server's table of baselines, one per connection. */
  class BaselineTable {
    const config: Config
    var snapshotBaselines: map<Str, Baseline>

    constructor (config: Config)
      ensures this.config == config && snapshotBaselines == map[]
    {
      this.config := config;
      snapshotBaselines := map[];
    }

    ghost function View(connection: Str): Option<Baseline>
      reads this
    {
      if connection in snapshotBaselines then Some(snapshotBaselines[connection]) else None
    }

    /** The kind of the next snapshot, as `encodeUDPSnapshot` chooses it. */
    method NextIsDelta(connection: Str, supportsDelta: bool) returns (delta: bool)
      ensures delta == SendsDelta(config, View(connection), supportsDelta)
    {
      delta := false;
      if config.enableDelta && connection in snapshotBaselines {
        var baseline := snapshotBaselines[connection];
        if config.fullEvery > 1 && baseline.sinceFull + 1 < config.fullEvery && supportsDelta {
          delta := true;
        }
      }
    }

    method CommitSnapshotBaseline(canon: Json -> Json, connection: Str, draft: Draft)
      modifies this
      ensures View(connection) == CommitBaseline(config, canon, old(View(connection)), draft)
      ensures forall other :: other != connection ==> View(other) == old(View(other))
    {
      if !config.enableDelta {
        return;
      }
      var sinceFull := 0;
      if draft.message.Incremental? && connection in snapshotBaselines {
        sinceFull := snapshotBaselines[connection].sinceFull + 1;
      }
      snapshotBaselines :=
        snapshotBaselines[connection := Baseline(draft.message.tick, Clone(canon, draft.objects), sinceFull)];
    }

    method ResetSnapshotBaseline(connection: Str)
      modifies this
      ensures View(connection) == None
      ensures forall other :: other != connection ==> View(other) == old(View(other))
    {
      snapshotBaselines := snapshotBaselines - {connection};
    }
  }
}
