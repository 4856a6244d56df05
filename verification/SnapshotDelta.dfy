/** Snapshot deltas: `BuildSnapshotDelta`, `CloneSnapshotData` and `snapshotValuesEqual`. A snapshot
    value is its JSON text, which is all that the comparison looks at; cloning re-marshals the text. */
module SnapshotDelta {
  import opened Wire
  import opened Sorting

  type Json = seq<byte>
  type Snapshot = map<Str, map<Str, Json>>

  datatype Ref = Ref(objectType: Str, objectId: Str)

  /** The objects of a snapshot; a type without objects contributes none. */
  type Objects = map<Ref, Json>

  /** The content of a `SnapshotDelta`. */
  datatype Delta = Delta(spawned: Objects, changed: Objects, despawned: seq<Ref>)

  predicate In(snapshot: Snapshot, ref: Ref) {
    ref.objectType in snapshot && ref.objectId in snapshot[ref.objectType]
  }

  function At(snapshot: Snapshot, ref: Ref): Json
    requires In(snapshot, ref)
  {
    snapshot[ref.objectType][ref.objectId]
  }

  ghost predicate IsFlat(snapshot: Snapshot, objects: Objects) {
    forall r: Ref :: (r in objects <==> In(snapshot, r)) && (In(snapshot, r) ==> objects[r] == At(snapshot, r))
  }

  ghost function Flat(snapshot: Snapshot): (objects: Objects)
    ensures IsFlat(snapshot, objects)
  {
    assert IsFlat(snapshot, map t, i | t in snapshot && i in snapshot[t] :: Ref(t, i) := snapshot[t][i]);
    var objects :| IsFlat(snapshot, objects);
    objects
  }

  predicate NoEmptyGroups(snapshot: Snapshot) {
    forall t <- snapshot :: snapshot[t] != map[]
  }

  /** `addSnapshotObject` */
  function Add(snapshot: Snapshot, ref: Ref, value: Json): Snapshot {
    var group := if ref.objectType in snapshot then snapshot[ref.objectType] else map[];
    snapshot[ref.objectType := group[ref.objectId := value]]
  }

  predicate RefLess(a: Ref, b: Ref) {
    if a.objectType == b.objectType then StrLess(a.objectId, b.objectId)
    else StrLess(a.objectType, b.objectType)
  }

  // ----- what a delta says, and what applying it does -----

  function SpawnedOf(previous: Objects, current: Objects): Objects {
    map r | r in current && r !in previous :: current[r]
  }

  function ChangedOf(previous: Objects, current: Objects): Objects {
    map r | r in current && r in previous && previous[r] != current[r] :: current[r]
  }

  ghost predicate IsDelta(previous: Objects, current: Objects, delta: Delta) {
    && delta.spawned == SpawnedOf(previous, current)
    && delta.changed == ChangedOf(previous, current)
    && ElementSet(delta.despawned) == previous.Keys - current.Keys
    && Ascending(delta.despawned, RefLess)
  }

  function ApplyParts(held: Objects, gone: set<Ref>, spawned: Objects, changed: Objects): Objects {
    held - gone + spawned + changed
  }

  ghost function ApplyDelta(held: Objects, delta: Delta): Objects {
    ApplyParts(held, ElementSet(delta.despawned), delta.spawned, delta.changed)
  }

  lemma PartsGiveCurrent(held: Objects, previous: Objects, current: Objects)
    requires held.Keys == previous.Keys
    ensures var spawned, changed := SpawnedOf(previous, current), ChangedOf(previous, current);
      var r := ApplyParts(held, previous.Keys - current.Keys, spawned, changed);
      && r.Keys == current.Keys
      && forall k <- current ::
           r[k] == if k in previous && previous[k] == current[k] then held[k] else current[k]
  {
  }

  /** Applied to its own baseline, a delta gives the current snapshot. */
  lemma DeltaGivesCurrent(previous: Objects, current: Objects, delta: Delta)
    requires IsDelta(previous, current, delta)
    ensures ApplyDelta(previous, delta) == current
    ensures delta.spawned.Keys !! delta.changed.Keys !! ElementSet(delta.despawned)
  {
    PartsGiveCurrent(previous, previous, current);
    PartsDisjoint(previous, current);
  }

  lemma PartsDisjoint(previous: Objects, current: Objects)
    ensures SpawnedOf(previous, current).Keys !! ChangedOf(previous, current).Keys !! (previous.Keys - current.Keys)
  {
  }

  /** On snapshots without empty groups, the objects determine the snapshot. */
  lemma FlatInjective(a: Snapshot, b: Snapshot)
    requires NoEmptyGroups(a) && NoEmptyGroups(b) && Flat(a) == Flat(b)
    ensures a == b
  {
    GroupsAgree(a, b);
    GroupsAgree(b, a);
    assert a.Keys == b.Keys;
    forall t <- a
      ensures a[t] == b[t]
    {
      assert forall i <- a[t] :: i in b[t] && b[t][i] == a[t][i];
      assert forall i <- b[t] :: i in a[t];
    }
  }

  lemma GroupsAgree(a: Snapshot, b: Snapshot)
    requires NoEmptyGroups(a) && Flat(a) == Flat(b)
    ensures forall t <- a :: t in b && forall i <- a[t] :: i in b[t] && b[t][i] == a[t][i]
  {
    forall t <- a
      ensures t in b && forall i <- a[t] :: i in b[t] && b[t][i] == a[t][i]
    {
      forall i <- a[t]
        ensures t in b && i in b[t] && b[t][i] == a[t][i]
      {
        assert Ref(t, i) in Flat(a);
        assert Ref(t, i) in Flat(b);
      }
      var i :| i in a[t];
    }
  }

  /** The delta between two snapshots; its content leaves no choice. */
  ghost function DeltaOf(previous: Objects, current: Objects): (delta: Delta)
    ensures IsDelta(previous, current, delta)
  {
    RefTotal();
    Delta(SpawnedOf(previous, current), ChangedOf(previous, current), Sorted(previous.Keys - current.Keys, RefLess))
  }

  lemma DeltaUnique(previous: Objects, current: Objects, delta: Delta)
    requires IsDelta(previous, current, delta)
    ensures delta == DeltaOf(previous, current)
  {
    RefTotal();
    AscendingUnique(delta.despawned, DeltaOf(previous, current).despawned, RefLess);
  }

  /** What a delta contains, object by object: nothing that is the same in both snapshots, and everything
      else once. What is gone is listed by ascending type, and by ascending id within a type. */
  lemma DeltaContents(previous: Objects, current: Objects, r: Ref)
    ensures var delta := DeltaOf(previous, current);
      && (r in delta.spawned <==> r in current && r !in previous)
      && (r in delta.changed <==> r in current && r in previous && previous[r] != current[r])
      && (r in delta.despawned <==> r in previous && r !in current)
      && (r in delta.spawned ==> delta.spawned[r] == current[r])
      && (r in delta.changed ==> delta.changed[r] == current[r])
      && forall i, j :: 0 <= i < j < |delta.despawned| ==>
           var a, b := delta.despawned[i], delta.despawned[j];
           StrLess(a.objectType, b.objectType) || (a.objectType == b.objectType && StrLess(a.objectId, b.objectId))
  {
    var delta := DeltaOf(previous, current);
    assert r in delta.despawned <==> r in ElementSet(delta.despawned);
    assert forall i, j :: 0 <= i < j < |delta.despawned| ==> RefLess(delta.despawned[i], delta.despawned[j]);
  }

  // ----- through the clone -----

  /** `canon` is what marshalling a text's value again gives; doing so twice changes nothing more. */
  ghost predicate Idempotent(canon: Json -> Json) {
    forall t :: canon(canon(t)) == canon(t)
  }

  /** `CloneSnapshotData` on objects. */
  function Clone(canon: Json -> Json, objects: Objects): Objects {
    map r | r in objects :: canon(objects[r])
  }

  /** The server compares with a clone of what it sent, the client holds what was sent. A client that
      agrees with the clone still agrees with the current snapshot after applying the delta. */
  lemma DeltaThroughClone(canon: Json -> Json, held: Objects, baseline: Objects, current: Objects, delta: Delta)
    requires Idempotent(canon)
    requires Clone(canon, held) == baseline
    requires IsDelta(baseline, current, delta)
    ensures Clone(canon, ApplyDelta(held, delta)) == Clone(canon, current)
  {
    assert held.Keys == Clone(canon, held).Keys;
    PartsGiveCurrent(held, baseline, current);
    var result := ApplyDelta(held, delta);
    forall r <- current
      ensures canon(result[r]) == canon(current[r])
    {
      if r in baseline && baseline[r] == current[r] {
        assert canon(held[r]) == baseline[r];
        assert canon(canon(held[r])) == canon(held[r]);
      }
    }
  }

  // ----- the code -----

  lemma InAdd(snapshot: Snapshot, ref: Ref, value: Json)
    ensures forall r: Ref :: In(Add(snapshot, ref, value), r) <==> In(snapshot, r) || r == ref
    ensures forall r: Ref :: In(Add(snapshot, ref, value), r) ==>
      At(Add(snapshot, ref, value), r) == if r == ref then value else At(snapshot, r)
  {
  }

  lemma RefTotal()
    ensures StrictTotal(RefLess)
  {
    StrTotal();
    forall a: Ref, b: Ref, c: Ref | RefLess(a, b) && RefLess(b, c)
      ensures RefLess(a, c)
    {
      if a.objectType == b.objectType == c.objectType {
        StrTransitive(a.objectId, b.objectId, c.objectId);
      } else if a.objectType != b.objectType && b.objectType != c.objectType {
        StrTransitive(a.objectType, b.objectType, c.objectType);
      }
    }
    forall a: Ref, b: Ref
      ensures !RefLess(a, a) && (a == b || RefLess(a, b) || RefLess(b, a))
    {
      StrConnected(a.objectId, b.objectId);
      StrConnected(a.objectType, b.objectType);
    }
  }

  method BuildSnapshotDelta(previous: Snapshot, current: Snapshot)
    returns (spawned: Snapshot, changed: Snapshot, despawned: seq<Ref>)
    ensures IsDelta(Flat(previous), Flat(current), Delta(Flat(spawned), Flat(changed), despawned))
  {
    spawned, changed := CompareWithPrevious(previous, current);
    despawned := CollectDespawned(previous, current);
  }

  predicate Spawns(previous: Snapshot, current: Snapshot, ref: Ref) {
    In(current, ref) && !In(previous, ref)
  }

  predicate Changes(previous: Snapshot, current: Snapshot, ref: Ref) {
    In(current, ref) && In(previous, ref) && At(previous, ref) != At(current, ref)
  }

  /** Every object of `part` has its value in `current`. */
  ghost predicate Copies(part: Snapshot, current: Snapshot) {
    forall r: Ref :: In(part, r) ==> In(current, r) && At(part, r) == At(current, r)
  }

  method CompareWithPrevious(previous: Snapshot, current: Snapshot) returns (spawned: Snapshot, changed: Snapshot)
    ensures Flat(spawned) == SpawnedOf(Flat(previous), Flat(current))
    ensures Flat(changed) == ChangedOf(Flat(previous), Flat(current))
  {
    spawned, changed := map[], map[];
    var types := current.Keys;
    while types != {}
      invariant types <= current.Keys
      invariant Copies(spawned, current) && Copies(changed, current)
      invariant forall r: Ref :: In(spawned, r) <==> Spawns(previous, current, r) && r.objectType !in types
      invariant forall r: Ref :: In(changed, r) <==> Changes(previous, current, r) && r.objectType !in types
      decreases |types|
    {
      var objectType :| objectType in types;
      types := types - {objectType};
      var before := if objectType in previous then previous[objectType] else map[];
      var ids := current[objectType].Keys;
      while ids != {}
        invariant ids <= current[objectType].Keys
        invariant Copies(spawned, current) && Copies(changed, current)
        invariant forall r: Ref :: In(spawned, r) <==>
          Spawns(previous, current, r) && r.objectType !in types && !(r.objectType == objectType && r.objectId in ids)
        invariant forall r: Ref :: In(changed, r) <==>
          Changes(previous, current, r) && r.objectType !in types && !(r.objectType == objectType && r.objectId in ids)
        decreases |ids|
      {
        var id :| id in ids;
        ids := ids - {id};
        var ref, value := Ref(objectType, id), current[objectType][id];
        assert In(current, ref) && At(current, ref) == value;
        if id !in before {
          InAdd(spawned, ref, value);
          spawned := Add(spawned, ref, value);
        } else if before[id] != value {
          InAdd(changed, ref, value);
          changed := Add(changed, ref, value);
        }
      }
    }
    FlatSpawned(previous, current, spawned);
    FlatChanged(previous, current, changed);
  }

  lemma FlatSpawned(previous: Snapshot, current: Snapshot, spawned: Snapshot)
    requires Copies(spawned, current) && forall r: Ref :: In(spawned, r) <==> Spawns(previous, current, r)
    ensures Flat(spawned) == SpawnedOf(Flat(previous), Flat(current))
  {
    var s := SpawnedOf(Flat(previous), Flat(current));
    assert forall r: Ref :: r in Flat(spawned) <==> r in s;
    assert forall r: Ref :: r in s ==> Flat(spawned)[r] == s[r];
  }

  lemma FlatChanged(previous: Snapshot, current: Snapshot, changed: Snapshot)
    requires Copies(changed, current) && forall r: Ref :: In(changed, r) <==> Changes(previous, current, r)
    ensures Flat(changed) == ChangedOf(Flat(previous), Flat(current))
  {
    var c := ChangedOf(Flat(previous), Flat(current));
    assert forall r: Ref :: r in Flat(changed) <==> r in c;
    assert forall r: Ref :: r in c ==> Flat(changed)[r] == c[r];
  }

  method CollectDespawned(previous: Snapshot, current: Snapshot) returns (despawned: seq<Ref>)
    ensures ElementSet(despawned) == Flat(previous).Keys - Flat(current).Keys
    ensures Ascending(despawned, RefLess)
  {
    RefTotal();
    despawned := [];
    var types := previous.Keys;
    while types != {}
      invariant types <= previous.Keys
      invariant Ascending(despawned, RefLess)
      invariant forall r: Ref :: r in ElementSet(despawned) <==>
        In(previous, r) && !In(current, r) && r.objectType !in types
      decreases |types|
    {
      var objectType :| objectType in types;
      types := types - {objectType};
      var ids := previous[objectType].Keys;
      while ids != {}
        invariant ids <= previous[objectType].Keys
        invariant Ascending(despawned, RefLess)
        invariant forall r: Ref :: r in ElementSet(despawned) <==>
          In(previous, r) && !In(current, r) && r.objectType !in types
          && !(r.objectType == objectType && r.objectId in ids)
        decreases |ids|
      {
        var id :| id in ids;
        ids := ids - {id};
        if !(objectType in current && id in current[objectType]) {
          despawned := InsertSorted(despawned, RefLess, Ref(objectType, id));
        }
      }
    }
  }
}
