/** What one client sees: `SnapshotForClient` with scene filtering and interest filtering. Reading a
    position out of an object's value is a parameter (`locate`). */
module SnapshotView {
  import opened Wire
  import opened Sorting
  import opened SnapshotDelta
  import opened Interest
  import opened Wrappers

  /** A registered object: its trimmed identity, its value, and `SnapshotVisible`. */
  datatype Obj = Obj(objectType: Str, objectId: Str, value: Json, shown: bool)

  datatype Scenes = Scenes(enabled: bool, clients: map<Str, Str>, objects: map<Str, Str>)

  datatype Interests = Interests(enabled: bool, players: map<Str, InterestConfig>, objects: map<Str, InterestConfig>)

  type Locate = (Json, InterestConfig) -> Option<Position>

  const SLASH: byte := 0x2F
  const SCENE_GLOBAL: Str := [0x2A]

  function ObjectKey(objectType: Str, objectId: Str): Str {
    objectType + [SLASH] + objectId
  }

  // ----- scenes -----

  function ClientScene(scenes: Scenes, clientId: Str): Option<Str> {
    if scenes.enabled && clientId in scenes.clients then Some(scenes.clients[clientId]) else None
  }

  predicate SceneShows(scenes: Scenes, clientScene: Option<Str>, objectType: Str, objectId: Str) {
    var key := ObjectKey(objectType, objectId);
    || !scenes.enabled || clientScene.None? || key !in scenes.objects
    || scenes.objects[key] == SCENE_GLOBAL || scenes.objects[key] == clientScene.value
  }

  predicate HasIdentity(o: Obj) {
    o.objectType != [] && o.objectId != []
  }

  predicate SceneVisible(scenes: Scenes, clientScene: Option<Str>, o: Obj) {
    o.shown && HasIdentity(o) && SceneShows(scenes, clientScene, o.objectType, o.objectId)
  }

  /** `snapshotFromObjectsForClient`; a later object replaces an earlier one of the same identity. */
  function SceneSnapshot(scenes: Scenes, clientScene: Option<Str>, objects: seq<Obj>): Objects {
    if objects == [] then map[]
    else
      var before := SceneSnapshot(scenes, clientScene, objects[..|objects| - 1]);
      var o := objects[|objects| - 1];
      if SceneVisible(scenes, clientScene, o) then before[Ref(o.objectType, o.objectId) := o.value] else before
  }

  // ----- interest metadata -----

  function ConfigOf(interests: Interests, key: Str): Option<InterestConfig> {
    if key in interests.players then Some(interests.players[key])
    else if key in interests.objects then Some(interests.objects[key])
    else None
  }

  const NOWHERE: Position := Position(0.0, 0.0, 0.0, false)
  const NO_CONFIG: InterestConfig := InterestConfig([], [], [], 0.0, false)

  function EntryOf(
    scenes: Scenes, clientScene: Option<Str>, interests: Interests, player: InterestConfig, locate: Locate, o: Obj)
    : Entry
  {
    var key := ObjectKey(o.objectType, o.objectId);
    var config := ConfigOf(interests, key);
    var own := if config.Some? then locate(o.value, config.value) else None;
    var isPlayer := o.objectType == player.objectType && o.objectId == player.objectId;
    var position := if own.None? && isPlayer then locate(o.value, player) else own;
    Entry(o.objectType, o.objectId, key, o.value,
          o.shown && SceneShows(scenes, clientScene, o.objectType, o.objectId),
          config.Some?, if config.Some? then config.value else NO_CONFIG,
          if position.Some? then position.value else NOWHERE, position.Some?)
  }

  function EntriesOf(
    scenes: Scenes, clientScene: Option<Str>, interests: Interests, player: InterestConfig, locate: Locate,
    objects: seq<Obj>): seq<Entry>
  {
    if objects == [] then []
    else
      var before := EntriesOf(scenes, clientScene, interests, player, locate, objects[..|objects| - 1]);
      var o := objects[|objects| - 1];
      if HasIdentity(o) then before + [EntryOf(scenes, clientScene, interests, player, locate, o)] else before
  }

  // ----- the filtered snapshot -----

  function RefOf(e: Entry): Ref {
    Ref(e.objectType, e.objectId)
  }

  predicate Kept(keys: set<Str>, e: Entry) {
    e.visible && (e.managed ==> e.key in keys)
  }

  /** The snapshot of the entries that `all` or `keys` lets through. */
  function Collect(entries: seq<Entry>, all: bool, keys: set<Str>): Objects {
    if entries == [] then map[]
    else
      var before := Collect(entries[..|entries| - 1], all, keys);
      var e := entries[|entries| - 1];
      if (if all then e.visible else Kept(keys, e)) then before[RefOf(e) := e.snapshot] else before
  }

  /** An object that distance, or being the client's own player, takes out of the snapshot. */
  predicate OutOfInterest(e: Entry, player: InterestConfig, origin: Position) {
    && e.managed
    && if IsSelf(e, player) then !e.config.includeSelf
       else e.hasPosition && Filters(EffectiveRadius(player, e.config))
            && !Within(origin, e.position, EffectiveRadius(player, e.config))
  }

  /** Entries of one identity share their key and whether they are managed. */
  ghost predicate Uniform(entries: seq<Entry>) {
    forall e <- entries, f <- entries :: RefOf(e) == RefOf(f) ==> e.key == f.key && e.managed == f.managed
  }

  lemma {:induction false} EntriesUniform(
    scenes: Scenes, clientScene: Option<Str>, interests: Interests, player: InterestConfig, locate: Locate,
    objects: seq<Obj>)
    ensures var entries := EntriesOf(scenes, clientScene, interests, player, locate, objects);
      forall e <- entries ::
        && e.key == ObjectKey(e.objectType, e.objectId)
        && e.managed == ConfigOf(interests, e.key).Some?
  {
    if objects != [] {
      EntriesUniform(scenes, clientScene, interests, player, locate, objects[..|objects| - 1]);
    }
  }

  /** The scene-filtered snapshot is the one that all visible entries make. */
  lemma {:induction false} SceneIsCollect(
    scenes: Scenes, clientScene: Option<Str>, interests: Interests, player: InterestConfig, locate: Locate,
    objects: seq<Obj>)
    ensures Collect(EntriesOf(scenes, clientScene, interests, player, locate, objects), true, {})
         == SceneSnapshot(scenes, clientScene, objects)
  {
    if objects != [] {
      SceneIsCollect(scenes, clientScene, interests, player, locate, objects[..|objects| - 1]);
      var before := EntriesOf(scenes, clientScene, interests, player, locate, objects[..|objects| - 1]);
      var o := objects[|objects| - 1];
      if HasIdentity(o) {
        assert (before + [EntryOf(scenes, clientScene, interests, player, locate, o)])[..|before|] == before;
      }
    }
  }

  predicate PutsAt(e: Entry, all: bool, keys: set<Str>, ref: Ref) {
    RefOf(e) == ref && if all then e.visible else Kept(keys, e)
  }

  /** Some entry puts `ref` into the snapshot. */
  ghost predicate Puts(entries: seq<Entry>, all: bool, keys: set<Str>, ref: Ref) {
    exists i :: 0 <= i < |entries| && PutsAt(entries[i], all, keys, ref)
  }

  lemma {:induction false} CollectMeaning(entries: seq<Entry>, all: bool, keys: set<Str>, ref: Ref)
    ensures ref in Collect(entries, all, keys) <==> Puts(entries, all, keys, ref)
  {
    if entries != [] {
      var before := entries[..|entries| - 1];
      CollectMeaning(before, all, keys, ref);
      if Puts(before, all, keys, ref) {
        var i :| 0 <= i < |before| && PutsAt(before[i], all, keys, ref);
        assert entries[i] == before[i];
      }
      if Puts(entries, all, keys, ref) {
        var i :| 0 <= i < |entries| && PutsAt(entries[i], all, keys, ref);
        assert i < |before| ==> before[i] == entries[i];
      }
    }
  }

  /** The filtered snapshot is a same-valued part of the scene snapshot. */
  lemma {:induction false} CollectIsPart(entries: seq<Entry>, keys: set<Str>, ref: Ref)
    requires Uniform(entries) && ref in Collect(entries, false, keys)
    ensures ref in Collect(entries, true, {}) && Collect(entries, true, {})[ref] == Collect(entries, false, keys)[ref]
  {
    var before, e := entries[..|entries| - 1], entries[|entries| - 1];
    CollectMeaning(entries, false, keys, ref);
    var i :| 0 <= i < |entries| && RefOf(entries[i]) == ref && Kept(keys, entries[i]);
    if RefOf(e) == ref {
      assert e in entries && entries[i] in entries;
      assert Kept(keys, e) <==> e.visible;
    }
    if !(RefOf(e) == ref && e.visible) {
      assert ref in Collect(before, false, keys);
      assert Uniform(before);
      CollectIsPart(before, keys, ref);
    }
  }

  /** Distance, or being the client's own player, is why `ref` is not in the snapshot. */
  ghost predicate MissesForInterest(entries: seq<Entry>, player: InterestConfig, origin: Position, ref: Ref) {
    && Puts(entries, true, {}, ref)
    && forall i :: 0 <= i < |entries| && entries[i].visible && RefOf(entries[i]) == ref ==>
         OutOfInterest(entries[i], player, origin)
  }

  /** The characterisation of a client's snapshot: a same-valued part of the scene snapshot, from which
      an object is missing only if it is out of interest. */
  lemma SnapshotCharacterised(entries: seq<Entry>, player: InterestConfig, origin: Position)
    requires Uniform(entries)
    ensures var keys := LinearKeys(entries, player, origin);
      var scene, seen := Collect(entries, true, {}), Collect(entries, false, keys);
      && (forall r <- seen :: r in scene && seen[r] == scene[r])
      && (forall r <- scene :: r !in seen ==> MissesForInterest(entries, player, origin, r))
  {
    var keys := LinearKeys(entries, player, origin);
    var scene, seen := Collect(entries, true, {}), Collect(entries, false, keys);
    forall r <- seen
      ensures r in scene && seen[r] == scene[r]
    {
      CollectIsPart(entries, keys, r);
    }
    forall r <- scene | r !in seen
      ensures MissesForInterest(entries, player, origin, r)
    {
      CollectMeaning(entries, true, {}, r);
      CollectMeaning(entries, false, keys, r);
    }
  }

  /** The converse, where keys tell identities apart (no type contains a slash) and no identity is
      registered twice: an object out of interest is missing. */
  lemma OutOfInterestIsMissing(entries: seq<Entry>, player: InterestConfig, origin: Position, i: nat)
    requires i < |entries| && OutOfInterest(entries[i], player, origin)
    requires forall j :: 0 <= j < |entries| && entries[j].key == entries[i].key ==> j == i
    requires forall j :: 0 <= j < |entries| && RefOf(entries[j]) == RefOf(entries[i]) ==> j == i
    ensures RefOf(entries[i]) !in Collect(entries, false, LinearKeys(entries, player, origin))
  {
    CollectMeaning(entries, false, LinearKeys(entries, player, origin), RefOf(entries[i]));
  }

  // ----- what a client sees, told from the registrations -----

  predicate Names(o: Obj, r: Ref) {
    o.objectType == r.objectType && o.objectId == r.objectId && r.objectType != [] && r.objectId != []
  }

  /** The object is in the client's scene, or in every scene ("*"), or scenes do not matter for one of them. The
      object is registered under its type and id with a slash between. */
  predicate InScene(scenes: Scenes, clientId: Str, o: Obj) {
    var key := o.objectType + [0x2F] + o.objectId;
    scenes.enabled && clientId in scenes.clients && key in scenes.objects ==>
      scenes.objects[key] == [0x2A] || scenes.objects[key] == scenes.clients[clientId]
  }

  predicate Shows(scenes: Scenes, clientId: Str, o: Obj, r: Ref) {
    Names(o, r) && o.shown && InScene(scenes, clientId, o)
  }

  /** Exactly which objects are in the scene-filtered snapshot: an object of another scene is missing. */
  lemma {:induction false} SceneMeaning(scenes: Scenes, clientId: Str, objects: seq<Obj>, r: Ref)
    ensures r in SceneSnapshot(scenes, ClientScene(scenes, clientId), objects)
       <==> exists o <- objects :: Shows(scenes, clientId, o, r)
  {
    if objects != [] {
      var before, last := objects[..|objects| - 1], objects[|objects| - 1];
      SceneMeaning(scenes, clientId, before, r);
      assert objects == before + [last];
      SceneStep(scenes, clientId, objects, r);
    }
  }

  lemma SceneStep(scenes: Scenes, clientId: Str, objects: seq<Obj>, r: Ref)
    requires objects != []
    ensures var clientScene, last := ClientScene(scenes, clientId), objects[|objects| - 1];
      var before, after := SceneSnapshot(scenes, clientScene, objects[..|objects| - 1]),
                           SceneSnapshot(scenes, clientScene, objects);
      if Shows(scenes, clientId, last, r) then r in after && after[r] == last.value
      else (r in after <==> r in before) && (r in after ==> after[r] == before[r])
  {
  }

  /** An identity registered more than once has the value of its last object shown. */
  lemma {:induction false} SceneValue(scenes: Scenes, clientId: Str, objects: seq<Obj>, r: Ref, i: nat)
    requires i < |objects| && Shows(scenes, clientId, objects[i], r)
    requires forall j :: i < j < |objects| ==> !Shows(scenes, clientId, objects[j], r)
    ensures var snapshot := SceneSnapshot(scenes, ClientScene(scenes, clientId), objects);
      r in snapshot && snapshot[r] == objects[i].value
  {
    SceneStep(scenes, clientId, objects, r);
    if i < |objects| - 1 {
      SceneValue(scenes, clientId, objects[..|objects| - 1], r, i);
    }
  }

  /** What the registration `config` of this object says: the client's own object is seen if it asks for it,
      another if it has no position, or no radius applies, or it is near enough. */
  predicate NearEnough(viewer: InterestConfig, origin: Position, config: InterestConfig, locate: Locate, o: Obj) {
    var radius := if viewer.radius > 0.0 then viewer.radius else config.radius;
    if o.objectType == viewer.objectType && o.objectId == viewer.objectId then config.includeSelf
    else
      var at := locate(o.value, config);
      at.None? || radius <= 0.0 || SquaredDistance(origin, at.value) <= radius * radius
  }

  /** A registration as a player counts before one as an object. */
  predicate Interesting(interests: Interests, viewer: InterestConfig, origin: Position, locate: Locate, o: Obj) {
    var key := o.objectType + [0x2F] + o.objectId;
    if key in interests.players then NearEnough(viewer, origin, interests.players[key], locate, o)
    else key in interests.objects && NearEnough(viewer, origin, interests.objects[key], locate, o)
  }

  /** The object is shown in the client's scene, and is registered for no interest or near enough; what counts
      is that some object of its registered name is. */
  ghost predicate Seen(
    scenes: Scenes, clientId: Str, interests: Interests, viewer: InterestConfig, origin: Position, locate: Locate,
    objects: seq<Obj>, r: Ref)
  {
    var key := r.objectType + [0x2F] + r.objectId;
    && (exists o <- objects :: Shows(scenes, clientId, o, r))
    && (key in interests.players || key in interests.objects ==>
          exists o <- objects ::
            Shows(scenes, clientId, o, Ref(o.objectType, o.objectId)) && o.objectType + [0x2F] + o.objectId == key
            && Interesting(interests, viewer, origin, locate, o))
  }

  lemma {:induction false} EntriesMeaning(
    scenes: Scenes, clientScene: Option<Str>, interests: Interests, player: InterestConfig, locate: Locate,
    objects: seq<Obj>)
    ensures var entries := EntriesOf(scenes, clientScene, interests, player, locate, objects);
      && (forall o <- objects :: HasIdentity(o) ==>
            EntryOf(scenes, clientScene, interests, player, locate, o) in entries)
      && (forall e <- entries :: exists o <- objects ::
            HasIdentity(o) && e == EntryOf(scenes, clientScene, interests, player, locate, o))
  {
    if objects != [] {
      var before, last := objects[..|objects| - 1], objects[|objects| - 1];
      EntriesMeaning(scenes, clientScene, interests, player, locate, before);
      assert objects == before + [last];
    }
  }

  lemma EntryMeaning(
    scenes: Scenes, clientId: Str, interests: Interests, viewer: InterestConfig, origin: Position, locate: Locate,
    o: Obj)
    ensures var e := EntryOf(scenes, ClientScene(scenes, clientId), interests, viewer, locate, o);
      var key := o.objectType + [0x2F] + o.objectId;
      && e.key == key && RefOf(e) == Ref(o.objectType, o.objectId)
      && (e.visible <==> o.shown && InScene(scenes, clientId, o))
      && (e.managed <==> key in interests.players || key in interests.objects)
      && (e.managed ==> (Sees(viewer, origin, e) <==> Interesting(interests, viewer, origin, locate, o)))
  {
  }

  /** What the client of a positioned player sees, object by object. */
  lemma ClientSees(
    scenes: Scenes, clientId: Str, interests: Interests, viewer: InterestConfig, origin: Position, locate: Locate,
    objects: seq<Obj>, r: Ref)
    ensures var entries := EntriesOf(scenes, ClientScene(scenes, clientId), interests, viewer, locate, objects);
      r in Collect(entries, false, LinearKeys(entries, viewer, origin))
      <==> Seen(scenes, clientId, interests, viewer, origin, locate, objects, r)
  {
    if Seen(scenes, clientId, interests, viewer, origin, locate, objects, r) {
      SeenIsKept(scenes, clientId, interests, viewer, origin, locate, objects, r);
    }
    var entries := EntriesOf(scenes, ClientScene(scenes, clientId), interests, viewer, locate, objects);
    if r in Collect(entries, false, LinearKeys(entries, viewer, origin)) {
      KeptIsSeen(scenes, clientId, interests, viewer, origin, locate, objects, r);
    }
  }

  lemma KeptIsSeen(
    scenes: Scenes, clientId: Str, interests: Interests, viewer: InterestConfig, origin: Position, locate: Locate,
    objects: seq<Obj>, r: Ref)
    requires var entries := EntriesOf(scenes, ClientScene(scenes, clientId), interests, viewer, locate, objects);
      r in Collect(entries, false, LinearKeys(entries, viewer, origin))
    ensures Seen(scenes, clientId, interests, viewer, origin, locate, objects, r)
  {
    var entries := EntriesOf(scenes, ClientScene(scenes, clientId), interests, viewer, locate, objects);
    var keys := LinearKeys(entries, viewer, origin);
    CollectMeaning(entries, false, keys, r);
    EntriesMeaning(scenes, ClientScene(scenes, clientId), interests, viewer, locate, objects);
    var i :| 0 <= i < |entries| && PutsAt(entries[i], false, keys, r);
    assert entries[i] in entries;
    var o :| o in objects && HasIdentity(o)
      && entries[i] == EntryOf(scenes, ClientScene(scenes, clientId), interests, viewer, locate, o);
    EntryMeaning(scenes, clientId, interests, viewer, origin, locate, o);
    assert Shows(scenes, clientId, o, r);
    if entries[i].managed {
      VisibleMeaning(entries, viewer, origin, entries[i].key);
      var e :| e in entries && e.key == entries[i].key && e.visible && e.managed && Sees(viewer, origin, e);
      var p :| p in objects && HasIdentity(p)
        && e == EntryOf(scenes, ClientScene(scenes, clientId), interests, viewer, locate, p);
      EntryMeaning(scenes, clientId, interests, viewer, origin, locate, p);
      assert Shows(scenes, clientId, p, Ref(p.objectType, p.objectId));
    }
  }

  lemma SeenIsKept(
    scenes: Scenes, clientId: Str, interests: Interests, viewer: InterestConfig, origin: Position, locate: Locate,
    objects: seq<Obj>, r: Ref)
    requires Seen(scenes, clientId, interests, viewer, origin, locate, objects, r)
    ensures var entries := EntriesOf(scenes, ClientScene(scenes, clientId), interests, viewer, locate, objects);
      r in Collect(entries, false, LinearKeys(entries, viewer, origin))
  {
    var entries := EntriesOf(scenes, ClientScene(scenes, clientId), interests, viewer, locate, objects);
    var keys := LinearKeys(entries, viewer, origin);
    CollectMeaning(entries, false, keys, r);
    EntriesMeaning(scenes, ClientScene(scenes, clientId), interests, viewer, locate, objects);
    var o :| o in objects && Shows(scenes, clientId, o, r);
    EntryMeaning(scenes, clientId, interests, viewer, origin, locate, o);
    var e := EntryOf(scenes, ClientScene(scenes, clientId), interests, viewer, locate, o);
    var key := r.objectType + [0x2F] + r.objectId;
    assert e.key == key;
    if e.managed {
      var p :| p in objects && Shows(scenes, clientId, p, Ref(p.objectType, p.objectId))
        && p.objectType + [0x2F] + p.objectId == key && Interesting(interests, viewer, origin, locate, p);
      EntryMeaning(scenes, clientId, interests, viewer, origin, locate, p);
      VisibleMeaning(entries, viewer, origin, e.key);
      assert EntryOf(scenes, ClientScene(scenes, clientId), interests, viewer, locate, p) in entries;
    }
    var i :| 0 <= i < |entries| && entries[i] == e;
    assert PutsAt(entries[i], false, keys, r);
  }

  /** The player's object as the server finds it: the last one registered with the player's type and id. */
  ghost predicate IsPlayerAt(player: InterestConfig, objects: seq<Obj>, i: nat)
    requires i < |objects|
  {
    HasIdentity(objects[i]) && objects[i].objectType == player.objectType && objects[i].objectId == player.objectId
  }

  /** Its position comes from its own registration, or else from the player's. */
  predicate Locates(interests: Interests, player: InterestConfig, locate: Locate, o: Obj, at: Position) {
    var key := o.objectType + [0x2F] + o.objectId;
    var own := if key in interests.players then locate(o.value, interests.players[key])
               else if key in interests.objects then locate(o.value, interests.objects[key]) else None;
    if own.Some? then own.value == at else locate(o.value, player) == Some(at)
  }

  ghost predicate StandsAt(
    interests: Interests, player: InterestConfig, locate: Locate, objects: seq<Obj>, at: Position)
  {
    exists i | 0 <= i < |objects| && IsPlayerAt(player, objects, i) ::
      && (forall j :: i < j < |objects| ==> !IsPlayerAt(player, objects, j))
      && Locates(interests, player, locate, objects[i], at)
  }

  // ----- the code -----

  /** `interestSnapshotObjects`: the entries, and the last one with the player's identity, if it has a
      position. */
  method InterestSnapshotObjects(
    scenes: Scenes, clientScene: Option<Str>, interests: Interests, player: InterestConfig, locate: Locate,
    objects: seq<Obj>) returns (entries: seq<Entry>, playerIndex: int)
    ensures entries == EntriesOf(scenes, clientScene, interests, player, locate, objects)
    ensures playerIndex < |entries|
    ensures 0 <= playerIndex ==>
      && IsSelf(entries[playerIndex], player) && entries[playerIndex].hasPosition
      && StandsAt(interests, player, locate, objects, entries[playerIndex].position)
    ensures playerIndex < 0 ==> forall at :: !StandsAt(interests, player, locate, objects, at)
  {
    entries, playerIndex := [], -1;
    ghost var found := -1;
    for n := 0 to |objects|
      invariant entries == EntriesOf(scenes, clientScene, interests, player, locate, objects[..n])
      invariant playerIndex < |entries|
      invariant -1 <= found < n && (0 <= playerIndex <==> 0 <= found)
      invariant forall j :: found < j < n ==> !IsPlayerAt(player, objects, j)
      invariant 0 <= playerIndex ==>
        && IsPlayerAt(player, objects, found)
        && entries[playerIndex] == EntryOf(scenes, clientScene, interests, player, locate, objects[found])
    {
      var o := objects[n];
      assert objects[..n + 1][..n] == objects[..n];
      if o.objectType != [] && o.objectId != [] {
        if o.objectType == player.objectType && o.objectId == player.objectId {
          playerIndex, found := |entries|, n;
        }
        entries := entries + [EntryOf(scenes, clientScene, interests, player, locate, o)];
      }
    }
    assert objects[..|objects|] == objects;
    if 0 <= playerIndex && !entries[playerIndex].hasPosition {
      playerIndex := -1;
    }
  }

  method SceneSnapshotOf(scenes: Scenes, clientScene: Option<Str>, objects: seq<Obj>) returns (snapshot: Objects)
    ensures snapshot == SceneSnapshot(scenes, clientScene, objects)
  {
    snapshot := map[];
    for n := 0 to |objects|
      invariant snapshot == SceneSnapshot(scenes, clientScene, objects[..n])
    {
      var o := objects[n];
      assert objects[..n + 1][..n] == objects[..n];
      if o.shown && o.objectType != [] && o.objectId != []
         && SceneShows(scenes, clientScene, o.objectType, o.objectId) {
        snapshot := snapshot[Ref(o.objectType, o.objectId) := o.value];
      }
    }
    assert objects[..|objects|] == objects;
  }

  /** `SnapshotForClient`. `viewer` is the player configuration interest filtering used, if any, and
      `origin` that player's position. */
  method SnapshotForClient(scenes: Scenes, interests: Interests, locate: Locate, clientId: Str, objects: seq<Obj>)
    returns (snapshot: Objects, ghost viewer: Option<InterestConfig>, ghost origin: Position)
    ensures viewer.None? ==> snapshot == SceneSnapshot(scenes, ClientScene(scenes, clientId), objects)
    ensures viewer.Some? ==>
      var entries := EntriesOf(scenes, ClientScene(scenes, clientId), interests, viewer.value, locate, objects);
      && viewer.value in interests.players.Values && viewer.value.objectId == clientId
      && (exists e <- entries :: IsSelf(e, viewer.value) && e.hasPosition && e.position == origin)
      && snapshot == Collect(entries, false, LinearKeys(entries, viewer.value, origin))
      && (forall r <- SceneSnapshot(scenes, ClientScene(scenes, clientId), objects) :: r !in snapshot ==>
            MissesForInterest(entries, viewer.value, origin, r))
      && StandsAt(interests, viewer.value, locate, objects, origin)
      && (forall r ::
            r in snapshot <==> Seen(scenes, clientId, interests, viewer.value, origin, locate, objects, r))
    ensures viewer.Some? ==> interests.enabled && clientId != []
    ensures viewer.None? && interests.enabled && clientId != [] ==>
      forall k <- interests.players :: interests.players[k].objectId == clientId ==>
        exists player <- interests.players.Values :: player.objectId == clientId
          && forall at :: !StandsAt(interests, player, locate, objects, at)
    ensures forall r <- snapshot ::
      var scene := SceneSnapshot(scenes, ClientScene(scenes, clientId), objects);
      r in scene && snapshot[r] == scene[r]
  {
    viewer, origin := None, NOWHERE;
    var clientScene := ClientScene(scenes, clientId);
    if interests.enabled && clientId != [] {
      if exists k :: k in interests.players && interests.players[k].objectId == clientId {
        var k :| k in interests.players && interests.players[k].objectId == clientId;
        var player := interests.players[k];
        var entries, playerIndex := InterestSnapshotObjects(scenes, clientScene, interests, player, locate, objects);
        if playerIndex >= 0 {
          var keys := VisibleInterestObjectKeys(entries, player, entries[playerIndex].position);
          snapshot := KeepVisible(entries, keys);
          viewer, origin := Some(player), entries[playerIndex].position;
          EntriesUniform(scenes, clientScene, interests, player, locate, objects);
          SceneIsCollect(scenes, clientScene, interests, player, locate, objects);
          SnapshotCharacterised(entries, player, origin);
          forall r {
            ClientSees(scenes, clientId, interests, player, origin, locate, objects, r);
          }
          return;
        }
      }
    }
    snapshot := SceneSnapshotOf(scenes, clientScene, objects);
  }

  method KeepVisible(entries: seq<Entry>, keys: set<Str>) returns (snapshot: Objects)
    ensures snapshot == Collect(entries, false, keys)
  {
    snapshot := map[];
    for n := 0 to |entries|
      invariant snapshot == Collect(entries[..n], false, keys)
    {
      var e := entries[n];
      assert entries[..n + 1][..n] == entries[..n];
      if e.visible && (!e.managed || e.key in keys) {
        snapshot := snapshot[RefOf(e) := e.snapshot];
      }
    }
    assert entries[..|entries|] == entries;
  }
}
