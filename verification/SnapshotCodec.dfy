/** The snapshot codec: types and ids in sorted order, each object a wire value
    (`encodeSnapshotData`, `decodeSnapshotData` and the Rust `read_snapshot_data`). */
module SnapshotCodec {
  import opened Wire
  import opened Sorting
  import opened Bytes
  import opened ValueCodec

  type Snapshot = map<Str, map<Str, Value>>

  ghost function EncodeSnapshot(snapshot: Snapshot): Encoding {
    if |snapshot| > MAX_COUNT then Refused
    else
      var groups :- EncodeGroups(snapshot, SortedKeys(snapshot.Keys));
      Encoded(WriteU16(|snapshot|) + groups)
  }

  ghost function EncodeGroups(snapshot: Snapshot, types: seq<Str>): Encoding
    requires forall t <- types :: t in snapshot
  {
    if types == [] then Encoded([])
    else
      var name :- WriteString(types[0]);
      var first :- EncodeGroup(snapshot[types[0]]);
      var others :- EncodeGroups(snapshot, types[1..]);
      Encoded(name + first + others)
  }

  ghost function EncodeGroup(objects: map<Str, Value>): (r: Encoding)
    ensures r.Encoded? ==> r.bytes != []
  {
    if |objects| > MAX_COUNT then Refused
    else
      SelectedAll(Object(objects), SortedKeys(objects.Keys));
      var entries :- EncodeEntries(Object(objects), SortedKeys(objects.Keys), 0);
      Encoded(WriteU16(|objects|) + entries)
  }

  function DecodeSnapshot(dialect: Dialect, input: seq<byte>): Parse<Snapshot> {
    var (count, rest) :- ReadU16(dialect, input);
    DecodeGroups(dialect, rest, count, map[])
  }

  function DecodeGroups(dialect: Dialect, input: seq<byte>, count: nat, snapshot: Snapshot): Parse<Snapshot>
    decreases count
  {
    if count == 0 then Parsed(snapshot, input)
    else
      var (name, body) :- ReadString(dialect, input);
      var (objects, rest) :- DecodeGroup(dialect, body);
      DecodeGroups(dialect, rest, count - 1, snapshot[name := objects])
  }

  function DecodeGroup(dialect: Dialect, input: seq<byte>): Parse<map<Str, Value>> {
    var (count, rest) :- ReadU16(dialect, input);
    DecodeEntries(dialect, rest, count, 0, map[])
  }

  ghost predicate Utf8Snapshot(snapshot: Snapshot) {
    forall t <- snapshot :: Utf8(t) && Utf8Value(Object(snapshot[t]))
  }

  /** The encoding ends with an empty string: the last object of the last type does. */
  ghost predicate SnapshotEndsEmpty(snapshot: Snapshot) {
    var types := SortedKeys(snapshot.Keys);
    types != [] && assert types[|types| - 1] in ElementSet(types); EndsEmpty(Object(snapshot[types[|types| - 1]]))
  }

  lemma DecodeCountedEntries(dialect: Dialect, count: u16, entries: seq<byte>, rest: seq<byte>)
    ensures DecodeGroup(dialect, WriteU16(count) + entries + rest)
         == DecodeEntries(dialect, entries + rest, count, 0, map[])
  {
    Assoc(WriteU16(count), entries, rest);
    U16Back(dialect, count, entries + rest);
  }

  lemma GroupRoundTrip(dialect: Dialect, objects: map<Str, Value>, rest: seq<byte>)
    requires EncodeGroup(objects).Encoded?
    requires dialect.Rust? ==> Utf8Value(Object(objects))
    ensures DecodeGroup(dialect, EncodeGroup(objects).bytes + rest)
         == if ReadableValue(dialect, Object(objects), rest) then Parsed(objects, rest) else Failed
  {
    var keys := SortedKeys(objects.Keys);
    SelectedAll(Object(objects), keys);
    var entries := EncodeEntries(Object(objects), keys, 0).bytes;
    DecodeCountedEntries(dialect, |objects|, entries, rest);
    EntriesRoundTrip(dialect, Object(objects), keys, 0, map[], rest);
    ReadableObject(dialect, Object(objects), rest);
  }

  ghost function SelectedGroups(snapshot: Snapshot, types: seq<Str>): Snapshot
    requires forall t <- types :: t in snapshot
  {
    map t | t in types :: snapshot[t]
  }

  lemma SelectedGroupsStep(snapshot: Snapshot, types: seq<Str>, sofar: Snapshot)
    requires types != [] && forall t <- types :: t in snapshot
    requires types[0] !in types[1..]
    ensures sofar[types[0] := snapshot[types[0]]] + SelectedGroups(snapshot, types[1..])
         == sofar + SelectedGroups(snapshot, types)
  {
    assert forall t :: t in types <==> t == types[0] || t in types[1..];
  }

  lemma SelectedAllGroups(snapshot: Snapshot, types: seq<Str>)
    requires ElementSet(types) == snapshot.Keys
    ensures forall t <- types :: t in snapshot
    ensures map[] + SelectedGroups(snapshot, types) == snapshot
  {
    assert forall t <- types :: t in ElementSet(types);
  }

  lemma GroupsNonEmpty(snapshot: Snapshot, types: seq<Str>)
    requires forall t <- types :: t in snapshot
    requires EncodeGroups(snapshot, types).Encoded?
    ensures types != [] ==> EncodeGroups(snapshot, types).bytes != []
  {
  }

  lemma DecodeOneGroup(
    dialect: Dialect, name: Str, objects: map<Str, Value>, count: nat, sofar: Snapshot, tail: seq<byte>)
    requires count > 0
    requires WriteString(name).Encoded? && EncodeGroup(objects).Encoded?
    requires dialect.Rust? ==> Utf8(name) && Utf8Value(Object(objects))
    ensures DecodeGroups(dialect, WriteString(name).bytes + (EncodeGroup(objects).bytes + tail), count, sofar)
         == if ReadableValue(dialect, Object(objects), tail)
            then DecodeGroups(dialect, tail, count - 1, sofar[name := objects]) else Failed
  {
    StringBack(dialect, name, EncodeGroup(objects).bytes + tail);
    GroupRoundTrip(dialect, objects, tail);
  }

  lemma {:induction false} GroupsRoundTrip(
    dialect: Dialect, snapshot: Snapshot, types: seq<Str>, sofar: Snapshot, rest: seq<byte>)
    requires forall t <- types :: t in snapshot
    requires Ascending(types, StrLess)
    requires EncodeGroups(snapshot, types).Encoded?
    requires dialect.Rust? ==> Utf8Snapshot(snapshot)
    ensures DecodeGroups(dialect, EncodeGroups(snapshot, types).bytes + rest, |types|, sofar)
         == if types == [] || ReadableValue(dialect, Object(snapshot[types[|types| - 1]]), rest)
            then Parsed(sofar + SelectedGroups(snapshot, types), rest) else Failed
    decreases |types|
  {
    if types == [] {
      assert sofar + SelectedGroups(snapshot, types) == sofar;
    } else {
      var name := WriteString(types[0]).bytes;
      var objects := snapshot[types[0]];
      var first := EncodeGroup(objects).bytes;
      var others := EncodeGroups(snapshot, types[1..]).bytes;
      Assoc4(name, first, others, rest);
      DecodeOneGroup(dialect, types[0], objects, |types|, sofar, others + rest);
      GroupsNonEmpty(snapshot, types[1..]);
      FirstKeyDistinct(types);
      GroupsRoundTrip(dialect, snapshot, types[1..], sofar[types[0] := objects], rest);
      SelectedGroupsStep(snapshot, types, sofar);
      if |types| == 1 {
        assert others + rest == rest;
      } else {
        assert ReadableValue(dialect, Object(objects), others + rest);
        assert types[1..][|types| - 2] == types[|types| - 1];
      }
    }
  }

  lemma SnapshotShape(snapshot: Snapshot)
    requires EncodeSnapshot(snapshot).Encoded?
    ensures var types := SortedKeys(snapshot.Keys);
      && |snapshot| == |types| <= MAX_COUNT
      && (forall t <- types :: t in snapshot)
      && EncodeGroups(snapshot, types).Encoded?
      && EncodeSnapshot(snapshot).bytes == WriteU16(|types|) + EncodeGroups(snapshot, types).bytes
  {
    SelectedAllGroups(snapshot, SortedKeys(snapshot.Keys));
  }

  lemma DecodeCountedGroups(dialect: Dialect, count: u16, groups: seq<byte>, rest: seq<byte>)
    ensures DecodeSnapshot(dialect, WriteU16(count) + groups + rest)
         == DecodeGroups(dialect, groups + rest, count, map[])
  {
    Assoc(WriteU16(count), groups, rest);
    U16Back(dialect, count, groups + rest);
  }

  /** The snapshot codec round trip, on every snapshot the Go writer accepts: the Rust reader gives
      back exactly the snapshot and leaves exactly `rest`; the Go reader does too, except that it
      fails when nothing follows and the last object's encoding ends in an empty string. */
  lemma SnapshotRoundTrip(dialect: Dialect, snapshot: Snapshot, rest: seq<byte>)
    requires EncodeSnapshot(snapshot).Encoded?
    requires dialect.Rust? ==> Utf8Snapshot(snapshot)
    ensures DecodeSnapshot(dialect, EncodeSnapshot(snapshot).bytes + rest)
         == if dialect.Rust? || rest != [] || !SnapshotEndsEmpty(snapshot) then Parsed(snapshot, rest) else Failed
  {
    var types := SortedKeys(snapshot.Keys);
    SnapshotShape(snapshot);
    SelectedAllGroups(snapshot, types);
    DecodeCountedGroups(dialect, |types|, EncodeGroups(snapshot, types).bytes, rest);
    GroupsRoundTrip(dialect, snapshot, types, map[], rest);
  }

  /** A family of snapshots the Go writer accepts and the Go reader refuses to read back. */
  lemma GoReaderRefuses(objectType: Str, id: Str)
    requires |objectType| <= MAX_STRING && |id| <= MAX_STRING
    ensures var snapshot := map[objectType := map[id := Text([])]];
      && EncodeSnapshot(snapshot).Encoded?
      && DecodeSnapshot(Go, EncodeSnapshot(snapshot).bytes) == Failed
  {
    var objects := map[id := Text([])];
    var snapshot := map[objectType := objects];
    SortedSingleton(id);
    SortedSingleton(objectType);
    assert objects.Keys == {id} && snapshot.Keys == {objectType};
    OneEntryEncodes(Object(objects), id);
    assert EncodeGroup(objects).Encoded?;
    assert [objectType][1..] == [];
    assert EncodeGroups(snapshot, [objectType]).Encoded?;
    SnapshotRoundTrip(Go, snapshot, []);
    assert EncodeSnapshot(snapshot).bytes + [] == EncodeSnapshot(snapshot).bytes;
  }

  lemma OneEntryEncodes(parent: Value, id: Str)
    requires parent == Object(map[id := Text([])]) && |id| <= MAX_STRING
    ensures EncodeEntries(parent, [id], 0).Encoded?
    ensures EndsEmpty(parent)
  {
    assert [id][1..] == [];
    assert parent.fields.Keys == {id};
    SortedSingleton(id);
    assert EncodeValue(Text([]), 0).Encoded?;
  }
}
