/** Interest filtering: the spatial-hash lookup `visibleInterestObjectKeys` against the linear scan
    `visibleInterestObjectKeysLinear` kept next to it. Coordinates and radii are exact reals. */
module Interest {
  import opened Sorting

  datatype Position = Position(x: real, y: real, z: real, hasZ: bool)

  /** `fields` names the coordinate fields that positions are read from. */
  datatype InterestConfig = InterestConfig(
    objectType: Str, objectId: Str, fields: seq<Str>, radius: real, includeSelf: bool)

  /** One object of the snapshot with its interest metadata; `snapshot` is its value. */
  datatype Entry = Entry(
    objectType: Str, objectId: Str, key: Str, snapshot: Str,
    visible: bool, managed: bool, config: InterestConfig, position: Position, hasPosition: bool)

  datatype Cell = Cell(x: int, y: int)

  // ----- pure parts -----

  predicate Within(a: Position, b: Position, radius: real) {
    var dx, dy, dz := a.x - b.x, a.y - b.y, a.z - b.z;
    if a.hasZ && b.hasZ then dx * dx + dy * dy + dz * dz <= radius * radius
    else dx * dx + dy * dy <= radius * radius
  }

  function EffectiveRadius(player: InterestConfig, config: InterestConfig): real {
    if player.radius <= 0.0 then config.radius else player.radius
  }

  predicate Filters(radius: real) {
    radius > 0.0
  }

  predicate IsSelf(entry: Entry, player: InterestConfig) {
    entry.objectType == player.objectType && entry.objectId == player.objectId
  }

  function CellFor(cellSize: real, x: real, y: real): Cell
    requires cellSize > 0.0
  {
    Cell((x / cellSize).Floor, (y / cellSize).Floor)
  }

  // ----- specification -----

  /** The linear scan's test on one entry. */
  predicate LinearVisible(entry: Entry, player: InterestConfig, position: Position) {
    && entry.visible && entry.managed
    && !(IsSelf(entry, player) && !entry.config.includeSelf)
    && (IsSelf(entry, player) || !entry.hasPosition
        || !Filters(EffectiveRadius(player, entry.config))
        || Within(position, entry.position, EffectiveRadius(player, entry.config)))
  }

  function LinearKeys(entries: seq<Entry>, player: InterestConfig, position: Position): set<Str> {
    set i | 0 <= i < |entries| && LinearVisible(entries[i], player, position) :: entries[i].key
  }

  /** Entries that only the distance decides about; these go through the grid. */
  predicate Gridded(entry: Entry, player: InterestConfig) {
    && entry.visible && entry.managed && !IsSelf(entry, player)
    && Filters(EffectiveRadius(player, entry.config)) && entry.hasPosition
  }

  // ----- geometry -----

  lemma SquareBound(d: real, r: real)
    requires r >= 0.0 && d * d <= r * r
    ensures -r <= d <= r
  {
    if d > r {
      SquareGrows(r, d);
    } else if -d > r {
      SquareGrows(r, -d);
    }
  }

  lemma Positive(a: real, b: real)
    requires a > 0.0 && b > 0.0
    ensures a * b > 0.0
  {
  }

  lemma SquareGrows(r: real, d: real)
    requires 0.0 <= r < d
    ensures r * r < d * d
  {
    Positive(d - r, d + r);
    assert (d - r) * (d + r) == d * d - r * r;
  }

  lemma FloorMonotone(a: real, b: real, c: real)
    requires a <= b && c > 0.0
    ensures (a / c).Floor <= (b / c).Floor
  {
    assert a / c <= b / c;
  }

  /** What is within the radius lies in the cells around the query point. */
  lemma WithinIsInRange(cellSize: real, reach: real, radius: real, a: Position, b: Position)
    requires cellSize > 0.0 && 0.0 < radius <= reach && Within(a, b, radius)
    ensures InRange(cellSize, a, reach, b)
  {
    WithinEachAxis(a, b, radius);
    SquareBound(a.x - b.x, radius);
    SquareBound(a.y - b.y, radius);
    FloorMonotone(a.x - reach, b.x, cellSize);
    FloorMonotone(b.x, a.x + reach, cellSize);
    FloorMonotone(a.y - reach, b.y, cellSize);
    FloorMonotone(b.y, a.y + reach, cellSize);
  }

  lemma SquareNotNegative(d: real)
    ensures d * d >= 0.0
  {
  }

  /** Within the radius in space, within it along each axis. */
  lemma WithinEachAxis(a: Position, b: Position, radius: real)
    requires Within(a, b, radius)
    ensures (a.x - b.x) * (a.x - b.x) <= radius * radius
    ensures (a.y - b.y) * (a.y - b.y) <= radius * radius
  {
    SquareNotNegative(a.x - b.x);
    SquareNotNegative(a.y - b.y);
    SquareNotNegative(a.z - b.z);
  }

  // ----- what visible means -----

  /** The distance that counts, squared: in space when both positions have a height, else in the plane. */
  function SquaredDistance(a: Position, b: Position): real {
    var plane := (a.x - b.x) * (a.x - b.x) + (a.y - b.y) * (a.y - b.y);
    if a.hasZ && b.hasZ then plane + (a.z - b.z) * (a.z - b.z) else plane
  }

  /** Whether a client whose player is at `position` sees a managed entry, told without the grid or the scan:
      its own object only if that asks for it; of the others those without a position, those that no radius
      applies to, and those at most the radius away, which is the player's if positive, else the object's. */
  predicate Sees(player: InterestConfig, position: Position, entry: Entry) {
    var radius := if player.radius > 0.0 then player.radius else entry.config.radius;
    if entry.objectType == player.objectType && entry.objectId == player.objectId then entry.config.includeSelf
    else !entry.hasPosition || radius <= 0.0 || SquaredDistance(position, entry.position) <= radius * radius
  }

  /** The keys returned are those of the visible, managed entries that the client sees. */
  lemma VisibleMeaning(entries: seq<Entry>, player: InterestConfig, position: Position, key: Str)
    ensures key in LinearKeys(entries, player, position) <==>
      exists e <- entries :: e.key == key && e.visible && e.managed && Sees(player, position, e)
  {
    forall e <- entries
      ensures LinearVisible(e, player, position) <==> e.visible && e.managed && Sees(player, position, e)
    {
    }
    if e :| e in entries && e.key == key && e.visible && e.managed && Sees(player, position, e) {
      var i :| 0 <= i < |entries| && entries[i] == e;
      assert LinearVisible(entries[i], player, position);
    }
  }

  function Moved(p: Position, x: real, y: real, z: real): Position {
    p.(x := p.x + x, y := p.y + y, z := p.z + z)
  }

  /** Turned in the plane, by the angle with this cosine and sine. */
  function Turned(p: Position, cosine: real, sine: real): Position {
    p.(x := cosine * p.x - sine * p.y, y := sine * p.x + cosine * p.y)
  }

  /** Turned about the x axis. */
  function Tilted(p: Position, cosine: real, sine: real): Position {
    p.(y := cosine * p.y - sine * p.z, z := sine * p.y + cosine * p.z)
  }

  lemma SquareTurned(cosine: real, sine: real, x: real, y: real)
    requires cosine * cosine + sine * sine == 1.0
    ensures (cosine * x - sine * y) * (cosine * x - sine * y) + (sine * x + cosine * y) * (sine * x + cosine * y)
         == x * x + y * y
  {
    calc {
      (cosine * x - sine * y) * (cosine * x - sine * y) + (sine * x + cosine * y) * (sine * x + cosine * y);
      (cosine * cosine + sine * sine) * (x * x) + (cosine * cosine + sine * sine) * (y * y);
      x * x + y * y;
    }
  }

  lemma TurnedDifference(cosine: real, sine: real, a: real, b: real, c: real, d: real)
    ensures (cosine * a - sine * b) - (cosine * c - sine * d) == cosine * (a - c) - sine * (b - d)
    ensures (sine * a + cosine * b) - (sine * c + cosine * d) == sine * (a - c) + cosine * (b - d)
  {
  }

  /** The test depends on the distance alone: moving both positions by the same amounts changes nothing. */
  lemma MovedTogether(a: Position, b: Position, radius: real, x: real, y: real, z: real)
    ensures Within(Moved(a, x, y, z), Moved(b, x, y, z), radius) <==> Within(a, b, radius)
  {
    assert (a.x + x) - (b.x + x) == a.x - b.x;
    assert (a.y + y) - (b.y + y) == a.y - b.y;
    assert (a.z + z) - (b.z + z) == a.z - b.z;
  }

  /** Nor does turning both by the same angle in the plane. */
  lemma TurnedTogether(a: Position, b: Position, radius: real, cosine: real, sine: real)
    requires cosine * cosine + sine * sine == 1.0
    ensures Within(Turned(a, cosine, sine), Turned(b, cosine, sine), radius) <==> Within(a, b, radius)
  {
    TurnedDifference(cosine, sine, a.x, a.y, b.x, b.y);
    SquareTurned(cosine, sine, a.x - b.x, a.y - b.y);
  }

  /** Nor, when both have a height, does turning both about another axis. */
  lemma TiltedTogether(a: Position, b: Position, radius: real, cosine: real, sine: real)
    requires cosine * cosine + sine * sine == 1.0 && a.hasZ && b.hasZ
    ensures Within(Tilted(a, cosine, sine), Tilted(b, cosine, sine), radius) <==> Within(a, b, radius)
  {
    TurnedDifference(cosine, sine, a.y, a.z, b.y, b.z);
    SquareTurned(cosine, sine, a.y - b.y, a.z - b.z);
  }

  /** Along one axis it is the plain distance, the bound included. */
  lemma WithinOnAxis(a: Position, b: Position, radius: real)
    requires radius >= 0.0 && a.y == b.y && (a.hasZ && b.hasZ ==> a.z == b.z)
    ensures Within(a, b, radius) <==> -radius <= a.x - b.x <= radius
  {
    var d := a.x - b.x;
    assert (a.y - b.y) * (a.y - b.y) == 0.0;
    assert a.z == b.z ==> (a.z - b.z) * (a.z - b.z) == 0.0;
    if d * d <= radius * radius {
      SquareBound(d, radius);
    } else if -radius <= d <= radius {
      SquareBelow(d, radius);
    }
  }

  lemma SquareBelow(d: real, r: real)
    requires -r <= d <= r
    ensures d * d <= r * r
  {
    assert (r - d) * (r + d) >= 0.0;
    assert (r - d) * (r + d) == r * r - d * d;
  }

  /** Heights count only if both positions have one. */
  lemma HeightsIgnored(a: Position, b: Position, radius: real, z: real, w: real)
    requires !(a.hasZ && b.hasZ)
    ensures Within(a.(z := z), b.(z := w), radius) <==> Within(a, b, radius)
  {
  }

  // ----- the code -----

  /** The grid index: each inserted index sits in the list of its position's cell. */
  class SpatialHash {
    const cellSize: real
    var cells: map<Cell, seq<nat>>
    ghost var inserted: map<nat, Position>

    ghost predicate Valid()
      reads this
    {
      && (cellSize <= 0.0 ==> cells == map[] && inserted == map[])
      && (cellSize > 0.0 ==>
            && (forall c <- cells, i <- cells[c] ::
                  i in inserted && CellFor(cellSize, inserted[i].x, inserted[i].y) == c)
            && (forall i <- inserted ::
                  var c := CellFor(cellSize, inserted[i].x, inserted[i].y);
                  c in cells && i in cells[c]))
    }

    constructor (cellSize: real)
      ensures Valid() && this.cellSize == cellSize && inserted == map[]
    {
      this.cellSize := cellSize;
      cells := map[];
      inserted := map[];
    }

    method Insert(position: Position, index: nat)
      requires Valid() && index !in inserted
      modifies this
      ensures Valid()
      ensures inserted == if cellSize > 0.0 then old(inserted)[index := position] else old(inserted)
    {
      if cellSize <= 0.0 {
        return;
      }
      var cell := CellFor(cellSize, position.x, position.y);
      var bucket := if cell in cells then cells[cell] else [];
      cells := cells[cell := bucket + [index]];
      inserted := inserted[index := position];
    }

    /** All indexes in the cells that the square of half-width `radius` around `position` touches. */
    method Query(position: Position, radius: real) returns (indexes: seq<nat>)
      requires Valid()
      ensures forall i <- indexes :: i in inserted
      ensures cellSize > 0.0 && radius > 0.0 ==> forall i <- inserted ::
        InRange(cellSize, position, radius, inserted[i]) ==> i in indexes
    {
      indexes := [];
      if cellSize <= 0.0 || |cells| == 0 || radius <= 0.0 {
        return;
      }
      var low := CellFor(cellSize, position.x - radius, position.y - radius);
      var high := CellFor(cellSize, position.x + radius, position.y + radius);
      var y := low.y;
      while y <= high.y
        invariant forall i <- indexes :: i in inserted
        invariant forall c <- cells, i <- cells[c] ::
          low.x <= c.x <= high.x && low.y <= c.y < y && c.y <= high.y ==> i in indexes
        decreases high.y - y
      {
        var row := QueryRow(low.x, high.x, y);
        indexes := indexes + row;
        y := y + 1;
      }
    }

    method QueryRow(first: int, last: int, y: int) returns (indexes: seq<nat>)
      requires Valid() && cellSize > 0.0
      ensures forall i <- indexes :: i in inserted
      ensures forall c <- cells, i <- cells[c] :: first <= c.x <= last && c.y == y ==> i in indexes
    {
      indexes := [];
      var x := first;
      while x <= last
        invariant forall i <- indexes :: i in inserted
        invariant forall c <- cells, i <- cells[c] :: first <= c.x < x && c.x <= last && c.y == y ==> i in indexes
        decreases last - x
      {
        if Cell(x, y) in cells {
          indexes := indexes + cells[Cell(x, y)];
        }
        x := x + 1;
      }
    }
  }

  predicate InRange(cellSize: real, position: Position, radius: real, other: Position)
    requires cellSize > 0.0
  {
    var low := CellFor(cellSize, position.x - radius, position.y - radius);
    var high := CellFor(cellSize, position.x + radius, position.y + radius);
    var cell := CellFor(cellSize, other.x, other.y);
    low.x <= cell.x <= high.x && low.y <= cell.y <= high.y
  }

  /** `interestSpatialQueryRadius`: no entry that goes through the grid has a larger radius. */
  method QueryRadius(entries: seq<Entry>, player: InterestConfig) returns (radius: real)
    ensures radius >= 0.0
    ensures forall i :: 0 <= i < |entries| && Gridded(entries[i], player) ==>
      0.0 < EffectiveRadius(player, entries[i].config) <= radius
  {
    if Filters(player.radius) {
      return player.radius;
    }
    radius := 0.0;
    for i := 0 to |entries|
      invariant radius >= 0.0
      invariant forall j :: 0 <= j < i && Gridded(entries[j], player) ==>
        0.0 < EffectiveRadius(player, entries[j].config) <= radius
    {
      var entry := entries[i];
      if entry.visible && entry.managed {
        var entryRadius := EffectiveRadius(player, entry.config);
        if Filters(entryRadius) && entryRadius > radius {
          radius := entryRadius;
        }
      }
    }
  }

  /** The keys the first loop already knows to be visible. */
  ghost predicate Direct(entry: Entry, player: InterestConfig, position: Position) {
    LinearVisible(entry, player, position) && !Gridded(entry, player)
  }

  /** The spatial-hash filter refines the linear scan: it returns the same keys, for every object list,
      radius and mixture of two- and three-dimensional positions. */
  method VisibleInterestObjectKeys(entries: seq<Entry>, player: InterestConfig, position: Position)
    returns (visible: set<Str>)
    ensures visible == LinearKeys(entries, player, position)
    ensures forall key :: key in visible <==>
      exists e <- entries :: e.key == key && e.visible && e.managed && Sees(player, position, e)
  {
    visible := {};
    var queryRadius := QueryRadius(entries, player);
    var hash := new SpatialHash(queryRadius);
    for index := 0 to |entries|
      invariant fresh(hash) && hash.Valid() && hash.cellSize == queryRadius
      invariant forall k :: k in visible <==>
        exists i :: 0 <= i < index && entries[i].key == k && Direct(entries[i], player, position)
      invariant forall i :: i in hash.inserted <==> 0 <= i < index && Gridded(entries[i], player)
      invariant forall i <- hash.inserted :: hash.inserted[i] == entries[i].position
    {
      var entry := entries[index];
      if entry.visible && entry.managed {
        if IsSelf(entry, player) {
          if entry.config.includeSelf {
            visible := visible + {entry.key};
          }
        } else if !Filters(EffectiveRadius(player, entry.config)) || !entry.hasPosition {
          visible := visible + {entry.key};
        } else {
          hash.Insert(entry.position, index);
        }
      }
    }

    var indexes := hash.Query(position, queryRadius);
    assert forall j :: 0 <= j < |indexes| ==> indexes[j] in hash.inserted;
    var near := NearbyKeys(entries, player, position, indexes);
    visible := visible + near;

    forall i | 0 <= i < |entries| && LinearVisible(entries[i], player, position)
      ensures entries[i].key in visible
    {
      if Gridded(entries[i], player) {
        var radius := EffectiveRadius(player, entries[i].config);
        WithinIsInRange(queryRadius, queryRadius, radius, position, entries[i].position);
        assert i in indexes;
      } else {
        assert Direct(entries[i], player, position);
      }
    }
    forall key {
      VisibleMeaning(entries, player, position, key);
    }
  }

  /** The second loop: the candidates from the grid that are close enough. */
  method NearbyKeys(entries: seq<Entry>, player: InterestConfig, position: Position, indexes: seq<nat>)
    returns (near: set<Str>)
    requires forall j :: 0 <= j < |indexes| ==> indexes[j] < |entries| && Gridded(entries[indexes[j]], player)
    ensures forall k :: k in near <==>
      exists i <- indexes :: entries[i].key == k && LinearVisible(entries[i], player, position)
  {
    near := {};
    for n := 0 to |indexes|
      invariant forall k :: k in near <==>
        exists j :: 0 <= j < n && entries[indexes[j]].key == k && LinearVisible(entries[indexes[j]], player, position)
    {
      var entry := entries[indexes[n]];
      if Within(position, entry.position, EffectiveRadius(player, entry.config)) {
        near := near + {entry.key};
      }
    }
  }

  /** The linear scan itself. */
  method VisibleInterestObjectKeysLinear(entries: seq<Entry>, player: InterestConfig, position: Position)
    returns (visible: set<Str>)
    ensures visible == LinearKeys(entries, player, position)
    ensures forall key :: key in visible <==>
      exists e <- entries :: e.key == key && e.visible && e.managed && Sees(player, position, e)
  {
    visible := {};
    for index := 0 to |entries|
      invariant visible == LinearKeys(entries[..index], player, position)
    {
      var entry := entries[index];
      if entry.visible && entry.managed {
        var isSelf := IsSelf(entry, player);
        var radius := EffectiveRadius(player, entry.config);
        if !(isSelf && !entry.config.includeSelf)
           && !(!isSelf && Filters(radius) && entry.hasPosition && !Within(position, entry.position, radius)) {
          visible := visible + {entry.key};
        }
      }
      assert forall i :: 0 <= i < index ==> entries[..index + 1][i] == entries[..index][i];
      assert entries[..index + 1][index] == entry;
    }
    assert entries[..|entries|] == entries;
    forall key {
      VisibleMeaning(entries, player, position, key);
    }
  }
}
