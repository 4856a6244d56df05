/** Strict total orders, the unique ascending enumeration of a set (what Go's `sort.Slice` and
    `sort.Strings` must return on distinct keys), and the byte order of Go strings. */
module Sorting {
  import opened Wire

  ghost predicate StrictTotal<T(!new)>(less: (T, T) -> bool) {
    && (forall x :: !less(x, x))
    && (forall x, y, z :: less(x, y) && less(y, z) ==> less(x, z))
    && (forall x, y :: x == y || less(x, y) || less(y, x))
  }

  ghost predicate Ascending<T>(s: seq<T>, less: (T, T) -> bool) {
    forall i, j :: 0 <= i < j < |s| ==> less(s[i], s[j])
  }

  ghost function ElementSet<T>(s: seq<T>): set<T> {
    set x | x in s
  }

  ghost predicate IsLeast<T>(s: set<T>, less: (T, T) -> bool, least: T) {
    least in s && forall y <- s :: y == least || less(least, y)
  }

  lemma {:induction false} LeastExists<T(!new)>(s: set<T>, less: (T, T) -> bool) returns (least: T)
    requires StrictTotal(less) && s != {}
    ensures IsLeast(s, less, least)
    decreases s
  {
    var x :| x in s;
    if s == {x} {
      least := x;
    } else {
      var rest := s - {x};
      assert s == rest + {x};
      var candidate := LeastExists(rest, less);
      least := if less(x, candidate) then x else candidate;
    }
  }

  lemma PrependLeast<T(!new)>(s: set<T>, least: T, rest: seq<T>, less: (T, T) -> bool)
    requires IsLeast(s, less, least)
    requires Ascending(rest, less) && ElementSet(rest) == s - {least} && |rest| == |s - {least}|
    ensures Ascending([least] + rest, less) && ElementSet([least] + rest) == s && |[least] + rest| == |s|
  {
    var r := [least] + rest;
    assert forall x :: x in r <==> x == least || x in rest;
    assert s == (s - {least}) + {least};
    forall i, j | 0 <= i < j < |r|
      ensures less(r[i], r[j])
    {
      assert rest[j - 1] in ElementSet(rest);
    }
  }

  /** `r` enumerates `s` in ascending order. */
  ghost predicate IsSorted<T>(s: set<T>, less: (T, T) -> bool, r: seq<T>) {
    Ascending(r, less) && ElementSet(r) == s && |r| == |s|
  }

  lemma {:induction false} SortedExists<T(!new)>(s: set<T>, less: (T, T) -> bool) returns (r: seq<T>)
    requires StrictTotal(less)
    ensures IsSorted(s, less, r)
    decreases s
  {
    if s == {} {
      r := [];
    } else {
      var least := LeastExists(s, less);
      var rest := SortedExists(s - {least}, less);
      PrependLeast(s, least, rest, less);
      r := [least] + rest;
    }
  }

  /** The elements of `s` in ascending order; `AscendingUnique` says there is only one. */
  ghost function Sorted<T(!new)>(s: set<T>, less: (T, T) -> bool): (r: seq<T>)
    requires StrictTotal(less)
    ensures IsSorted(s, less, r)
  {
    assert exists r :: IsSorted(s, less, r) by {
      var r := SortedExists(s, less);
    }
    var r :| IsSorted(s, less, r);
    r
  }

  /** Two ascending sequences with the same elements are the same sequence. */
  lemma {:induction false} AscendingUnique<T(!new)>(s: seq<T>, t: seq<T>, less: (T, T) -> bool)
    requires StrictTotal(less)
    requires Ascending(s, less) && Ascending(t, less)
    requires ElementSet(s) == ElementSet(t)
    ensures s == t
  {
    assert s != [] ==> s[0] in ElementSet(t);
    assert t != [] ==> t[0] in ElementSet(s);
    if s != [] {
      assert s[0] == t[0];
      assert ElementSet(s[1..]) == ElementSet(s) - {s[0]};
      assert ElementSet(t[1..]) == ElementSet(t) - {t[0]};
      AscendingUnique(s[1..], t[1..], less);
    }
  }

  lemma InsertedAscending<T(!new)>(sorted: seq<T>, less: (T, T) -> bool, x: T, k: nat)
    requires StrictTotal(less) && Ascending(sorted, less) && x !in ElementSet(sorted) && k <= |sorted|
    requires forall i :: 0 <= i < k ==> less(sorted[i], x)
    requires k < |sorted| ==> !less(sorted[k], x)
    ensures var r := sorted[..k] + [x] + sorted[k..];
      Ascending(r, less) && ElementSet(r) == ElementSet(sorted) + {x}
  {
    var r := sorted[..k] + [x] + sorted[k..];
    forall i | k <= i < |sorted|
      ensures less(x, sorted[i])
    {
      assert sorted[k] in ElementSet(sorted);
      assert less(x, sorted[k]);
    }
    assert sorted == sorted[..k] + sorted[k..];
    assert forall y :: y in r <==> y in sorted || y == x;
  }

  /** One step of sorting by insertion; by `AscendingUnique` every sorting function returns the same. */
  method InsertSorted<T(!new)>(sorted: seq<T>, less: (T, T) -> bool, x: T) returns (r: seq<T>)
    requires StrictTotal(less) && Ascending(sorted, less) && x !in ElementSet(sorted)
    ensures Ascending(r, less) && ElementSet(r) == ElementSet(sorted) + {x}
  {
    var k := 0;
    while k < |sorted| && less(sorted[k], x)
      invariant 0 <= k <= |sorted|
      invariant forall i :: 0 <= i < k ==> less(sorted[i], x)
    {
      k := k + 1;
    }
    r := sorted[..k] + [x] + sorted[k..];
    InsertedAscending(sorted, less, x, k);
  }

  lemma {:induction false} DistinctElements<T>(s: seq<T>)
    requires forall i, j :: 0 <= i < j < |s| ==> s[i] != s[j]
    ensures |ElementSet(s)| == |s|
  {
    if s != [] {
      var rest, last := s[..|s| - 1], s[|s| - 1];
      DistinctElements(rest);
      assert s == rest + [last];
      assert ElementSet(s) == ElementSet(rest) + {last};
      assert last !in rest;
    }
  }

  // ----- strings -----

  type Str = seq<byte>

  /** Go's `<` on strings. */
  predicate StrLess(a: Str, b: Str) {
    if b == [] then false
    else if a == [] then true
    else if a[0] != b[0] then a[0] < b[0]
    else StrLess(a[1..], b[1..])
  }

  /** At the first place where two strings differ, the first has the smaller byte or has ended. */
  ghost predicate FirstDifference(a: Str, b: Str, k: int) {
    && 0 <= k <= |a| && k < |b| && a[..k] == b[..k]
    && (k == |a| || a[k] < b[k])
  }

  lemma StrLessMeaning(a: Str, b: Str)
    ensures StrLess(a, b) <==> exists k :: FirstDifference(a, b, k)
  {
    if StrLess(a, b) {
      var k := DifferenceOf(a, b);
    }
    if k :| FirstDifference(a, b, k) {
      DifferenceDecides(a, b, k);
    }
  }

  lemma {:induction false} DifferenceOf(a: Str, b: Str) returns (k: nat)
    requires StrLess(a, b)
    ensures FirstDifference(a, b, k)
  {
    k := 0;
    if a != [] && a[0] == b[0] {
      k := DifferenceOf(a[1..], b[1..]);
      assert a[..k + 1] == [a[0]] + a[1..][..k];
      assert b[..k + 1] == [b[0]] + b[1..][..k];
      k := k + 1;
    }
  }

  lemma {:induction false} DifferenceDecides(a: Str, b: Str, k: int)
    requires FirstDifference(a, b, k)
    ensures StrLess(a, b)
  {
    if k > 0 {
      assert a[0] == a[..k][0] == b[..k][0] == b[0];
      assert a[1..][..k - 1] == a[..k][1..];
      assert b[1..][..k - 1] == b[..k][1..];
      DifferenceDecides(a[1..], b[1..], k - 1);
    }
  }

  lemma {:induction false} StrTransitive(a: Str, b: Str, c: Str)
    requires StrLess(a, b) && StrLess(b, c)
    ensures StrLess(a, c)
  {
    if a != [] && a[0] == b[0] && b[0] == c[0] {
      StrTransitive(a[1..], b[1..], c[1..]);
    }
  }

  lemma {:induction false} StrConnected(a: Str, b: Str)
    ensures !StrLess(a, a)
    ensures a == b || StrLess(a, b) || StrLess(b, a)
  {
    if a != [] {
      StrConnected(a[1..], if b != [] then b[1..] else []);
    }
  }

  lemma StrTotal()
    ensures StrictTotal(StrLess)
  {
    forall a: Str, b: Str
      ensures !StrLess(a, a) && (a == b || StrLess(a, b) || StrLess(b, a))
    {
      StrConnected(a, b);
    }
    forall a: Str, b: Str, c: Str | StrLess(a, b) && StrLess(b, c)
      ensures StrLess(a, c)
    {
      StrTransitive(a, b, c);
    }
  }

  lemma FirstKeyDistinct(keys: seq<Str>)
    requires Ascending(keys, StrLess) && keys != []
    ensures keys[0] !in keys[1..]
    ensures Ascending(keys[1..], StrLess)
  {
    StrConnected(keys[0], keys[0]);
  }

  /** Map keys in wire order: `sort.Strings` over the keys. */
  ghost function SortedKeys(keys: set<Str>): (r: seq<Str>)
    ensures Ascending(r, StrLess) && ElementSet(r) == keys && |r| == |keys|
  {
    StrTotal();
    Sorted(keys, StrLess)
  }

  lemma SortedSingleton(key: Str)
    ensures SortedKeys({key}) == [key]
  {
    var keys := SortedKeys({key});
    assert keys[0] in ElementSet(keys);
  }
}
