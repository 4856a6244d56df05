/** Fitting a snapshot to a size limit: `snapshotDropCandidates`, `removeSnapshotObject`,
    `filterSnapshotForLimit` and `encodeBudgetedUDPSnapshot`, which charges what it sends to the client's
    token bucket. The encoder is a parameter: it may fail, and it need not be monotone (dropping an object
    can make a delta longer). */
module Trimming {
  import opened Wrappers
  import opened Wire
  import opened Sorting
  import opened SnapshotDelta
  import opened Budget

  type Encoder = Snapshot -> Option<seq<byte>>

  // ----- the order of dropping -----

  function PriorityKey(ref: Ref): Str {
    ref.objectType + [0] + ref.objectId
  }

  /** The provider's priority, or the configured default. */
  datatype Priorities = Priorities(provided: map<Str, int>, fallback: int) {
    function Of(ref: Ref): int {
      if PriorityKey(ref) in provided then provided[PriorityKey(ref)] else fallback
    }
  }

  /** Lowest priority first; among equals the greatest type, then the greatest id, first. */
  predicate DroppedBefore(priorities: Priorities, a: Ref, b: Ref) {
    if priorities.Of(a) != priorities.Of(b) then priorities.Of(a) < priorities.Of(b) else RefLess(b, a)
  }

  function Order(priorities: Priorities): (Ref, Ref) -> bool {
    (a, b) => DroppedBefore(priorities, a, b)
  }

  lemma OrderTotal(priorities: Priorities)
    ensures StrictTotal(Order(priorities))
  {
    RefTotal();
    var less := Order(priorities);
    assert forall a, b :: less(a, b) == DroppedBefore(priorities, a, b);
    forall a, b, c | less(a, b) && less(b, c)
      ensures less(a, c)
    {
    }
  }

  /** The drop candidates of a snapshot in order; `AscendingUnique` says there is only one such order. */
  ghost function DropOrder(objects: Snapshot, priorities: Priorities): (order: seq<Ref>)
    ensures Ascending(order, Order(priorities)) && ElementSet(order) == Flat(objects).Keys
  {
    OrderTotal(priorities);
    Sorted(Flat(objects).Keys, Order(priorities))
  }

  /** Every object is a candidate once, and of two the one with the lower priority comes first, where the
      priority is the one provided under type, a zero byte and id, or else the default; with equal ones the
      greater type first, and within a type the greater id. */
  lemma DropOrderMeaning(objects: Snapshot, priorities: Priorities, i: nat, j: nat)
    requires i < j < |DropOrder(objects, priorities)|
    ensures var a, b := DropOrder(objects, priorities)[i], DropOrder(objects, priorities)[j];
      var keyA, keyB := a.objectType + [0] + a.objectId, b.objectType + [0] + b.objectId;
      var first := if keyA in priorities.provided then priorities.provided[keyA] else priorities.fallback;
      var second := if keyB in priorities.provided then priorities.provided[keyB] else priorities.fallback;
      && first <= second
      && (first == second ==>
            StrLess(b.objectType, a.objectType) || (a.objectType == b.objectType && StrLess(b.objectId, a.objectId)))
  {
    var a, b := DropOrder(objects, priorities)[i], DropOrder(objects, priorities)[j];
    assert Order(priorities)(a, b);
  }

  // ----- dropping -----

  /** `removeSnapshotObject`: a type goes with its last object. */
  function Remove(snapshot: Snapshot, ref: Ref): Snapshot {
    if ref.objectType !in snapshot then snapshot
    else
      var group := snapshot[ref.objectType] - {ref.objectId};
      if group == map[] then snapshot - {ref.objectType} else snapshot[ref.objectType := group]
  }

  function RemoveAll(snapshot: Snapshot, refs: seq<Ref>): Snapshot {
    if refs == [] then snapshot else Remove(RemoveAll(snapshot, refs[..|refs| - 1]), refs[|refs| - 1])
  }

  function CloneGroups(canon: Json -> Json, snapshot: Snapshot): Snapshot {
    map t | t in snapshot :: map i | i in snapshot[t] :: canon(snapshot[t][i])
  }

  /** What is left after dropping the first `count` candidates from the clone. */
  ghost function Trimmed(canon: Json -> Json, objects: Snapshot, priorities: Priorities, count: nat): Snapshot
    requires count <= |DropOrder(objects, priorities)|
  {
    RemoveAll(CloneGroups(canon, objects), DropOrder(objects, priorities)[..count])
  }

  lemma RemoveFlat(snapshot: Snapshot, ref: Ref)
    ensures Flat(Remove(snapshot, ref)) == Flat(snapshot) - {ref}
  {
    var after := Remove(snapshot, ref);
    forall r: Ref
      ensures In(after, r) <==> In(snapshot, r) && r != ref
      ensures In(after, r) ==> At(after, r) == At(snapshot, r)
    {
      if ref.objectType in snapshot && r.objectType == ref.objectType {
        var group := snapshot[ref.objectType] - {ref.objectId};
        assert r.objectId in group <==> r.objectId in snapshot[ref.objectType] && r.objectId != ref.objectId;
      }
    }
    assert forall r: Ref :: r in Flat(after) <==> r in Flat(snapshot) - {ref};
  }

  lemma {:induction false} RemoveAllFlat(snapshot: Snapshot, refs: seq<Ref>)
    ensures Flat(RemoveAll(snapshot, refs)) == Flat(snapshot) - ElementSet(refs)
  {
    if refs == [] {
      assert Flat(snapshot) - ElementSet(refs) == Flat(snapshot);
    } else {
      var rest, last := refs[..|refs| - 1], refs[|refs| - 1];
      RemoveAllFlat(snapshot, rest);
      RemoveFlat(RemoveAll(snapshot, rest), last);
      assert refs == rest + [last];
      assert ElementSet(refs) == ElementSet(rest) + {last};
      assert Flat(snapshot) - ElementSet(rest) - {last} == Flat(snapshot) - ElementSet(refs);
    }
  }

  lemma CloneGroupsFlat(canon: Json -> Json, snapshot: Snapshot)
    ensures Flat(CloneGroups(canon, snapshot)) == Clone(canon, Flat(snapshot))
  {
    var cloned := CloneGroups(canon, snapshot);
    assert forall r: Ref :: In(cloned, r) <==> In(snapshot, r);
    assert forall r: Ref :: r in Flat(cloned) <==> r in Clone(canon, Flat(snapshot));
    assert forall r: Ref :: r in Flat(cloned) ==> Flat(cloned)[r] == canon(At(snapshot, r));
  }

  lemma PrefixFirst(order: seq<Ref>, priorities: Priorities, count: nat, d: Ref, k: Ref)
    requires Ascending(order, Order(priorities)) && count <= |order|
    requires d in order[..count] && k in order && k !in order[..count]
    ensures DroppedBefore(priorities, d, k) && priorities.Of(d) <= priorities.Of(k)
  {
    var i :| 0 <= i < count && order[i] == d;
    var j :| 0 <= j < |order| && order[j] == k;
    assert j >= count;
    assert Order(priorities)(order[i], order[j]);
  }

  /** Trimming drops exactly the first `count` objects of the order and keeps the others with their values;
      and no object that is kept has a lower priority than one that is dropped. */
  lemma TrimmedMeaning(canon: Json -> Json, objects: Snapshot, priorities: Priorities, count: nat)
    requires count <= |DropOrder(objects, priorities)|
    ensures var dropped := ElementSet(DropOrder(objects, priorities)[..count]);
      var kept := Flat(Trimmed(canon, objects, priorities, count));
      && kept == Clone(canon, Flat(objects)) - dropped
      && dropped <= Flat(objects).Keys && |dropped| == count
      && (forall d <- dropped, k <- kept :: DroppedBefore(priorities, d, k) && priorities.Of(d) <= priorities.Of(k))
  {
    var order := DropOrder(objects, priorities);
    var all, dropped := Clone(canon, Flat(objects)), ElementSet(order[..count]);
    CloneGroupsFlat(canon, objects);
    RemoveAllFlat(CloneGroups(canon, objects), order[..count]);
    CutMeaning(all, order, priorities, count);
    DistinctCount(order, priorities, count);
  }

  lemma CutMeaning(all: Objects, order: seq<Ref>, priorities: Priorities, count: nat)
    requires Ascending(order, Order(priorities)) && count <= |order| && ElementSet(order) == all.Keys
    ensures ElementSet(order[..count]) <= all.Keys
    ensures forall d <- ElementSet(order[..count]), k <- all - ElementSet(order[..count]) ::
      DroppedBefore(priorities, d, k) && priorities.Of(d) <= priorities.Of(k)
  {
    var dropped := ElementSet(order[..count]);
    forall d <- dropped
      ensures d in all
    {
      assert d in order;
    }
    forall d <- dropped, k <- all - dropped
      ensures DroppedBefore(priorities, d, k) && priorities.Of(d) <= priorities.Of(k)
    {
      assert k in ElementSet(order) && k !in dropped;
      PrefixFirst(order, priorities, count, d, k);
    }
  }

  lemma LaterIsOther(order: seq<Ref>, priorities: Priorities, i: nat, j: nat)
    requires Ascending(order, Order(priorities)) && i < j < |order|
    ensures order[i] != order[j]
  {
    StrConnected(order[i].objectId, order[i].objectId);
    assert Order(priorities)(order[i], order[j]);
  }

  lemma DistinctCount(order: seq<Ref>, priorities: Priorities, count: nat)
    requires Ascending(order, Order(priorities)) && count <= |order|
    ensures |ElementSet(order[..count])| == count
  {
    forall i, j | 0 <= i < j < count
      ensures order[..count][i] != order[..count][j]
    {
      LaterIsOther(order, priorities, i, j);
    }
    DistinctElements(order[..count]);
  }

  // ----- the code -----

  /** Every object, collected and sorted. */
  method SnapshotDropCandidates(objects: Snapshot, priorities: Priorities) returns (candidates: seq<Ref>)
    ensures candidates == DropOrder(objects, priorities)
  {
    OrderTotal(priorities);
    candidates := [];
    var types := objects.Keys;
    while types != {}
      invariant types <= objects.Keys
      invariant Ascending(candidates, Order(priorities))
      invariant forall r: Ref :: r in ElementSet(candidates) <==> In(objects, r) && r.objectType !in types
      decreases |types|
    {
      var objectType :| objectType in types;
      types := types - {objectType};
      var ids := objects[objectType].Keys;
      while ids != {}
        invariant ids <= objects[objectType].Keys
        invariant Ascending(candidates, Order(priorities))
        invariant forall r: Ref :: r in ElementSet(candidates) <==>
          In(objects, r) && r.objectType !in types && !(r.objectType == objectType && r.objectId in ids)
        decreases |ids|
      {
        var id :| id in ids;
        ids := ids - {id};
        candidates := InsertSorted(candidates, Order(priorities), Ref(objectType, id));
      }
    }
    assert ElementSet(candidates) == Flat(objects).Keys;
    AscendingUnique(candidates, DropOrder(objects, priorities), Order(priorities));
  }

  /** `udpFilteredSnapshot` */
  datatype Filtered = Filtered(payload: Option<seq<byte>>, objects: Snapshot, dropped: nat, failed: bool)

  ghost predicate TooLong(encode: Encoder, snapshot: Snapshot, limit: int) {
    encode(snapshot).Some? && |encode(snapshot).value| > limit
  }

  /** Dropping fewer than `count` objects, but at least one, still gives too long a payload. */
  ghost predicate TooLongBelow(
    canon: Json -> Json, objects: Snapshot, priorities: Priorities, limit: int, encode: Encoder, count: nat)
    requires count <= |DropOrder(objects, priorities)| + 1
  {
    forall j | 1 <= j < count :: TooLong(encode, Trimmed(canon, objects, priorities, j), limit)
  }

  /** The four ways a search for the least fitting prefix ends. */
  ghost predicate LeastPrefix(
    canon: Json -> Json, objects: Snapshot, priorities: Priorities, limit: int, encode: Encoder, r: Filtered)
    requires DropOrder(objects, priorities) != []
  {
    var n := |DropOrder(objects, priorities)|;
    if r.payload.Some? then
      && 1 <= r.dropped <= n && !r.failed
      && r.objects == Trimmed(canon, objects, priorities, r.dropped)
      && r.payload == encode(r.objects) && |r.payload.value| <= limit
      && TooLongBelow(canon, objects, priorities, limit, encode, r.dropped)
    else if r.failed then
      && r.dropped == 0
      && exists k :: 1 <= k <= n && encode(Trimmed(canon, objects, priorities, k)).None?
           && TooLongBelow(canon, objects, priorities, limit, encode, k)
    else
      r.dropped == n && TooLongBelow(canon, objects, priorities, limit, encode, n + 1)
  }

  lemma TrimmedNext(canon: Json -> Json, objects: Snapshot, priorities: Priorities, count: nat)
    requires count < |DropOrder(objects, priorities)|
    ensures Trimmed(canon, objects, priorities, count + 1)
         == Remove(Trimmed(canon, objects, priorities, count), DropOrder(objects, priorities)[count])
  {
    var order := DropOrder(objects, priorities);
    assert order[..count + 1][..count] == order[..count];
  }

  lemma TooLongNext(
    canon: Json -> Json, objects: Snapshot, priorities: Priorities, limit: int, encode: Encoder, count: nat)
    requires count <= |DropOrder(objects, priorities)|
    requires TooLongBelow(canon, objects, priorities, limit, encode, count)
    requires TooLong(encode, Trimmed(canon, objects, priorities, count), limit)
    ensures TooLongBelow(canon, objects, priorities, limit, encode, count + 1)
  {
    forall j | 1 <= j < count + 1
      ensures TooLong(encode, Trimmed(canon, objects, priorities, j), limit)
    {
      if j == count {
      }
    }
  }

  method FilterSnapshotForLimit(
    canon: Json -> Json, objects: Snapshot, priorities: Priorities, limit: int, encode: Encoder)
    returns (r: Filtered)
    ensures limit <= 0 || Flat(objects) == map[] ==> r.dropped == 0
    ensures limit > 0 && Flat(objects) != map[] ==>
      DropOrder(objects, priorities) != [] && LeastPrefix(canon, objects, priorities, limit, encode, r)
  {
    if limit <= 0 {
      return Filtered(None, map[], 0, false);
    }
    var filtered := CloneGroups(canon, objects);
    var candidates := SnapshotDropCandidates(objects, priorities);
    var dropped := 0;
    assert candidates == [] <==> Flat(objects) == map[];
    while dropped < |candidates|
      invariant dropped <= |candidates|
      invariant filtered == Trimmed(canon, objects, priorities, dropped)
      invariant TooLongBelow(canon, objects, priorities, limit, encode, dropped + 1)
    {
      TrimmedNext(canon, objects, priorities, dropped);
      filtered := Remove(filtered, candidates[dropped]);
      dropped := dropped + 1;
      var payload := encode(filtered);
      if payload.None? {
        return Filtered(None, map[], 0, true);
      }
      if |payload.value| <= limit {
        return Filtered(payload, filtered, dropped, false);
      }
      TooLongNext(canon, objects, priorities, limit, encode, dropped);
    }
    var payload := encode(filtered);
    if payload.None? {
      return Filtered(None, map[], 0, true);
    }
    if |payload.value| <= limit {
      return Filtered(payload, filtered, dropped, false);
    }
    return Filtered(None, map[], dropped, false);
  }

  ghost predicate LeastCount(
    canon: Json -> Json, objects: Snapshot, priorities: Priorities, limit: int, encode: Encoder, k: nat)
    requires k <= |DropOrder(objects, priorities)|
  {
    && TooLongBelow(canon, objects, priorities, limit, encode, k)
    && !TooLong(encode, Trimmed(canon, objects, priorities, k), limit)
  }

  /** At most one count is the least that does not give too long a payload. */
  lemma LeastUnique(
    canon: Json -> Json, objects: Snapshot, priorities: Priorities, limit: int, encode: Encoder, j: nat, k: nat)
    requires 1 <= j <= |DropOrder(objects, priorities)| && 1 <= k <= |DropOrder(objects, priorities)|
    ensures j != k ==>
      && !(LeastCount(canon, objects, priorities, limit, encode, j)
           && LeastCount(canon, objects, priorities, limit, encode, k))
  {
  }

  /** The cases of `LeastPrefix` exclude each other: where some prefix is the least to fit, it is found. */
  lemma LeastPrefixFound(
    canon: Json -> Json, objects: Snapshot, priorities: Priorities, limit: int, encode: Encoder, r: Filtered, k: nat)
    requires 1 <= k <= |DropOrder(objects, priorities)|
    requires LeastPrefix(canon, objects, priorities, limit, encode, r)
    requires TooLongBelow(canon, objects, priorities, limit, encode, k)
    requires !TooLong(encode, Trimmed(canon, objects, priorities, k), limit)
    ensures var payload := encode(Trimmed(canon, objects, priorities, k));
      if payload.Some? then r == Filtered(payload, Trimmed(canon, objects, priorities, k), k, false)
      else r.payload.None? && r.failed
  {
    if r.payload.Some? {
      LeastUnique(canon, objects, priorities, limit, encode, r.dropped, k);
    } else if r.failed {
      var j :| 1 <= j <= |DropOrder(objects, priorities)| && encode(Trimmed(canon, objects, priorities, j)).None?
        && TooLongBelow(canon, objects, priorities, limit, encode, j);
      LeastUnique(canon, objects, priorities, limit, encode, j, k);
    }
  }

  // ----- charging a snapshot -----

  /** `negotiatedMaxPacketSize` */
  function NegotiatedMax(clientMax: int, serverMax: int): int {
    if clientMax <= 0 then serverMax else if clientMax < serverMax then clientMax else serverMax
  }

  /** `validateOutboundPacket` lets a payload of this length through. */
  predicate ValidLength(clientMax: int, serverMax: int, length: nat) {
    var negotiated := NegotiatedMax(clientMax, serverMax);
    length <= if 0 < negotiated < serverMax then negotiated else serverMax
  }

  /** A payload is let through exactly if it exceeds neither the server's maximum nor the client's, where a
      client has one. */
  lemma ValidLengthMeaning(clientMax: int, serverMax: int, length: nat)
    ensures ValidLength(clientMax, serverMax, length) <==>
      length <= serverMax && (clientMax > 0 ==> length <= clientMax)
  {
  }

  /** A snapshot is fitted to the two maxima and to what the bucket holds. */
  lemma SizeLimitMeaning(bucket: Bucket, capacity: int, clientMax: int, serverMax: int, now: real, length: nat)
    requires length > 0
    ensures length <= SizeLimit(bucket, capacity, clientMax, serverMax, now) <==>
      && length <= serverMax && (clientMax > 0 ==> length <= clientMax)
      && length as real <= Refill(bucket, PerSecond(capacity), now).available
  {
  }

  lemma TrimmedCount(canon: Json -> Json, objects: Snapshot, priorities: Priorities, count: nat)
    requires count <= |DropOrder(objects, priorities)|
    ensures |Flat(Trimmed(canon, objects, priorities, count))| == |Flat(objects)| - count
  {
    TrimmedMeaning(canon, objects, priorities, count);
    var all, dropped := Flat(objects), ElementSet(DropOrder(objects, priorities)[..count]);
    var kept := Flat(Trimmed(canon, objects, priorities, count));
    assert Clone(canon, all).Keys == all.Keys;
    assert kept.Keys == all.Keys - dropped;
  }

  datatype Sent = Sent(payload: seq<byte>, objects: Snapshot)

  /** The snapshot goes out whole if it fits, else after dropping the least fitting prefix. */
  ghost predicate Chosen(
    canon: Json -> Json, objects: Snapshot, priorities: Priorities, limit: int, encode: Encoder, sent: Sent)
  {
    && encode(sent.objects) == Some(sent.payload)
    && |sent.payload| <= limit
    && if encode(objects).Some? && |encode(objects).value| <= limit then sent.objects == objects
       else
         exists k :: 1 <= k <= |DropOrder(objects, priorities)|
           && sent.objects == Trimmed(canon, objects, priorities, k)
           && TooLongBelow(canon, objects, priorities, limit, encode, k)
  }

  /** The filter finds whatever can be chosen. */
  lemma ChosenFound(
    canon: Json -> Json, objects: Snapshot, priorities: Priorities, limit: int, encode: Encoder, r: Filtered)
    requires TooLong(encode, objects, limit)
    requires DropOrder(objects, priorities) != [] ==> LeastPrefix(canon, objects, priorities, limit, encode, r)
    ensures forall s | Chosen(canon, objects, priorities, limit, encode, s) ::
      r.dropped > 0 && r.payload == Some(s.payload) && r.objects == s.objects
  {
    forall s | Chosen(canon, objects, priorities, limit, encode, s)
      ensures r.dropped > 0 && r.payload == Some(s.payload) && r.objects == s.objects
    {
      var k :| 1 <= k <= |DropOrder(objects, priorities)|
        && s.objects == Trimmed(canon, objects, priorities, k)
        && TooLongBelow(canon, objects, priorities, limit, encode, k);
      LeastPrefixFound(canon, objects, priorities, limit, encode, r, k);
    }
  }

  /** Trimming drops nothing: there is no room at all, there are no objects, or encoding fails before
      anything fits. */
  ghost predicate DropsNothing(
    canon: Json -> Json, objects: Snapshot, priorities: Priorities, limit: int, encode: Encoder)
  {
    || limit <= 0 || DropOrder(objects, priorities) == []
    || exists k :: 1 <= k <= |DropOrder(objects, priorities)| && encode(Trimmed(canon, objects, priorities, k)).None?
         && TooLongBelow(canon, objects, priorities, limit, encode, k)
  }

  /** A failed search has dropped nothing exactly in those cases. */
  lemma FailureMeaning(
    canon: Json -> Json, objects: Snapshot, priorities: Priorities, limit: int, encode: Encoder, r: Filtered)
    requires DropOrder(objects, priorities) != [] && limit > 0
    requires LeastPrefix(canon, objects, priorities, limit, encode, r) && r.payload.None?
    ensures r.dropped == 0 <==> DropsNothing(canon, objects, priorities, limit, encode)
  {
  }

  /** The whole snapshot, already encoded as `payload`, or what trimming makes of it. */
  method FitToLimit(
    canon: Json -> Json, objects: Snapshot, priorities: Priorities, limit: int, encode: Encoder, payload: seq<byte>)
    returns (fit: Option<Sent>, dropped: nat)
    requires encode(objects) == Some(payload)
    ensures fit.Some? ==>
      && Chosen(canon, objects, priorities, limit, encode, fit.value)
      && dropped == |Flat(objects)| - |Flat(fit.value.objects)|
    ensures fit.None? ==>
      |payload| > limit && (dropped == 0 <==> DropsNothing(canon, objects, priorities, limit, encode))
    ensures limit > 0 ==> forall s | Chosen(canon, objects, priorities, limit, encode, s) :: fit == Some(s)
  {
    if |payload| <= limit {
      return Some(Sent(payload, objects)), 0;
    }
    var filtered := FilterSnapshotForLimit(canon, objects, priorities, limit, encode);
    assert DropOrder(objects, priorities) == [] <==> Flat(objects) == map[];
    if limit > 0 {
      ChosenFound(canon, objects, priorities, limit, encode, filtered);
      if DropOrder(objects, priorities) != [] && filtered.payload.None? {
        FailureMeaning(canon, objects, priorities, limit, encode, filtered);
      }
    }
    if filtered.dropped == 0 || filtered.payload.None? {
      return None, filtered.dropped;
    }
    TrimmedCount(canon, objects, priorities, filtered.dropped);
    return Some(Sent(filtered.payload.value, filtered.objects)), filtered.dropped;
  }

  /** `encodeBudgetedUDPSnapshot`. What is charged is what is sent, byte for byte; what is charged is never
      too long for the packet check that follows; and the budget never refuses what was fitted to it. */
  method EncodeBudgetedSnapshot(
    budget: ClientBudget, enabled: bool, capacity: int, clientMax: int, serverMax: int,
    canon: Json -> Json, objects: Snapshot, priorities: Priorities, encode: Encoder, now: real)
    returns (sent: Option<Sent>, failed: bool, oversized: bool)
    requires budget.available <= capacity as real
    modifies budget
    ensures failed == encode(objects).None?
    ensures failed ==> sent.None?
    ensures failed || !enabled ==> budget.Value() == old(budget.Value())
    ensures !failed && !enabled ==> sent == Some(Sent(encode(objects).value, objects))
    ensures enabled && sent.Some? ==>
      budget.Value() == Charged(old(budget.Value()), capacity, |sent.value.payload|, now)
    ensures enabled && !failed && sent.None? ==>
      budget.Value() == Refill(old(budget.Value()), PerSecond(capacity), now)
    ensures enabled && sent.Some? ==>
      && ValidLength(clientMax, serverMax, |sent.value.payload|)
      && Chosen(canon, objects, priorities, SizeLimit(old(budget.Value()), capacity, clientMax, serverMax, now),
                encode, sent.value)
      && budget.deferrals == old(budget.deferrals) + |Flat(objects)| - |Flat(sent.value.objects)|
    ensures enabled && SizeLimit(old(budget.Value()), capacity, clientMax, serverMax, now) > 0 ==>
      forall s | Chosen(canon, objects, priorities, SizeLimit(old(budget.Value()), capacity, clientMax, serverMax, now),
                        encode, s) :: !failed ==> sent == Some(s)
    ensures enabled && sent.Some? ==>
      |sent.value.payload| <= serverMax && (clientMax > 0 ==> |sent.value.payload| <= clientMax)
    ensures oversized ==> enabled && !failed && sent.None?
    ensures enabled && !failed && sent.None? ==>
      var limit := SizeLimit(old(budget.Value()), capacity, clientMax, serverMax, now);
      var tooLong := !ValidLength(clientMax, serverMax, |encode(objects).value|);
      var nothing := DropsNothing(canon, objects, priorities, limit, encode);
      oversized == (nothing && tooLong)
      && budget.deferrals == old(budget.deferrals) + if nothing && !tooLong then 1 else 0
    ensures budget.drops == old(budget.drops)
  {
    sent, failed, oversized := None, false, false;
    var payload := encode(objects);
    if payload.None? {
      failed := true;
      return;
    }
    var budgetLimit, budgeting := budget.OutboundBudgetLimit(enabled, capacity, now);
    if !budgeting {
      sent := Some(Sent(payload.value, objects));
      return;
    }
    var limit := NegotiatedMax(clientMax, serverMax);
    if budgetLimit < limit {
      limit := budgetLimit;
    }
    var fit, dropped := FitToLimit(canon, objects, priorities, limit, encode, payload.value);
    if fit.Some? {
      ChargeWithinLimit(old(budget.Value()), capacity, |fit.value.payload|, now);
      var granted := budget.ReserveOutboundBudget(enabled, capacity, |fit.value.payload|, true, now);
      if granted {
        budget.RecordDeferrals(dropped);
        sent := fit;
      }
    } else if dropped == 0 {
      if |payload.value| > NegotiatedMax(clientMax, serverMax) {
        oversized := true;
      } else {
        budget.RecordDeferrals(1);
      }
    }
  }

  /** The smaller of the negotiated packet size and the whole bytes in the budget. */
  function SizeLimit(bucket: Bucket, capacity: int, clientMax: int, serverMax: int, now: real): int {
    var limit := Limit(bucket, PerSecond(capacity), now);
    if limit < NegotiatedMax(clientMax, serverMax) then limit else NegotiatedMax(clientMax, serverMax)
  }
}
