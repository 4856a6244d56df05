/** The per-client bandwidth budget: a token bucket refilled by elapsed clock time
    (`refillClientBudgetLocked`, `reserveOutboundBudget`, `outboundBudgetLimit`), over exact reals.
    `GrantedExactly` says which reservations it grants without mentioning a bucket at all. */
module Budget {
  import opened Wrappers

  /** `inflow(a, b)` is what flows in while the clock goes from `a` to `b`. */
  datatype Rate = Rate(capacity: int, inflow: (real, real) -> real)

  /** Capacity times the elapsed seconds. */
  function InSeconds(capacity: int, a: real, b: real): real {
    (b - a) * capacity as real
  }

  /** The rate the server uses: the bucket fills once a second. */
  function PerSecond(capacity: int): Rate {
    Rate(capacity, (a, b) => InSeconds(capacity, a, b))
  }

  /** `last` is `None` while the refill time is Go's zero time. */
  datatype Bucket = Bucket(available: real, last: Option<real>)

  /** The budget a new client starts with. */
  function NewBucket(rate: Rate, now: real): Bucket {
    Bucket(rate.capacity as real, Some(now))
  }

  function Refill(bucket: Bucket, rate: Rate, now: real): Bucket {
    if rate.capacity <= 0 then Bucket(0.0, Some(now))
    else if bucket.last.None? then Bucket(rate.capacity as real, Some(now))
    else if now < bucket.last.value then Bucket(bucket.available, Some(now))
    else
      var filled := bucket.available + rate.inflow(bucket.last.value, now);
      Bucket(if filled > rate.capacity as real then rate.capacity as real else filled, Some(now))
  }

  predicate Grants(bucket: Bucket, rate: Rate, bytes: int, now: real) {
    bytes <= 0 || bytes as real <= Refill(bucket, rate, now).available
  }

  /** A reservation of nothing returns before the refill. */
  function Reserve(bucket: Bucket, rate: Rate, bytes: int, now: real): Bucket {
    if bytes <= 0 then bucket
    else
      var filled := Refill(bucket, rate, now);
      if Grants(bucket, rate, bytes, now) then filled.(available := filled.available - bytes as real) else filled
  }

  /** Whole bytes that may be sent at `now`. */
  function Limit(bucket: Bucket, rate: Rate, now: real): nat {
    var available := Refill(bucket, rate, now).available;
    if available <= 0.0 then 0 else available.Floor
  }

  // ----- runs -----

  datatype Call = Ask(now: real) | Spend(bytes: int, now: real)

  /** One past call: when, and how many bytes it was granted. */
  datatype Grant = Grant(now: real, bytes: nat)

  datatype Session = Session(bucket: Bucket, history: seq<Grant>)

  function Start(rate: Rate, now: real): Session {
    Session(NewBucket(rate, now), [Grant(now, 0)])
  }

  function Step(session: Session, rate: Rate, call: Call): Session {
    var bucket := session.bucket;
    match call
    case Ask(now) => Session(Refill(bucket, rate, now), session.history + [Grant(now, 0)])
    case Spend(bytes, now) =>
      if bytes <= 0 then session
      else
        var granted := if Grants(bucket, rate, bytes, now) then bytes else 0;
        Session(Reserve(bucket, rate, bytes, now), session.history + [Grant(now, granted)])
  }

  function Run(session: Session, rate: Rate, calls: seq<Call>): Session
    decreases |calls|
  {
    if calls == [] then session
    else Step(Run(session, rate, calls[..|calls| - 1]), rate, calls[|calls| - 1])
  }

  function Total(history: seq<Grant>): nat {
    if history == [] then 0 else Total(history[..|history| - 1]) + history[|history| - 1].bytes
  }

  ghost predicate ClockNeverSteppedBack(history: seq<Grant>) {
    forall i, j :: 0 <= i <= j < |history| ==> history[i].now <= history[j].now
  }

  /** What flows in between two readings; a step back brings nothing and costs nothing. */
  function Gained(rate: Rate, a: real, b: real): real {
    if b < a then 0.0 else rate.inflow(a, b)
  }

  /** What flowed in while the clock went forward. */
  function ForwardInflow(history: seq<Grant>, rate: Rate): real {
    if |history| <= 1 then 0.0
    else
      ForwardInflow(history[..|history| - 1], rate)
      + Gained(rate, history[|history| - 2].now, history[|history| - 1].now)
  }

  /** Nothing flows out by itself. */
  ghost predicate Proper(rate: Rate) {
    rate.capacity >= 0 && forall a, b :: a <= b ==> rate.inflow(a, b) >= 0.0
  }

  /** Inflow adds up over adjacent spans of time. */
  ghost predicate Steady(rate: Rate) {
    forall a, b, c :: rate.inflow(a, b) + rate.inflow(b, c) == rate.inflow(a, c)
  }

  lemma PerSecondSteady(capacity: nat)
    ensures Proper(PerSecond(capacity)) && Steady(PerSecond(capacity))
  {
    var rate := PerSecond(capacity);
    forall x, y, z
      ensures rate.inflow(x, y) + rate.inflow(y, z) == rate.inflow(x, z)
    {
      SecondsAdd(capacity, x, y, z);
    }
    forall x, y | x <= y
      ensures rate.inflow(x, y) >= 0.0
    {
      SecondsSign(capacity, x, y);
    }
  }

  lemma SecondsAdd(capacity: int, x: real, y: real, z: real)
    ensures InSeconds(capacity, x, y) + InSeconds(capacity, y, z) == InSeconds(capacity, x, z)
  {
    var c := capacity as real;
    assert (y - x) * c + (z - y) * c == (z - x) * c;
  }

  lemma SecondsSign(capacity: nat, x: real, y: real)
    ensures x <= y ==> InSeconds(capacity, x, y) >= 0.0
    ensures y < x && capacity >= 1 ==> InSeconds(capacity, x, y) < 0.0
  {
    var c := capacity as real;
    if y < x && capacity >= 1 {
      Product(x - y, c);
      assert (y - x) * c == -((x - y) * c);
    }
  }

  lemma Product(x: real, y: real)
    requires x > 0.0 && y > 0.0
    ensures x * y > 0.0
  {
  }

  /** What the calls since `history[from]` leave, at `now`, of one full bucket plus what flowed in since. */
  ghost function Allowance(history: seq<Grant>, rate: Rate, from: nat, now: real): real
    requires from < |history|
  {
    rate.capacity as real + ForwardInflow(history[from..], rate) + Gained(rate, history[|history| - 1].now, now)
    - Total(history[from..]) as real
  }

  /** The same right after the last call. */
  ghost function Remaining(history: seq<Grant>, rate: Rate, from: nat): real
    requires from < |history|
  {
    rate.capacity as real + ForwardInflow(history[from..], rate) - Total(history[from..]) as real
  }

  /** The balance is the least that any window leaves, and one window leaves just that. */
  ghost predicate Balanced(session: Session, rate: Rate) {
    && (forall from | 0 <= from < |session.history| ::
          session.bucket.available <= Remaining(session.history, rate, from))
    && (exists from | 0 <= from < |session.history| ::
          session.bucket.available == Remaining(session.history, rate, from))
  }

  ghost predicate Inv(session: Session, rate: Rate) {
    var history := session.history;
    && history != []
    && session.bucket.last == Some(history[|history| - 1].now)
    && 0.0 <= session.bucket.available <= rate.capacity as real
    && Balanced(session, rate)
  }

  lemma StartOk(rate: Rate, now: real)
    requires rate.capacity >= 0
    ensures Inv(Start(rate, now), rate)
  {
    var session := Start(rate, now);
    assert Total(session.history) == Total(session.history[..0]) == 0;
    assert session.history[0..] == session.history;
    assert Remaining(session.history, rate, 0) == session.bucket.available;
  }

  lemma ExtendTotal(history: seq<Grant>, grant: Grant)
    ensures Total(history + [grant]) == Total(history) + grant.bytes
  {
    assert (history + [grant])[..|history|] == history;
  }

  lemma ExtendInflow(history: seq<Grant>, grant: Grant, rate: Rate)
    requires history != []
    ensures ForwardInflow(history + [grant], rate)
         == ForwardInflow(history, rate) + Gained(rate, history[|history| - 1].now, grant.now)
  {
    assert (history + [grant])[..|history|] == history;
  }

  /** A call moves what every older window leaves by the inflow and by what the call is granted. */
  lemma ExtendRemaining(history: seq<Grant>, grant: Grant, rate: Rate, from: nat)
    requires from < |history|
    ensures Remaining(history + [grant], rate, from)
         == Allowance(history, rate, from, grant.now) - grant.bytes as real
    ensures Allowance(history, rate, from, grant.now)
         == Remaining(history, rate, from) + Gained(rate, history[|history| - 1].now, grant.now)
  {
    assert (history + [grant])[from..] == history[from..] + [grant];
    assert history[from..][|history[from..]| - 1] == history[|history| - 1];
    ExtendTotal(history[from..], grant);
    ExtendInflow(history[from..], grant, rate);
  }

  /** The window that starts with the call itself. */
  lemma NewestRemaining(history: seq<Grant>, grant: Grant, rate: Rate)
    ensures Remaining(history + [grant], rate, |history|) == rate.capacity as real - grant.bytes as real
  {
    assert (history + [grant])[|history|..] == [] + [grant];
    ExtendTotal([], grant);
  }

  /** Refilling at `now` and taking `bytes` out of what is then available. */
  ghost predicate Calls(before: Session, rate: Rate, bytes: nat, now: real, after: Session) {
    var filled := Refill(before.bucket, rate, now);
    && bytes as real <= filled.available
    && after == Session(filled.(available := filled.available - bytes as real), before.history + [Grant(now, bytes)])
  }

  /** Refilling adds the gain, up to the capacity. */
  lemma RefillIsGain(session: Session, rate: Rate, now: real)
    requires Proper(rate) && Inv(session, rate)
    ensures var filled := session.bucket.available + Gained(rate, session.history[|session.history| - 1].now, now);
      Refill(session.bucket, rate, now)
      == Bucket(if filled > rate.capacity as real then rate.capacity as real else filled, Some(now))
  {
    assert Gained(rate, session.history[|session.history| - 1].now, now) >= 0.0;
  }

  lemma CallKeepsRange(before: Session, rate: Rate, bytes: nat, now: real, after: Session)
    requires Proper(rate) && Inv(before, rate) && Calls(before, rate, bytes, now, after)
    ensures after.bucket.last == Some(now) && 0.0 <= after.bucket.available <= rate.capacity as real
  {
    RefillIsGain(before, rate, now);
    assert Gained(rate, before.history[|before.history| - 1].now, now) >= 0.0;
  }

  /** No window leaves less than the new balance. */
  lemma CallKeepsLower(before: Session, rate: Rate, bytes: nat, now: real, after: Session, from: nat)
    requires Proper(rate) && Inv(before, rate) && Calls(before, rate, bytes, now, after)
    requires from < |after.history|
    ensures after.bucket.available <= Remaining(after.history, rate, from)
  {
    RefillIsGain(before, rate, now);
    if from < |before.history| {
      ExtendRemaining(before.history, Grant(now, bytes), rate, from);
      assert before.bucket.available <= Remaining(before.history, rate, from);
    } else {
      NewestRemaining(before.history, Grant(now, bytes), rate);
    }
  }

  /** The window that was tight stays so, or the call's own becomes it. */
  lemma CallKeepsTight(before: Session, rate: Rate, bytes: nat, now: real, after: Session) returns (from: nat)
    requires Proper(rate) && Inv(before, rate) && Calls(before, rate, bytes, now, after)
    ensures from < |after.history| && after.bucket.available == Remaining(after.history, rate, from)
  {
    RefillIsGain(before, rate, now);
    var gained := Gained(rate, before.history[|before.history| - 1].now, now);
    if before.bucket.available + gained > rate.capacity as real {
      from := |before.history|;
      NewestRemaining(before.history, Grant(now, bytes), rate);
    } else {
      from :| 0 <= from < |before.history| && before.bucket.available == Remaining(before.history, rate, from);
      ExtendRemaining(before.history, Grant(now, bytes), rate, from);
    }
  }

  lemma CallKeeps(before: Session, rate: Rate, bytes: nat, now: real, after: Session)
    requires Proper(rate) && Inv(before, rate) && Calls(before, rate, bytes, now, after)
    ensures Inv(after, rate)
  {
    CallKeepsRange(before, rate, bytes, now, after);
    forall from | 0 <= from < |after.history|
      ensures after.bucket.available <= Remaining(after.history, rate, from)
    {
      CallKeepsLower(before, rate, bytes, now, after, from);
    }
    var from := CallKeepsTight(before, rate, bytes, now, after);
  }

  lemma StepKeeps(session: Session, rate: Rate, call: Call)
    requires Proper(rate) && Inv(session, rate)
    ensures Inv(Step(session, rate, call), rate)
  {
    if call.Ask? || call.bytes > 0 {
      var after := Step(session, rate, call);
      var bytes := after.history[|session.history|].bytes;
      RefillIsGain(session, rate, call.now);
      assert Gained(rate, session.history[|session.history| - 1].now, call.now) >= 0.0;
      assert Calls(session, rate, bytes, call.now, after);
      CallKeeps(session, rate, bytes, call.now, after);
    }
  }

  /** Every reachable session, whatever the clock does: the balance stays within the bucket, and it is
      exactly the least that any window leaves of one full bucket plus the window's inflow. */
  lemma {:induction false} EveryRun(rate: Rate, now: real, calls: seq<Call>)
    requires Proper(rate)
    ensures Inv(Run(Start(rate, now), rate, calls), rate)
    decreases |calls|
  {
    if calls == [] {
      StartOk(rate, now);
    } else {
      EveryRun(rate, now, calls[..|calls| - 1]);
      StepKeeps(Run(Start(rate, now), rate, calls[..|calls| - 1]), rate, calls[|calls| - 1]);
    }
  }

  // ----- the main results -----

  /** For every clock: between any past call and the last one, at most one full bucket plus what flowed in
      while the clock went forward is granted. */
  lemma WindowBound(rate: Rate, start: real, calls: seq<Call>, from: nat)
    requires Proper(rate) && from < |Run(Start(rate, start), rate, calls).history|
    ensures var history := Run(Start(rate, start), rate, calls).history;
      Total(history[from..]) as real <= rate.capacity as real + ForwardInflow(history[from..], rate)
  {
    var session := Run(Start(rate, start), rate, calls);
    EveryRun(rate, start, calls);
    assert session.bucket.available <= Remaining(session.history, rate, from);
  }

  /** A reservation would break no window's bound, its own included. */
  ghost predicate Fits(history: seq<Grant>, rate: Rate, bytes: int, now: real) {
    && bytes <= rate.capacity
    && forall from | 0 <= from < |history| :: bytes as real <= Allowance(history, rate, from, now)
  }

  /** The bucket is the most generous limiter with that bound: after any run, for every clock reading, a
      reservation is granted if and only if every window that ends with it stays within one full bucket
      plus the window's inflow. */
  lemma GrantedExactly(rate: Rate, start: real, calls: seq<Call>, bytes: int, now: real)
    requires Proper(rate) && bytes > 0
    ensures var session := Run(Start(rate, start), rate, calls);
      Grants(session.bucket, rate, bytes, now) <==> Fits(session.history, rate, bytes, now)
  {
    EveryRun(rate, start, calls);
    TightestDecides(Run(Start(rate, start), rate, calls), rate, bytes, now);
  }

  lemma TightestDecides(session: Session, rate: Rate, bytes: int, now: real)
    requires Proper(rate) && Inv(session, rate)
    ensures bytes as real <= Refill(session.bucket, rate, now).available <==> Fits(session.history, rate, bytes, now)
  {
    var history := session.history;
    RefillIsGain(session, rate, now);
    if Fits(history, rate, bytes, now) {
      var tight :| 0 <= tight < |history| && session.bucket.available == Remaining(history, rate, tight);
      ExtendRemaining(history, Grant(now, 0), rate, tight);
    } else if bytes <= rate.capacity {
      var from :| 0 <= from < |history| && bytes as real > Allowance(history, rate, from, now);
      ExtendRemaining(history, Grant(now, 0), rate, from);
      assert session.bucket.available <= Remaining(history, rate, from);
    }
  }

  // ----- in seconds -----

  /** A clock that never stepped back: all its movement is elapsed time. */
  lemma {:induction false} ForwardIsElapsed(history: seq<Grant>, rate: Rate)
    requires Steady(rate) && history != [] && ClockNeverSteppedBack(history)
    ensures ForwardInflow(history, rate) == rate.inflow(history[0].now, history[|history| - 1].now)
  {
    var first := history[0].now;
    if |history| == 1 {
      assert rate.inflow(first, first) + rate.inflow(first, first) == rate.inflow(first, first);
    } else {
      var earlier := history[..|history| - 1];
      assert history[|history| - 2].now <= history[|history| - 1].now;
      assert forall i :: 0 <= i < |earlier| ==> earlier[i] == history[i];
      ForwardIsElapsed(earlier, rate);
    }
  }

  /** In seconds, for a clock that does not step back: between any past call and the last one at most
      capacity plus capacity times the elapsed seconds is granted. */
  ghost predicate WithinSeconds(capacity: nat, history: seq<Grant>, from: nat)
    requires from < |history|
  {
    Total(history[from..]) as real
      <= capacity as real + capacity as real * (history[|history| - 1].now - history[from].now)
  }

  lemma TokenBucketBound(capacity: nat, start: real, calls: seq<Call>, from: nat)
    requires var history := Run(Start(PerSecond(capacity), start), PerSecond(capacity), calls).history;
      from < |history| && ClockNeverSteppedBack(history)
    ensures WithinSeconds(capacity, Run(Start(PerSecond(capacity), start), PerSecond(capacity), calls).history, from)
  {
    BoundPerSecond(capacity, start, calls, from);
    BoundMeaning(capacity, Run(Start(PerSecond(capacity), start), PerSecond(capacity), calls).history, from);
  }

  lemma BoundMeaning(capacity: nat, history: seq<Grant>, from: nat)
    requires from < |history|
    requires Total(history[from..]) as real
          <= capacity as real + PerSecond(capacity).inflow(history[from].now, history[|history| - 1].now)
    ensures WithinSeconds(capacity, history, from)
  {
    SecondsMeaning(capacity, history[from].now, history[|history| - 1].now);
  }

  lemma BoundPerSecond(capacity: nat, start: real, calls: seq<Call>, from: nat)
    requires var history := Run(Start(PerSecond(capacity), start), PerSecond(capacity), calls).history;
      from < |history| && ClockNeverSteppedBack(history)
    ensures var history := Run(Start(PerSecond(capacity), start), PerSecond(capacity), calls).history;
      Total(history[from..]) as real
      <= capacity as real + PerSecond(capacity).inflow(history[from].now, history[|history| - 1].now)
  {
    PerSecondSteady(capacity);
    ElapsedBound(PerSecond(capacity), start, calls, from);
  }

  lemma ElapsedBound(rate: Rate, start: real, calls: seq<Call>, from: nat)
    requires Proper(rate) && Steady(rate)
    requires var history := Run(Start(rate, start), rate, calls).history;
      from < |history| && ClockNeverSteppedBack(history)
    ensures var history := Run(Start(rate, start), rate, calls).history;
      Total(history[from..]) as real
      <= rate.capacity as real + rate.inflow(history[from].now, history[|history| - 1].now)
  {
    WindowBound(rate, start, calls, from);
    ElapsedSince(rate, Run(Start(rate, start), rate, calls).history, from);
  }

  lemma ElapsedSince(rate: Rate, history: seq<Grant>, from: nat)
    requires Steady(rate) && from < |history| && ClockNeverSteppedBack(history)
    ensures ForwardInflow(history[from..], rate) == rate.inflow(history[from].now, history[|history| - 1].now)
  {
    assert forall i :: 0 <= i < |history[from..]| ==> history[from..][i] == history[from + i];
    ForwardIsElapsed(history[from..], rate);
  }

  lemma SecondsMeaning(capacity: int, a: real, b: real)
    ensures PerSecond(capacity).inflow(a, b) == capacity as real * (b - a)
  {
  }

  /** With these bytes more, the window from `from` to `now` stays within capacity plus capacity times its
      seconds. */
  ghost predicate RoomInSeconds(capacity: nat, history: seq<Grant>, from: nat, bytes: int, now: real)
    requires from < |history|
  {
    (Total(history[from..]) + bytes) as real <= capacity as real + capacity as real * (now - history[from].now)
  }

  /** With a clock that has not stepped back, a reservation is granted exactly when it is no larger than the
      capacity and every window that ends with it stays within capacity plus capacity times its seconds. */
  lemma GrantedInSeconds(capacity: nat, start: real, calls: seq<Call>, bytes: int, now: real)
    requires bytes > 0
    requires var history := Run(Start(PerSecond(capacity), start), PerSecond(capacity), calls).history;
      ClockNeverSteppedBack(history) && forall i :: 0 <= i < |history| ==> history[i].now <= now
    ensures var session := Run(Start(PerSecond(capacity), start), PerSecond(capacity), calls);
      Grants(session.bucket, PerSecond(capacity), bytes, now) <==>
        && bytes <= capacity
        && forall from | 0 <= from < |session.history| :: RoomInSeconds(capacity, session.history, from, bytes, now)
  {
    GrantedPerSecond(capacity, start, calls, bytes, now);
    RoomMeaning(
      capacity, Run(Start(PerSecond(capacity), start), PerSecond(capacity), calls).history, bytes, now);
  }

  /** The same for any rate, on a clock that has not stepped back. */
  ghost predicate Room(rate: Rate, history: seq<Grant>, from: nat, bytes: int, now: real)
    requires from < |history|
  {
    (Total(history[from..]) + bytes) as real <= rate.capacity as real + rate.inflow(history[from].now, now)
  }

  lemma RoomMeaning(capacity: nat, history: seq<Grant>, bytes: int, now: real)
    ensures forall from | 0 <= from < |history| ::
      Room(PerSecond(capacity), history, from, bytes, now) <==> RoomInSeconds(capacity, history, from, bytes, now)
  {
    forall from | 0 <= from < |history|
      ensures Room(PerSecond(capacity), history, from, bytes, now)
         <==> RoomInSeconds(capacity, history, from, bytes, now)
    {
      SecondsMeaning(capacity, history[from].now, now);
    }
  }

  lemma GrantedPerSecond(capacity: nat, start: real, calls: seq<Call>, bytes: int, now: real)
    requires bytes > 0
    requires var history := Run(Start(PerSecond(capacity), start), PerSecond(capacity), calls).history;
      ClockNeverSteppedBack(history) && forall i :: 0 <= i < |history| ==> history[i].now <= now
    ensures var session := Run(Start(PerSecond(capacity), start), PerSecond(capacity), calls);
      Grants(session.bucket, PerSecond(capacity), bytes, now) <==>
        && bytes <= capacity
        && forall from | 0 <= from < |session.history| ::
             Room(PerSecond(capacity), session.history, from, bytes, now)
  {
    PerSecondSteady(capacity);
    GrantedElapsed(PerSecond(capacity), start, calls, bytes, now);
  }

  lemma GrantedElapsed(rate: Rate, start: real, calls: seq<Call>, bytes: int, now: real)
    requires Proper(rate) && Steady(rate) && bytes > 0
    requires var history := Run(Start(rate, start), rate, calls).history;
      ClockNeverSteppedBack(history) && forall i :: 0 <= i < |history| ==> history[i].now <= now
    ensures var session := Run(Start(rate, start), rate, calls);
      Grants(session.bucket, rate, bytes, now) <==>
        bytes <= rate.capacity
        && forall from | 0 <= from < |session.history| :: Room(rate, session.history, from, bytes, now)
  {
    var history := Run(Start(rate, start), rate, calls).history;
    GrantedExactly(rate, start, calls, bytes, now);
    EveryRun(rate, start, calls);
    forall from | 0 <= from < |history|
      ensures bytes as real <= Allowance(history, rate, from, now) <==> Room(rate, history, from, bytes, now)
    {
      AllowanceElapsed(rate, history, from, now);
    }
  }

  lemma AllowanceElapsed(rate: Rate, history: seq<Grant>, from: nat, now: real)
    requires Steady(rate) && from < |history| && ClockNeverSteppedBack(history) && history[|history| - 1].now <= now
    ensures Allowance(history, rate, from, now)
         == rate.capacity as real + rate.inflow(history[from].now, now) - Total(history[from..]) as real
  {
    ElapsedSince(rate, history, from);
  }

  /** A bucket emptied at some time holds, `seconds` later, the capacity times the seconds: half of it after
      half a second, and all of it after one, where it stays. */
  lemma EmptiedFillsInASecond(capacity: nat, start: real, seconds: real)
    requires seconds >= 0.0
    ensures Run(Start(PerSecond(capacity), start), PerSecond(capacity), [Spend(capacity, start), Ask(start + seconds)])
            .bucket.available
         == if seconds < 1.0 then capacity as real * seconds else capacity as real
  {
    var rate, spend, ask := PerSecond(capacity), Spend(capacity, start), Ask(start + seconds);
    Emptied(capacity, start);
    Snoc(Start(rate, start), rate, [spend], ask);
    assert [spend] + [ask] == [spend, ask];
    RefillEmpty(capacity, start, seconds);
  }

  lemma Emptied(capacity: nat, start: real)
    ensures Run(Start(PerSecond(capacity), start), PerSecond(capacity), [Spend(capacity, start)]).bucket
         == Bucket(0.0, Some(start))
  {
    var rate, spend := PerSecond(capacity), Spend(capacity, start);
    FullStaysFull(capacity, start, start);
    Snoc(Start(rate, start), rate, [], spend);
    assert [] + [spend] == [spend];
  }

  lemma RefillEmpty(capacity: nat, start: real, seconds: real)
    requires seconds >= 0.0
    ensures Refill(Bucket(0.0, Some(start)), PerSecond(capacity), start + seconds).available
         == if seconds < 1.0 then capacity as real * seconds else capacity as real
  {
    SecondsFrom(capacity, start, seconds);
    Scaled(capacity as real, seconds);
  }

  lemma SecondsFrom(capacity: nat, start: real, seconds: real)
    ensures PerSecond(capacity).inflow(start, start + seconds) == capacity as real * seconds
  {
    var elapsed := (start + seconds) - start;
    assert elapsed == seconds;
    assert PerSecond(capacity).inflow(start, start + seconds) == elapsed * capacity as real;
  }

  lemma Scaled(c: real, s: real)
    requires c >= 0.0 && s >= 0.0
    ensures s < 1.0 ==> c * s <= c
    ensures s >= 1.0 ==> c * s >= c
  {
    if s < 1.0 {
      assert c * (1.0 - s) >= 0.0;
    } else {
      assert c * (s - 1.0) >= 0.0;
    }
  }

  /** A budget that was never refilled grants up to the capacity at once, and one without capacity nothing. */
  lemma FirstRefill(capacity: int, available: real, bytes: nat, now: real)
    requires bytes > 0
    ensures capacity > 0 ==>
      (Grants(Bucket(available, None), PerSecond(capacity), bytes, now) <==> bytes <= capacity)
    ensures forall bucket :: capacity <= 0 ==> !Grants(bucket, PerSecond(capacity), bytes, now)
  {
  }

  /** The clock reading before the given one: a session has one when it starts, and one at each call. */
  function ReadingBefore(start: real, readings: seq<real>, i: nat): real
    requires i <= |readings|
  {
    if i == 0 then start else readings[i - 1]
  }

  ghost predicate NeverDecreases(start: real, readings: seq<real>) {
    forall i :: 0 <= i < |readings| ==> ReadingBefore(start, readings, i) <= readings[i]
  }

  /** These calls are made at the first of these readings. */
  ghost predicate MadeAt(calls: seq<Call>, readings: seq<real>) {
    |calls| <= |readings| && forall k :: 0 <= k < |calls| ==> calls[k].now == readings[k]
  }

  /** Every window of the run keeps the bound in seconds. */
  ghost predicate BoundHolds(capacity: nat, start: real, calls: seq<Call>) {
    var history := Run(Start(PerSecond(capacity), start), PerSecond(capacity), calls).history;
    forall from :: 0 <= from < |history| ==> WithinSeconds(capacity, history, from)
  }

  lemma {:induction false} ReadingsInHistory(capacity: nat, start: real, calls: seq<Call>, readings: seq<real>)
    requires MadeAt(calls, readings) && NeverDecreases(start, readings)
    ensures var history := Run(Start(PerSecond(capacity), start), PerSecond(capacity), calls).history;
      && history != [] && ClockNeverSteppedBack(history)
      && history[|history| - 1].now <= ReadingBefore(start, readings, |calls|)
    decreases |calls|
  {
    if calls != [] {
      var n := |calls| - 1;
      ReadingsInHistory(capacity, start, calls[..n], readings);
      assert ReadingBefore(start, readings, n) <= readings[n];
      var before := Run(Start(PerSecond(capacity), start), PerSecond(capacity), calls[..n]).history;
      var history := Run(Start(PerSecond(capacity), start), PerSecond(capacity), calls).history;
      assert history == before
        || (|history| == |before| + 1 && history[..|before|] == before && history[|before|].now == readings[n]);
      assert forall i :: 0 <= i < |before| ==> history[i] == before[i];
    }
  }

  lemma {:induction false} AsksKeepFull(capacity: nat, start: real, readings: seq<real>, calls: seq<Call>)
    requires calls == seq(|readings|, k requires 0 <= k < |readings| => Ask(readings[k]))
    ensures Run(Start(PerSecond(capacity), start), PerSecond(capacity), calls)
         == Session(Bucket(capacity as real, Some(if readings == [] then start else readings[|readings| - 1])),
                    [Grant(start, 0)] + seq(|readings|, k requires 0 <= k < |readings| => Grant(readings[k], 0)))
    decreases |readings|
  {
    if readings == [] {
      assert [Grant(start, 0)] + [] == [Grant(start, 0)];
    } else {
      var earlier := readings[..|readings| - 1];
      AsksKeepFull(capacity, start, earlier, calls[..|calls| - 1]);
      FullStaysFull(capacity, if earlier == [] then start else earlier[|earlier| - 1], readings[|readings| - 1]);
    }
  }

  lemma FullStaysFull(capacity: nat, last: real, now: real)
    ensures Refill(Bucket(capacity as real, Some(last)), PerSecond(capacity), now)
         == Bucket(capacity as real, Some(now))
  {
    SecondsSign(capacity, last, now);
  }

  lemma Snoc(session: Session, rate: Rate, calls: seq<Call>, call: Call)
    ensures Run(session, rate, calls + [call]) == Step(Run(session, rate, calls), rate, call)
  {
    assert (calls + [call])[..|calls|] == calls;
  }

  /** Two readings, the second earlier: whatever the first call was granted, the window exceeds the bound as
      soon as a full bucket was spent in it. */
  lemma StepBackBreaks(capacity: nat, history: seq<Grant>, from: nat)
    requires capacity >= 1 && from + 2 == |history| && history[from + 1].now < history[from].now
    requires history[from].bytes + history[from + 1].bytes == capacity
    ensures !WithinSeconds(capacity, history, from)
  {
    assert history[from..] == [] + [history[from]] + [history[from + 1]];
    ExtendTotal([], history[from]);
    ExtendTotal([] + [history[from]], history[from + 1]);
    SecondsSign(capacity, history[from].now, history[from + 1].now);
    SecondsMeaning(capacity, history[from].now, history[from + 1].now);
  }

  /** The first reading is earlier than the start of the session: spending the whole bucket then. */
  lemma SpendAtFirst(capacity: nat, start: real, now: real)
    requires capacity >= 1 && now < start
    ensures !BoundHolds(capacity, start, [Spend(capacity, now)])
  {
    var rate, spend := PerSecond(capacity), Spend(capacity, now);
    FullStaysFull(capacity, start, now);
    Snoc(Start(rate, start), rate, [], spend);
    assert [] + [spend] == [spend];
    var history := Run(Start(rate, start), rate, [spend]).history;
    assert history == [Grant(start, 0), Grant(now, capacity)];
    StepBackBreaks(capacity, history, 0);
  }

  /** A later one is: spending the whole bucket just before. */
  lemma SpendBefore(capacity: nat, start: real, quiet: seq<real>, high: real, low: real) returns (calls: seq<Call>)
    requires capacity >= 1 && low < high
    ensures MadeAt(calls, quiet + [high] + [low]) && !BoundHolds(capacity, start, calls)
  {
    var rate := PerSecond(capacity);
    var asks := seq(|quiet|, k requires 0 <= k < |quiet| => Ask(quiet[k]));
    var spend, ask := Spend(capacity, high), Ask(low);
    calls := asks + [spend] + [ask];
    AsksKeepFull(capacity, start, quiet, asks);
    var session := Run(Start(rate, start), rate, asks);
    FullStaysFull(capacity, session.bucket.last.value, high);
    Snoc(Start(rate, start), rate, asks, spend);
    Snoc(Start(rate, start), rate, asks + [spend], ask);
    var history := Run(Start(rate, start), rate, calls).history;
    assert history == session.history + [Grant(high, capacity)] + [Grant(low, 0)];
    StepBackBreaks(capacity, history, |quiet| + 1);
  }

  /** Exactly which clocks keep the bound in seconds: it holds for all requests at these readings if and only
      if the readings never decrease. */
  lemma BoundIffClockForward(capacity: nat, start: real, readings: seq<real>)
    requires capacity >= 1
    ensures (forall calls | MadeAt(calls, readings) :: BoundHolds(capacity, start, calls))
       <==> NeverDecreases(start, readings)
  {
    if NeverDecreases(start, readings) {
      forall calls | MadeAt(calls, readings)
        ensures BoundHolds(capacity, start, calls)
      {
        ReadingsInHistory(capacity, start, calls, readings);
        var history := Run(Start(PerSecond(capacity), start), PerSecond(capacity), calls).history;
        forall from | 0 <= from < |history|
          ensures WithinSeconds(capacity, history, from)
        {
          TokenBucketBound(capacity, start, calls, from);
        }
      }
    } else {
      var i :| 0 <= i < |readings| && ReadingBefore(start, readings, i) > readings[i];
      if i == 0 {
        SpendAtFirst(capacity, start, readings[0]);
        assert MadeAt([Spend(capacity, readings[0])], readings);
      } else {
        var calls := SpendBefore(capacity, start, readings[..i - 1], readings[i - 1], readings[i]);
        assert readings[..i - 1] + [readings[i - 1]] + [readings[i]] == readings[..i + 1];
        assert MadeAt(calls, readings);
      }
    }
  }

  // ----- the limit -----

  lemma RefillTwice(bucket: Bucket, capacity: int, now: real)
    requires bucket.available <= capacity as real
    ensures Refill(Refill(bucket, PerSecond(capacity), now), PerSecond(capacity), now)
         == Refill(bucket, PerSecond(capacity), now)
  {
    Nothing(capacity, now);
  }

  lemma Nothing(capacity: int, now: real)
    ensures InSeconds(capacity, now, now) == 0.0
  {
    assert (now - now) * capacity as real == 0.0;
  }

  /** After `outboundBudgetLimit` at `now`, a packet is granted at `now` if and only if it is no longer than
      the limit: a caller that stays within the limit is never refused by the reservation that follows. */
  lemma LimitIsExact(bucket: Bucket, capacity: int, bytes: nat, now: real)
    requires bucket.available <= capacity as real
    ensures Grants(Refill(bucket, PerSecond(capacity), now), PerSecond(capacity), bytes, now)
       <==> bytes <= Limit(bucket, PerSecond(capacity), now)
  {
    RefillTwice(bucket, capacity, now);
  }

  /** Refilled at `now`, less `bytes`. */
  function Charged(bucket: Bucket, capacity: int, bytes: nat, now: real): Bucket {
    var filled := Refill(bucket, PerSecond(capacity), now);
    filled.(available := filled.available - bytes as real)
  }

  lemma ChargeWithinLimit(bucket: Bucket, capacity: int, bytes: nat, now: real)
    requires bucket.available <= capacity as real && bytes <= Limit(bucket, PerSecond(capacity), now)
    ensures var filled := Refill(bucket, PerSecond(capacity), now);
      && Grants(filled, PerSecond(capacity), bytes, now)
      && Reserve(filled, PerSecond(capacity), bytes, now) == Charged(bucket, capacity, bytes, now)
  {
    RefillTwice(bucket, capacity, now);
  }

  // ----- the code -----

  /** The budget fields of a client, with its counters. */
  class ClientBudget {
    var available: real
    var lastRefill: Option<real>
    var deferrals: nat
    var drops: nat

    ghost function Value(): Bucket reads this { Bucket(available, lastRefill) }

    constructor (capacity: int, now: real)
      ensures Value() == NewBucket(PerSecond(capacity), now) && deferrals == drops == 0
    {
      available, lastRefill, deferrals, drops := capacity as real, Some(now), 0, 0;
    }

    method RefillClientBudget(capacity: int, now: real)
      modifies this`available, this`lastRefill
      ensures Value() == Refill(old(Value()), PerSecond(capacity), now)
    {
      if capacity <= 0 {
        available, lastRefill := 0.0, Some(now);
        return;
      }
      if lastRefill.None? {
        available, lastRefill := capacity as real, Some(now);
        return;
      }
      if now < lastRefill.value {
        lastRefill := Some(now);
        return;
      }
      var elapsed := now - lastRefill.value;
      available := available + elapsed * capacity as real;
      if available > capacity as real {
        available := capacity as real;
      }
      lastRefill := Some(now);
    }

    /** `enabled` is the configuration's switch. A refused reservation counts as a deferral or a drop. */
    method ReserveOutboundBudget(enabled: bool, capacity: int, bytes: int, deferrable: bool, now: real)
      returns (granted: bool)
      modifies this
      ensures granted == (!enabled || Grants(old(Value()), PerSecond(capacity), bytes, now))
      ensures Value() == if enabled then Reserve(old(Value()), PerSecond(capacity), bytes, now) else old(Value())
      ensures deferrals == old(deferrals) + if !granted && deferrable then 1 else 0
      ensures drops == old(drops) + if !granted && !deferrable then 1 else 0
    {
      if bytes <= 0 || !enabled {
        return true;
      }
      RefillClientBudget(capacity, now);
      if available >= bytes as real {
        available := available - bytes as real;
        return true;
      }
      if deferrable {
        deferrals := deferrals + 1;
      } else {
        drops := drops + 1;
      }
      return false;
    }

    method RecordDeferrals(count: nat)
      modifies this`deferrals
      ensures deferrals == old(deferrals) + count
    {
      deferrals := deferrals + count;
    }

    method OutboundBudgetLimit(enabled: bool, capacity: int, now: real) returns (limit: nat, budgeting: bool)
      modifies this`available, this`lastRefill
      ensures budgeting == enabled
      ensures limit == if enabled then Limit(old(Value()), PerSecond(capacity), now) else 0
      ensures Value() == if enabled then Refill(old(Value()), PerSecond(capacity), now) else old(Value())
    {
      if !enabled {
        return 0, false;
      }
      RefillClientBudget(capacity, now);
      if available <= 0.0 {
        return 0, true;
      }
      return available.Floor, true;
    }
  }
}
