/**
 The Relay's per-address rate limiter: one bucket per address, in a map whose order is the
 order of insertion, of which only the first entry is looked at when the map is full.
 */
module RateLimiter {

  datatype Limits = Limits(maximum: nat, window: nat, capacity: nat)

  datatype Bucket = Bucket(address: nat, startedAt: int, count: nat)

  /** An admitted call, with the start of the bucket that counted it. */
  datatype Admission = Admission(address: nat, at: int, start: int)

  /** `log` records the admitted calls; no decision reads it. */
  datatype State = State(buckets: seq<Bucket>, now: int, log: seq<Admission>)

  function Init(): State { State([], 0, []) }

  /** The position of the address's bucket, or the number of buckets. */
  function Find(bs: seq<Bucket>, a: nat): (i: nat)
    ensures i <= |bs|
    ensures i < |bs| ==> bs[i].address == a
    ensures forall j :: 0 <= j < i ==> bs[j].address != a
  {
    if bs == [] || bs[0].address == a then 0 else 1 + Find(bs[1..], a)
  }

  function Without(bs: seq<Bucket>, i: nat): seq<Bucket>
    requires i < |bs|
  {
    bs[..i] + bs[i + 1..]
  }

  predicate Stale(l: Limits, b: Bucket, now: int) { now - b.startedAt >= l.window }

  /** The buckets once the address's own stale bucket is gone. */
  function Sweep(l: Limits, bs: seq<Bucket>, a: nat, now: int): seq<Bucket> {
    var i := Find(bs, a);
    if i < |bs| && Stale(l, bs[i], now) then Without(bs, i) else bs
  }

  /** The buckets with room for one more, if the first bucket can go where there is none. */
  predicate NoRoom(l: Limits, bs: seq<Bucket>, now: int) {
    |bs| >= l.capacity && (|bs| == 0 || !Stale(l, bs[0], now))
  }

  function MakeRoom(l: Limits, bs: seq<Bucket>, now: int): seq<Bucket>
    requires !NoRoom(l, bs, now)
  {
    if |bs| >= l.capacity then bs[1..] else bs
  }

  /** The buckets with one for the address, whose count is not yet raised; or nothing. */
  function Ready(l: Limits, bs: seq<Bucket>, a: nat, now: int): seq<Bucket>
    requires Find(bs, a) < |bs| || !NoRoom(l, bs, now)
  {
    if Find(bs, a) < |bs| then bs else MakeRoom(l, bs, now) + [Bucket(a, now, 0)]
  }

  function Count(bs: seq<Bucket>, a: nat): seq<Bucket>
    requires Find(bs, a) < |bs|
  {
    var i := Find(bs, a);
    bs[i := bs[i].(count := bs[i].count + 1)]
  }

  /** The address's bucket counts the call, and admits it up to the maximum. */
  function Charge(l: Limits, s: State, a: nat): (State, bool)
    requires Find(s.buckets, a) < |s.buckets|
  {
    var b := s.buckets[Find(s.buckets, a)];
    var ok := b.count + 1 <= l.maximum;
    (State(Count(s.buckets, a), s.now, if ok then s.log + [Admission(a, s.now, b.startedAt)] else s.log), ok)
  }

  /** One call from address `a` at time `at`; the clock does not go back. */
  function Call(l: Limits, s: State, a: nat, at: int): (State, bool) {
    if at < s.now then (s, false)
    else
      var bs := Sweep(l, s.buckets, a, at);
      if Find(bs, a) == |bs| && NoRoom(l, bs, at) then (State(bs, at, s.log), false)
      else
        var ready := Ready(l, bs, a, at);
        assert Find(ready, a) < |ready| by { HasBucket(l, bs, a, at); }
        Charge(l, State(ready, at, s.log), a)
  }

  lemma HasBucket(l: Limits, bs: seq<Bucket>, a: nat, now: int)
    requires Find(bs, a) < |bs| || !NoRoom(l, bs, now)
    ensures Find(Ready(l, bs, a, now), a) < |Ready(l, bs, a, now)|
  {
    var ready := Ready(l, bs, a, now);
    if Find(bs, a) == |bs| { assert ready[|ready| - 1].address == a; }
  }

  function Run(l: Limits, s: State, calls: seq<(nat, int)>): State
    decreases |calls|
  {
    if calls == [] then s else Run(l, Call(l, s, calls[0].0, calls[0].1).0, calls[1..])
  }

  // ----- the map's order is the order of starting times

  ghost predicate Ordered(bs: seq<Bucket>, now: int) {
    && (forall i, j :: 0 <= i < j < |bs| ==> bs[i].startedAt <= bs[j].startedAt && bs[i].address != bs[j].address)
    && (forall i :: 0 <= i < |bs| ==> bs[i].startedAt <= now)
  }

  ghost predicate AnyStale(l: Limits, bs: seq<Bucket>, now: int) {
    exists i :: 0 <= i < |bs| && Stale(l, bs[i], now)
  }

  /** Looking at the first bucket is looking at all of them. */
  lemma FirstTellsAll(l: Limits, bs: seq<Bucket>, now: int)
    requires Ordered(bs, now)
    ensures AnyStale(l, bs, now) <==> |bs| > 0 && Stale(l, bs[0], now)
  {
  }

  /** What is left around the removed bucket. */
  lemma WithoutKeeps(bs: seq<Bucket>, i: nat)
    requires i < |bs|
    ensures var f := Without(bs, i);
            && |f| == |bs| - 1
            && (forall k :: 0 <= k < |f| ==> f[k] == bs[if k < i then k else k + 1])
            && (forall k :: 0 <= k < |bs| && k != i ==> bs[k] in f)
  {
    var f := Without(bs, i);
    forall k | 0 <= k < |bs| && k != i ensures bs[k] in f {
      assert f[if k < i then k else k - 1] == bs[k];
    }
  }

  lemma WithoutStaysOrdered(bs: seq<Bucket>, i: nat, now: int)
    requires Ordered(bs, now) && i < |bs|
    ensures Ordered(Without(bs, i), now) && Find(Without(bs, i), bs[i].address) == |Without(bs, i)|
  {
    WithoutKeeps(bs, i);
  }

  lemma SweepKeepsOrder(l: Limits, bs: seq<Bucket>, a: nat, now: int)
    requires Ordered(bs, now)
    ensures var f := Sweep(l, bs, a, now);
            && Ordered(f, now) && |f| <= |bs|
            && (Find(f, a) < |f| ==> f == bs && !Stale(l, f[Find(f, a)], now))
            && (forall b :: b in f ==> b in bs)
            && (forall b :: b in bs && b !in f ==> b.address == a && Stale(l, b, now))
  {
    var i := Find(bs, a);
    if i < |bs| && Stale(l, bs[i], now) {
      WithoutKeeps(bs, i);
      WithoutStaysOrdered(bs, i, now);
    }
  }

  lemma ReadyKeepsOrder(l: Limits, bs: seq<Bucket>, a: nat, now: int)
    requires Ordered(bs, now) && |bs| <= l.capacity && (Find(bs, a) < |bs| || !NoRoom(l, bs, now))
    ensures var r := Ready(l, bs, a, now);
            && Ordered(r, now) && |r| <= l.capacity
            && (forall b :: b in r && b.address != a ==> b in bs)
            && (forall b :: b in bs && b !in r ==> Stale(l, b, now) && b.address != a)
  {
  }

  ghost predicate SameButCounts(bs: seq<Bucket>, cs: seq<Bucket>) {
    |bs| == |cs| && forall i :: 0 <= i < |bs| ==> bs[i].address == cs[i].address && bs[i].startedAt == cs[i].startedAt
  }

  lemma OrderIgnoresCounts(bs: seq<Bucket>, cs: seq<Bucket>, now: int)
    requires Ordered(bs, now) && SameButCounts(bs, cs)
    ensures Ordered(cs, now)
  {
  }

  lemma CallKeepsOrder(l: Limits, s: State, a: nat, at: int)
    requires Ordered(s.buckets, s.now) && |s.buckets| <= l.capacity
    ensures var t := Call(l, s, a, at).0; Ordered(t.buckets, t.now) && |t.buckets| <= l.capacity
  {
    if at >= s.now {
      var bs := Sweep(l, s.buckets, a, at);
      SweepKeepsOrder(l, s.buckets, a, at);
      if Find(bs, a) < |bs| || !NoRoom(l, bs, at) {
        ReadyKeepsOrder(l, bs, a, at);
        HasBucket(l, bs, a, at);
        var ready := Ready(l, bs, a, at);
        OrderIgnoresCounts(ready, Count(ready, a), at);
      }
    }
  }

  ghost predicate Live(l: Limits, bs: seq<Bucket>, a: nat, now: int) {
    exists i :: 0 <= i < |bs| && bs[i].address == a && !Stale(l, bs[i], now)
  }

  /** A call is admitted exactly when the address's live bucket has count left; or, without
      one, when there is room for a bucket or any bucket at all has gone stale. */
  lemma AdmittedExactlyWhen(l: Limits, s: State, a: nat, at: int)
    requires Ordered(s.buckets, s.now) && |s.buckets| <= l.capacity && s.now <= at
    ensures Call(l, s, a, at).1 <==>
            if Live(l, s.buckets, a, at) then s.buckets[Find(s.buckets, a)].count < l.maximum
            else l.maximum > 0 && (|s.buckets| < l.capacity || AnyStale(l, s.buckets, at))
  {
    var bs := Sweep(l, s.buckets, a, at);
    SweepKeepsOrder(l, s.buckets, a, at);
    FirstTellsAll(l, s.buckets, at);
    var i := Find(s.buckets, a);
    if i < |s.buckets| && !Stale(l, s.buckets[i], at) {
      assert Ready(l, bs, a, at) == s.buckets;
    } else {
      assert Find(bs, a) == |bs|;
      assert i < |s.buckets| ==> |bs| < l.capacity && AnyStale(l, s.buckets, at);
      if !NoRoom(l, bs, at) { NewBucketIsLast(l, bs, a, at); }
    }
  }

  lemma NewBucketIsLast(l: Limits, bs: seq<Bucket>, a: nat, now: int)
    requires Find(bs, a) == |bs| && !NoRoom(l, bs, now)
    ensures var r := Ready(l, bs, a, now); Find(r, a) == |r| - 1 && r[Find(r, a)] == Bucket(a, now, 0)
  {
    var r := Ready(l, bs, a, now);
    HasBucket(l, bs, a, now);
    assert forall j :: 0 <= j < |r| - 1 ==> r[j] in bs;
    assert forall b :: b in bs ==> b.address != a;
  }

  // ----- how many calls an interval admits

  /** Calls of address `a` counted by the bucket that started at `start`. */
  function Tally(log: seq<Admission>, a: nat, start: int): nat {
    if log == [] then 0
    else Tally(log[..|log| - 1], a, start) +
         if log[|log| - 1].address == a && log[|log| - 1].start == start then 1 else 0
  }

  /** Calls of address `a` admitted from `lo` up to and including `hi`. */
  function Admitted(log: seq<Admission>, a: nat, lo: int, hi: int): nat {
    if log == [] then 0
    else Admitted(log[..|log| - 1], a, lo, hi) +
         if log[|log| - 1].address == a && lo <= log[|log| - 1].at <= hi then 1 else 0
  }

  lemma TallySnoc(log: seq<Admission>, e: Admission, a: nat, start: int)
    ensures Tally(log + [e], a, start) == Tally(log, a, start) + if e.address == a && e.start == start then 1 else 0
  {
  }

  lemma {:induction false} NoneTallied(log: seq<Admission>, a: nat, start: int)
    requires forall e :: e in log && e.address == a ==> e.start != start
    ensures Tally(log, a, start) == 0
  {
    if log != [] { NoneTallied(log[..|log| - 1], a, start); }
  }

  /** Every admission falls in its bucket's window; an address's buckets start a window apart. */
  ghost predicate Spaced(l: Limits, log: seq<Admission>, now: int) {
    && (forall e :: e in log ==> e.start <= e.at < e.start + l.window && e.at <= now)
    && (forall e, f :: e in log && f in log && e.address == f.address ==>
          e.start == f.start || e.start + l.window <= f.start || f.start + l.window <= e.start)
  }

  /** Admissions of an address with a bucket were counted by it or a window before it. */
  ghost predicate Past(l: Limits, s: State) {
    forall e :: e in s.log ==>
      || e.start + l.window <= s.now
      || exists b :: b in s.buckets && b.address == e.address && b.startedAt == e.start
  }

  ghost predicate PastBuckets(l: Limits, s: State) {
    forall e, b :: e in s.log && b in s.buckets && b.address == e.address ==>
      b.startedAt == e.start || e.start + l.window <= b.startedAt
  }

  ghost predicate Tallied(l: Limits, s: State) {
    && (forall a: nat, start: int :: Tally(s.log, a, start) <= l.maximum)
    && (forall b :: b in s.buckets ==> Tally(s.log, b.address, b.startedAt) <= b.count)
  }

  ghost predicate Fair(l: Limits, s: State) {
    && Ordered(s.buckets, s.now) && |s.buckets| <= l.capacity
    && Spaced(l, s.log, s.now) && Past(l, s) && PastBuckets(l, s) && Tallied(l, s)
  }

  /** Dropping stale buckets is fair. */
  lemma DroppingIsFair(l: Limits, s: State, t: State)
    requires Fair(l, s) && t.log == s.log && t.now >= s.now
    requires Ordered(t.buckets, t.now) && |t.buckets| <= l.capacity
    requires forall b :: b in t.buckets ==> b in s.buckets
    requires forall b :: b in s.buckets && b !in t.buckets ==> Stale(l, b, t.now)
    ensures Fair(l, t)
  {
  }

  /** The buckets once a new one is appended. */
  lemma AppendedBuckets(bs: seq<Bucket>, b: Bucket, x: Bucket)
    ensures x in bs + [b] <==> x in bs || x == b
  {
    if x in bs {
      var i :| 0 <= i < |bs| && bs[i] == x;
      assert (bs + [b])[i] == x;
    }
    assert (bs + [b])[|bs|] == b;
  }

  /** An address without a bucket has no admission less than a window old. */
  lemma AllPast(l: Limits, s: State, a: nat, e: Admission)
    requires Fair(l, s) && Find(s.buckets, a) == |s.buckets| && e in s.log && e.address == a
    ensures e.start + l.window <= s.now
  {
    assert forall b :: b in s.buckets ==> b.address != a;
  }

  lemma StartingKeepsPast(l: Limits, s: State, a: nat, b: Bucket)
    requires Fair(l, s) && Find(s.buckets, a) == |s.buckets| && b == Bucket(a, s.now, 0)
    ensures var t := s.(buckets := s.buckets + [b]); Past(l, t) && PastBuckets(l, t)
  {
    var t := s.(buckets := s.buckets + [b]);
    forall x ensures x in t.buckets <==> x in s.buckets || x == b { AppendedBuckets(s.buckets, b, x); }
    forall e | e in s.log && e.address == a ensures e.start + l.window <= s.now { AllPast(l, s, a, e); }
  }

  lemma StartingTallies(l: Limits, s: State, a: nat, b: Bucket)
    requires Fair(l, s) && Find(s.buckets, a) == |s.buckets| && b == Bucket(a, s.now, 0) && l.window > 0
    ensures Tallied(l, s.(buckets := s.buckets + [b]))
  {
    forall x ensures x in s.buckets + [b] <==> x in s.buckets || x == b { AppendedBuckets(s.buckets, b, x); }
    forall e | e in s.log && e.address == a ensures e.start != s.now { AllPast(l, s, a, e); }
    NoneTallied(s.log, a, s.now);
  }

  lemma StartingStaysOrdered(bs: seq<Bucket>, a: nat, now: int)
    requires Ordered(bs, now) && Find(bs, a) == |bs|
    ensures Ordered(bs + [Bucket(a, now, 0)], now)
  {
  }

  /** Once no bucket is left for the address, its next one starts afresh. */
  lemma StartingIsFair(l: Limits, s: State, a: nat)
    requires Fair(l, s) && Find(s.buckets, a) == |s.buckets| < l.capacity && l.window > 0
    ensures Fair(l, s.(buckets := s.buckets + [Bucket(a, s.now, 0)]))
  {
    var b := Bucket(a, s.now, 0);
    StartingStaysOrdered(s.buckets, a, s.now);
    StartingKeepsPast(l, s, a, b);
    StartingTallies(l, s, a, b);
  }

  lemma ChargingSpaces(l: Limits, s: State, a: nat)
    requires Fair(l, s) && Find(s.buckets, a) < |s.buckets|
    requires !Stale(l, s.buckets[Find(s.buckets, a)], s.now)
    ensures Spaced(l, Charge(l, s, a).0.log, s.now)
  {
  }

  lemma ChargingKeepsPast(l: Limits, s: State, a: nat)
    requires Fair(l, s) && Find(s.buckets, a) < |s.buckets|
    ensures Past(l, Charge(l, s, a).0) && PastBuckets(l, Charge(l, s, a).0)
  {
    var b := s.buckets[Find(s.buckets, a)];
    var c := b.(count := b.count + 1);
    var e := Admission(a, s.now, b.startedAt);
    CountedBuckets(s.buckets, s.now, a);
    var t := Charge(l, s, a).0;
    assert b in s.buckets && c in t.buckets;
    assert forall f :: f in t.log ==> f in s.log || f == e;
  }

  lemma ChargingTallies(l: Limits, s: State, a: nat)
    requires Fair(l, s) && Find(s.buckets, a) < |s.buckets|
    ensures Tallied(l, Charge(l, s, a).0)
  {
    var b := s.buckets[Find(s.buckets, a)];
    var e := Admission(a, s.now, b.startedAt);
    CountedBuckets(s.buckets, s.now, a);
    assert b in s.buckets && Tally(s.log, a, b.startedAt) <= b.count;
    forall x: nat, start: int
      ensures Tally(s.log + [e], x, start) == Tally(s.log, x, start) + if x == a && start == b.startedAt then 1 else 0
    {
      TallySnoc(s.log, e, x, start);
    }
  }

  lemma ChargingIsFair(l: Limits, s: State, a: nat)
    requires Fair(l, s) && Find(s.buckets, a) < |s.buckets|
    requires !Stale(l, s.buckets[Find(s.buckets, a)], s.now)
    ensures Fair(l, Charge(l, s, a).0)
  {
    OrderIgnoresCounts(s.buckets, Count(s.buckets, a), s.now);
    ChargingSpaces(l, s, a);
    ChargingKeepsPast(l, s, a);
    ChargingTallies(l, s, a);
  }

  /** Counting changes the address's bucket only. */
  lemma CountedBuckets(bs: seq<Bucket>, now: int, a: nat)
    requires Ordered(bs, now) && Find(bs, a) < |bs|
    ensures var b := bs[Find(bs, a)];
            var c := b.(count := b.count + 1);
            && c in Count(bs, a)
            && (forall x :: x in Count(bs, a) ==> x == c || (x in bs && x.address != a))
            && (forall x :: x in bs ==> x == b || (x in Count(bs, a) && x.address != a))
  {
    var i := Find(bs, a);
    var cs := Count(bs, a);
    assert cs[i] == bs[i].(count := bs[i].count + 1);
    forall j | 0 <= j < |bs| && j != i ensures cs[j] == bs[j] && bs[j].address != a {}
  }

  /** A new bucket for the address, after making room for it, and its first charge. */
  lemma EnteringIsFair(l: Limits, s: State, a: nat)
    requires Fair(l, s) && l.window > 0 && Find(s.buckets, a) == |s.buckets| && !NoRoom(l, s.buckets, s.now)
    ensures var r := Ready(l, s.buckets, a, s.now);
            Fair(l, s.(buckets := r)) && Find(r, a) < |r| && r[Find(r, a)] == Bucket(a, s.now, 0)
  {
    var room := MakeRoom(l, s.buckets, s.now);
    DroppingIsFair(l, s, s.(buckets := room));
    assert Find(room, a) == |room| by { assert forall b :: b in room ==> b in s.buckets; }
    StartingIsFair(l, s.(buckets := room), a);
    NewBucketIsLast(l, s.buckets, a, s.now);
  }

  lemma CallIsFair(l: Limits, s: State, a: nat, at: int)
    requires Fair(l, s) && l.window > 0
    ensures Fair(l, Call(l, s, a, at).0)
  {
    if at >= s.now {
      var swept := State(Sweep(l, s.buckets, a, at), at, s.log);
      SweepKeepsOrder(l, s.buckets, a, at);
      DroppingIsFair(l, s, swept);
      if Find(swept.buckets, a) < |swept.buckets| {
        ChargingIsFair(l, swept, a);
      } else if !NoRoom(l, swept.buckets, at) {
        EnteringIsFair(l, swept, a);
        ChargingIsFair(l, swept.(buckets := Ready(l, swept.buckets, a, at)), a);
      }
    }
  }

  lemma {:induction false} RunIsFair(l: Limits, s: State, calls: seq<(nat, int)>)
    requires Fair(l, s) && l.window > 0
    ensures Fair(l, Run(l, s, calls))
    decreases |calls|
  {
    if calls != [] {
      CallIsFair(l, s, calls[0].0, calls[0].1);
      RunIsFair(l, Call(l, s, calls[0].0, calls[0].1).0, calls[1..]);
    }
  }

  /** The map's order is the order of starting times, and it never outgrows its capacity. */
  lemma {:induction false} RunKeepsOrder(l: Limits, s: State, calls: seq<(nat, int)>)
    requires Ordered(s.buckets, s.now) && |s.buckets| <= l.capacity
    ensures var t := Run(l, s, calls); Ordered(t.buckets, t.now) && |t.buckets| <= l.capacity
    decreases |calls|
  {
    if calls != [] {
      CallKeepsOrder(l, s, calls[0].0, calls[0].1);
      RunKeepsOrder(l, Call(l, s, calls[0].0, calls[0].1).0, calls[1..]);
    }
  }

  /** All the admissions in the interval were counted by one of two buckets. */
  ghost predicate Meets(log: seq<Admission>, a: nat, lo: int, hi: int, x: int, y: int) {
    forall e :: e in log && e.address == a && lo <= e.at <= hi ==> e.start == x || e.start == y
  }

  lemma {:induction false} TwoBuckets(log: seq<Admission>, a: nat, lo: int, hi: int, x: int, y: int)
    requires Meets(log, a, lo, hi, x, y)
    ensures Admitted(log, a, lo, hi) <= Tally(log, a, x) + Tally(log, a, y)
  {
    if log != [] { TwoBuckets(log[..|log| - 1], a, lo, hi, x, y); }
  }

  /** No interval as long as one window meets three buckets of an address. */
  lemma IntervalMeetsTwo(l: Limits, log: seq<Admission>, now: int, a: nat, lo: int, hi: int)
    requires Spaced(l, log, now) && hi <= lo + l.window
    ensures exists x: int, y: int :: Meets(log, a, lo, hi, x, y)
  {
    if e :| e in log && e.address == a && lo <= e.at <= hi {
      if f :| f in log && f.address == a && lo <= f.at <= hi && f.start != e.start {
        assert Meets(log, a, lo, hi, e.start, f.start);
      } else {
        assert Meets(log, a, lo, hi, e.start, e.start);
      }
    } else {
      assert Meets(log, a, lo, hi, 0, 0);
    }
  }

  lemma AtMostTwiceTheMaximum(l: Limits, calls: seq<(nat, int)>, a: nat, lo: int, hi: int)
    requires l.window > 0 && hi <= lo + l.window
    ensures Admitted(Run(l, Init(), calls).log, a, lo, hi) <= 2 * l.maximum
  {
    assert Fair(l, Init());
    RunIsFair(l, Init(), calls);
    var s := Run(l, Init(), calls);
    IntervalMeetsTwo(l, s.log, s.now, a, lo, hi);
    var x: int, y: int :| Meets(s.log, a, lo, hi, x, y);
    TwoBuckets(s.log, a, lo, hi, x, y);
    assert Tally(s.log, a, x) <= l.maximum && Tally(s.log, a, y) <= l.maximum;
  }

  /** Without a maximum or without buckets nothing is admitted. */
  lemma {:induction false} NothingAdmitted(l: Limits, s: State, calls: seq<(nat, int)>)
    requires s.log == [] && (l.maximum == 0 || (l.capacity == 0 && s.buckets == []))
    ensures Run(l, s, calls).log == []
    decreases |calls|
  {
    if calls != [] {
      var (a, at) := calls[0];
      var bs := Sweep(l, s.buckets, a, at);
      assert s.buckets == [] ==> bs == [] && Find(bs, a) == 0;
      if Find(bs, a) < |bs| || !NoRoom(l, bs, at) { HasBucket(l, bs, a, at); }
      NothingAdmitted(l, Call(l, s, a, at).0, calls[1..]);
    }
  }

  lemma ZeroWindowCall(l: Limits, s: State, a: nat)
    requires l.window == 0 && l.maximum > 0 && l.capacity > 0
    requires s.now == 0 && (s.buckets == [] || s.buckets == [Bucket(a, 0, 1)])
    ensures Call(l, s, a, 0) == (State([Bucket(a, 0, 1)], 0, s.log + [Admission(a, 0, 0)]), true)
  {
    assert Sweep(l, s.buckets, a, 0) == [];
    NewBucketIsLast(l, [], a, 0);
    assert Ready(l, [], a, 0) == [Bucket(a, 0, 0)];
    assert Count([Bucket(a, 0, 0)], a) == [Bucket(a, 0, 1)];
  }

  lemma AdmittedSnoc(log: seq<Admission>, e: Admission, a: nat, lo: int, hi: int)
    ensures Admitted(log + [e], a, lo, hi) == Admitted(log, a, lo, hi) + if e.address == a && lo <= e.at <= hi then 1 else 0
  {
    assert (log + [e])[..|log|] == log;
  }

  /** With a window of zero every call starts a bucket of its own. */
  lemma {:induction false} ZeroWindowAdmits(l: Limits, s: State, a: nat, calls: seq<(nat, int)>)
    requires l.window == 0 && l.maximum > 0 && l.capacity > 0
    requires s.now == 0 && (s.buckets == [] || s.buckets == [Bucket(a, 0, 1)])
    requires forall c :: c in calls ==> c == (a, 0)
    ensures Admitted(Run(l, s, calls).log, a, 0, 0) == Admitted(s.log, a, 0, 0) + |calls|
    decreases |calls|
  {
    if calls != [] {
      assert calls[0] in calls;
      ZeroWindowCall(l, s, a);
      var t := Call(l, s, a, 0).0;
      AdmittedSnoc(s.log, Admission(a, 0, 0), a, 0, 0);
      assert forall c :: c in calls[1..] ==> c in calls;
      ZeroWindowAdmits(l, t, a, calls[1..]);
    }
  }

  ghost predicate Limited(l: Limits) {
    forall calls: seq<(nat, int)>, a: nat, lo: int, hi: int ::
      hi <= lo + l.window ==> Admitted(Run(l, Init(), calls).log, a, lo, hi) <= 2 * l.maximum
  }

  /** Over every run, any interval as long as one window, both ends included, admits at most
      twice the maximum from one address: exactly when the window is positive, or nothing can
      be admitted at all. */
  lemma LimitedExactlyWhen(l: Limits)
    ensures Limited(l) <==> l.window > 0 || l.maximum == 0 || l.capacity == 0
  {
    if l.window > 0 {
      forall calls: seq<(nat, int)>, a: nat, lo: int, hi: int | hi <= lo + l.window
        ensures Admitted(Run(l, Init(), calls).log, a, lo, hi) <= 2 * l.maximum
      {
        AtMostTwiceTheMaximum(l, calls, a, lo, hi);
      }
    } else if l.maximum == 0 || l.capacity == 0 {
      forall calls: seq<(nat, int)>, a: nat, lo: int, hi: int
        ensures Admitted(Run(l, Init(), calls).log, a, lo, hi) == 0
      {
        NothingAdmitted(l, Init(), calls);
      }
    } else {
      var calls: seq<(nat, int)> := seq(2 * l.maximum + 1, i => (0, 0));
      ZeroWindowAdmits(l, Init(), 0, calls);
      assert Admitted(Run(l, Init(), calls).log, 0, 0, 0) > 2 * l.maximum;
    }
  }

  /** The limiter as the Relay holds it: one object per kind of request. */
  class AddressBudget {
    const limits: Limits
    var buckets: seq<Bucket>
    ghost var state: State

    ghost predicate Valid()
      reads this
    {
      state.buckets == buckets
    }

    constructor (limits: Limits)
      ensures Valid() && state == Init() && this.limits == limits
    {
      this.limits := limits;
      buckets := [];
      state := Init();
    }

    method Consume(address: nat, now: int) returns (ok: bool)
      requires Valid() && state.now <= now
      modifies this
      ensures Valid() && (state, ok) == Call(limits, old(state), address, now)
    {
      DropOwn(address, now);
      ghost var swept := buckets;
      if Find(buckets, address) == |buckets| {
        if |buckets| >= limits.capacity {
          if |buckets| == 0 || now - buckets[0].startedAt < limits.window {
            state := state.(buckets := buckets, now := now);
            return false;
          }
          buckets := buckets[1..];
        }
        buckets := buckets + [Bucket(address, now, 0)];
      }
      assert buckets == Ready(limits, swept, address, now);
      HasBucket(limits, swept, address, now);
      state := state.(buckets := buckets, now := now);
      ok := Add(address);
    }

    method DropOwn(address: nat, now: int)
      modifies this`buckets
      ensures buckets == Sweep(limits, old(buckets), address, now)
    {
      var i := Find(buckets, address);
      if i < |buckets| && now - buckets[i].startedAt >= limits.window { buckets := Without(buckets, i); }
    }

    method Add(address: nat) returns (ok: bool)
      requires Valid() && Find(buckets, address) < |buckets|
      modifies this
      ensures Valid() && (state, ok) == Charge(limits, old(state), address)
    {
      var i := Find(buckets, address);
      state := Charge(limits, state, address).0;
      buckets := buckets[i := buckets[i].(count := buckets[i].count + 1)];
      return buckets[i].count <= limits.maximum;
    }
  }
}
