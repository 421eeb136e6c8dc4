/** Where the stored gap detector meets its limits: the top of the integer type, and pending numbers
    that settling leaves behind. */
module Limits {
  import opened Prelude
  import opened PerSeqTracker
  import opened DeliveryRuns
  import opened LossTheory
  import opened RangeMap
  import opened LeftBehind
  import opened Watermark

  /** Settling overflows the integer type exactly when the number at its very top is covered and so is
      every other one in the window below it. */
  lemma OverflowsExactly(r: Run)
    requires Explained(r) && r.t.high <= U64_MAX
    ensures !Representable(r) <==>
            && r.origin <= U64_MAX && U64_MAX in r.Covered()
            && forall s: nat :: r.origin <= s < U64_MAX && U64_MAX <= s + r.t.lag ==> s in r.Covered()
  {
    var c := r.t.committed;
    CommittedNearHigh(r);
    if c <= U64_MAX {
      assert c !in r.Covered();
    } else {
      assert U64_MAX in r.Covered();
    }
  }

  lemma RecordAtTop(q: Run)
    requires Explained(q) && q.origin == q.t.high == U64_MAX && q.accepted == {} && q.dropped == {}
    ensures !Representable(Next(q, Record(U64_MAX)))
  {
    var r := Next(q, Record(U64_MAX));
    NextExplained(q, Record(U64_MAX));
    RecordOutcome(q, U64_MAX);
    NextKeeps(q, Record(U64_MAX));
    SettleKeeps(q.t.(seen := q.t.seen + {U64_MAX}, high := U64_MAX));
    assert U64_MAX !in q.lost;
    assert r.t.high == U64_MAX && U64_MAX in r.accepted;
    OverflowsExactly(r);
  }

  lemma RangeToTop(q: Run)
    requires Explained(q) && q.origin == q.t.committed == q.t.high == 0
    ensures !Representable(Next(q, Range(0, U64_MAX)))
  {
    var r := Next(q, Range(0, U64_MAX));
    RangeSound(q, 0, U64_MAX);
    assert forall s: nat :: s <= U64_MAX ==> s in Effective(q.t, Range(0, U64_MAX)) && s in r.dropped;
    OverflowsExactly(r);
  }

  /** It does: a record at the very top overflows a tracker that waits for it, and so does a range up to there. */
  lemma OverflowsAtTop(lag: nat)
    ensures !Representable(Next(Start(lag, U64_MAX), Record(U64_MAX)))
    ensures !Representable(Next(Start(lag, 0), Range(0, U64_MAX)))
  {
    StartExplained(lag, U64_MAX);
    RecordAtTop(Start(lag, U64_MAX));
    StartExplained(lag, 0);
    RangeToTop(Start(lag, 0));
  }

  ghost predicate BelowTop(e: Event) {
    match e
    case Record(num) => num < U64_MAX
    case Range(start, end) => end < U64_MAX
  }

  lemma HighBelowTop(r: Run, e: Event)
    requires Explained(r) && r.t.high < U64_MAX && BelowTop(e)
    ensures Next(r, e).t.high < U64_MAX
  {
    match e
    case Record(s) => SettleKeeps(r.t.(seen := r.t.seen + {s}, high := Max(r.t.high, s)));
    case Range(start, end) => RangeSound(r, start, end);
  }

  /** No run over numbers below the top overflows. */
  lemma {:induction false} BelowTopFits(lag: nat, origin: nat, es: seq<Event>)
    requires origin < U64_MAX && forall e :: e in es ==> BelowTop(e)
    ensures After(Start(lag, origin), es).t.high < U64_MAX && Representable(After(Start(lag, origin), es))
  {
    StartExplained(lag, origin);
    Reachable(Start(lag, origin), es);
    CommittedNearHigh(After(Start(lag, origin), es));
    if es != [] {
      var before := es[..|es| - 1];
      BelowTopFits(lag, origin, before);
      Reachable(Start(lag, origin), before);
      HighBelowTop(After(Start(lag, origin), before), es[|es| - 1]);
    }
  }

  /** The documentation has it that pending numbers never lie below the settled prefix. That holds exactly
      when no accepted number was leapt over. */
  lemma FloorHoldsExactly(r: Run, observed: set<nat>)
    requires Explained(r) && Remembers(r, r.t.committed, observed)
    ensures (forall s :: s in observed ==> r.t.committed <= s) <==> LeaptBelow(r) == {}
    ensures observed == r.t.seen + LeaptBelow(r)
  {
    assert observed == r.t.seen + LeaptBelow(r);
  }

  /** No range reaches across the settled prefix. */
  lemma RangeAside(r: Run, d: Stored, k: nat)
    requires Consistent(r, d) && k in d.ranges
    ensures d.committed < k || d.ranges[k] < d.committed
  {
    ViewBacks(d);
    assert k <= d.committed <= d.ranges[k] ==> Covers(d.ranges, d.committed);
    assert d.committed !in r.Covered() && d.committed !in r.t.skipped;
  }

  lemma RangeBelowStranded(r: Run, d: Stored, k: nat)
    requires Consistent(r, d) && k in d.ranges && k <= d.committed
    ensures d.ranges[k] < d.committed && k in StrandedBelow(r)
  {
    RangeAside(r, d, k);
    assert Covers(d.ranges, k);
  }

  lemma StrandedHasRange(r: Run, d: Stored, x: nat)
    requires Consistent(r, d) && x in StrandedBelow(r)
    ensures exists k :: k in d.ranges && d.ranges[k] < d.committed
  {
    assert Covers(d.ranges, x);
    var k :| k in d.ranges && k <= x <= d.ranges[k];
    RangeAside(r, d, k);
  }

  /** Nor, says the documentation, do the stored ranges: they are yet to be settled. That holds exactly when
      no block of dropped numbers below the prefix had all been accepted before; otherwise its range stays. */
  lemma RangeFloorHoldsExactly(r: Run, d: Stored)
    requires Consistent(r, d)
    ensures (forall k :: k in d.ranges ==> d.committed <= d.ranges[k]) <==> StrandedBelow(r) == {}
  {
    if x :| x in StrandedBelow(r) {
      StrandedHasRange(r, d, x);
    }
    forall k | k in d.ranges && d.ranges[k] < d.committed ensures k in StrandedBelow(r) {
      RangeBelowStranded(r, d, k);
    }
  }

  lemma DisjointStrandsNothing(r: Run)
    requires Explained(r) && r.accepted !! r.dropped
    ensures LeaptBelow(r) == {} && StrandedBelow(r) == {}
  {
    forall x | x in r.dropped ensures !Stranded(r, x) {
      assert SameBlock(r, x, x);
    }
  }

  /** The stored ranges hold the pending dropped numbers and the stranded ones. */
  lemma StoredLength(r: Run, d: Stored)
    requires Consistent(r, d)
    ensures TotalLength(d.ranges) == |r.t.skipped| + |StrandedBelow(r)|
  {
    ViewBacks(d);
    HeldExactly(r, d.ranges);
    LengthOfCover(d.ranges, d.high);
    forall x: nat ensures x in CoveredUpTo(d.ranges, d.high) <==> x in r.t.skipped || x in StrandedBelow(r) {
      assert r.t.committed <= x ==> (x in r.t.skipped <==> x in r.dropped);
    }
    DisjointSize(CoveredUpTo(d.ranges, d.high), r.t.skipped, StrandedBelow(r));
  }

  lemma DisjointRanges(r: Run, d: Stored)
    requires Consistent(r, d) && r.accepted !! r.dropped
    ensures forall k :: k in d.ranges ==> d.committed < k <= d.ranges[k] <= d.high
    ensures TotalLength(d.ranges) == |r.t.skipped|
  {
    DisjointStrandsNothing(r);
    forall k | k in d.ranges ensures d.committed < k {
      if k <= d.committed {
        RangeBelowStranded(r, d, k);
      }
    }
    StoredLength(r, d);
  }

  /** Both floors hold when no range covers an accepted record, and then the window bounds everything that
      is stored. */
  lemma DisjointKeepsFloor(r: Run, d: Stored)
    requires Consistent(r, d) && r.accepted !! r.dropped
    ensures forall s :: s in d.observed ==> d.committed < s <= d.high
    ensures forall k :: k in d.ranges ==> d.committed < k <= d.ranges[k] <= d.high
    ensures |d.observed| + TotalLength(d.ranges) <= SatSub(d.high, d.committed) <= d.lag
  {
    DisjointStrandsNothing(r);
    FloorHoldsExactly(r, d.observed);
    DisjointRanges(r, d);
    PendingPartsBounded(r);
  }

  lemma ZeroWindowStep(r: Run, e: Event)
    requires Explained(r) && r.t.lag == 0 && r.accepted !! r.dropped
    ensures Next(r, e).accepted !! Next(r, e).dropped
  {
    PendingBounded(r);
    assert r.t.seen == {} by {
      assert forall s :: s in r.t.seen ==> s in r.t.Covered();
    }
    match e
    case Record(s) =>
      RecordOutcome(r, s);
    case Range(start, end) =>
      RangeSound(r, start, end);
      assert forall s :: s in r.accepted ==> s < r.t.committed;
  }

  /** With no window at all nothing ever waits, and the floors hold without any condition. */
  lemma {:induction false} ZeroWindowDisjoint(origin: nat, es: seq<Event>)
    ensures After(Start(0, origin), es).accepted !! After(Start(0, origin), es).dropped
  {
    if es != [] {
      var before := es[..|es| - 1];
      ZeroWindowDisjoint(origin, before);
      StartExplained(0, origin);
      Reachable(Start(0, origin), before);
      KeepsLag(Start(0, origin), before);
      ZeroWindowStep(After(Start(0, origin), before), es[|es| - 1]);
    }
  }

  ghost predicate DroppedBelow(r: Run, c: nat) {
    forall s: nat :: s in r.dropped <==> s < c
  }

  /** The first n odd numbers. */
  ghost function Odds(n: nat): set<nat> {
    if n == 0 then {} else Odds(n - 1) + {2 * n - 1}
  }

  lemma {:induction false} OddsFacts(n: nat)
    ensures |Odds(n)| == n && forall s :: s in Odds(n) ==> s < 2 * n && s % 2 == 1
  {
    if 0 < n {
      OddsFacts(n - 1);
    }
  }

  ghost predicate AcceptedOdd(r: Run, n: nat) {
    forall s: nat :: s in r.accepted <==> s in Odds(n)
  }

  ghost predicate OvertakenRun(r: Run, lag: nat, n: nat) {
    && Explained(r) && r.t.lag == lag && r.origin == 0 && r.t.committed == 2 * n && r.t.high <= 2 * n
    && AcceptedOdd(r, n) && DroppedBelow(r, 2 * n)
  }

  lemma RecordAhead(q: Run, lag: nat, c: nat)
    requires Explained(q) && q.t.lag == lag && q.origin == 0 && q.t.committed == c && q.t.high <= c && 1 <= lag
    ensures var r := Next(q, Record(c + 1));
            && Explained(r) && r.t.lag == lag && r.origin == 0 && r.t.committed == c && r.t.high == c + 1
            && r.accepted == q.accepted + {c + 1} && c + 1 !in q.accepted && r.dropped == q.dropped
  {
    var r := Next(q, Record(c + 1));
    RecordOutcome(q, c + 1);
    NextExplained(q, Record(c + 1));
    NextKeeps(q, Record(c + 1));
    SettleKeeps(q.t.(seen := q.t.seen + {c + 1}, high := Max(q.t.high, c + 1)));
    assert c + 1 !in q.Covered() && c + 1 !in q.lost;
    assert r.accepted == q.accepted + {c + 1} && r.dropped == q.dropped;
    assert IsFrontier(0, lag, q.t.high, q.Covered(), c);
    FrontierUnique(0, lag, r.t.high, r.Covered(), r.t.committed, c);
  }

  lemma RangeOvertakes(r: Run, lag: nat, c: nat)
    requires Explained(r) && r.t.lag == lag && r.origin == 0 && r.t.committed == c && r.t.high == c + 1
    requires DroppedBelow(r, c)
    ensures var n := Next(r, Range(c, c + 1));
            && Explained(n) && n.t.lag == lag && n.origin == 0 && n.t.committed == c + 2 && n.t.high == c + 1
            && n.accepted == r.accepted && DroppedBelow(n, c + 2)
  {
    var n := Next(r, Range(c, c + 1));
    RangeSound(r, c, c + 1);
    var added := Effective(r.t, Range(c, c + 1));
    assert forall s: nat :: s in added <==> c <= s < c + 2;
    FrontierUnique(0, lag, n.t.high, n.Covered(), n.t.committed, c + 2);
  }

  ghost predicate HalfOvertakenRun(r: Run, lag: nat, n: nat) {
    && Explained(r) && r.t.lag == lag && r.origin == 0 && r.t.committed == 2 * n && r.t.high == 2 * n + 1
    && AcceptedOdd(r, n + 1) && DroppedBelow(r, 2 * n)
  }

  lemma HalfState(q: Run, r: Run, lag: nat, n: nat)
    requires OvertakenRun(q, lag, n) && r.accepted == q.accepted + {2 * n + 1} && 2 * n + 1 !in q.accepted
    requires Explained(r) && r.t.lag == lag && r.origin == 0 && r.t.committed == 2 * n && r.t.high == 2 * n + 1
    requires r.dropped == q.dropped
    ensures HalfOvertakenRun(r, lag, n)
  {
    assert Odds(n + 1) == Odds(n) + {2 * n + 1};
  }

  lemma FirstHalf(q: Run, lag: nat, n: nat)
    requires 1 <= lag && OvertakenRun(q, lag, n)
    ensures HalfOvertakenRun(Next(q, Record(2 * n + 1)), lag, n)
  {
    RecordAhead(q, lag, 2 * n);
    HalfState(q, Next(q, Record(2 * n + 1)), lag, n);
  }

  lemma WholeState(r: Run, next: Run, lag: nat, n: nat)
    requires HalfOvertakenRun(r, lag, n) && next.accepted == r.accepted && DroppedBelow(next, 2 * n + 2)
    requires Explained(next) && next.t.lag == lag && next.origin == 0
    requires next.t.committed == 2 * n + 2 && next.t.high == 2 * n + 1
    ensures OvertakenRun(next, lag, n + 1)
  {
  }

  lemma SecondHalf(r: Run, lag: nat, n: nat)
    requires HalfOvertakenRun(r, lag, n)
    ensures OvertakenRun(Next(r, Range(2 * n, 2 * n + 1)), lag, n + 1)
  {
    RangeOvertakes(r, lag, 2 * n);
    WholeState(r, Next(r, Range(2 * n, 2 * n + 1)), lag, n);
  }

  lemma RangeNext(r0: Run, es: seq<Event>, lag: nat, n: nat) returns (more: seq<Event>)
    requires HalfOvertakenRun(After(r0, es), lag, n)
    ensures more == es + [Range(2 * n, 2 * n + 1)] && OvertakenRun(After(r0, more), lag, n + 1)
  {
    AppendEvent(r0, es, Range(2 * n, 2 * n + 1));
    SecondHalf(After(r0, es), lag, n);
    more := es + [Range(2 * n, 2 * n + 1)];
  }

  lemma RecordFirst(r0: Run, es: seq<Event>, lag: nat, n: nat) returns (more: seq<Event>)
    requires 1 <= lag && OvertakenRun(After(r0, es), lag, n)
    ensures more == es + [Record(2 * n + 1)] && HalfOvertakenRun(After(r0, more), lag, n)
  {
    AppendEvent(r0, es, Record(2 * n + 1));
    FirstHalf(After(r0, es), lag, n);
    more := es + [Record(2 * n + 1)];
  }

  lemma OvertakeOnce(r0: Run, lag: nat, n: nat, es: seq<Event>) returns (more: seq<Event>)
    requires 1 <= lag && OvertakenRun(After(r0, es), lag, n)
    ensures more == es + [Record(2 * n + 1)] + [Range(2 * n, 2 * n + 1)] && OvertakenRun(After(r0, more), lag, n + 1)
  {
    var half := RecordFirst(r0, es, lag, n);
    more := RangeNext(r0, half, lag, n);
  }

  lemma OvertakeAgain(r0: Run, lag: nat, n: nat, es: seq<Event>) returns (more: seq<Event>)
    requires 1 <= lag && OvertakenRun(After(r0, es), lag, n)
    ensures |more| == |es| + 2 && OvertakenRun(After(r0, more), lag, n + 1)
  {
    more := OvertakeOnce(r0, lag, n, es);
  }

  /** A record, then a range that ends with it and starts one before; n times. */
  lemma Overtake(r0: Run, lag: nat, n: nat) returns (es: seq<Event>)
    requires 1 <= lag && OvertakenRun(r0, lag, 0)
    ensures |es| == 2 * n && OvertakenRun(After(r0, es), lag, n)
  {
    es := [];
    for k := 0 to n
      invariant |es| == 2 * k && OvertakenRun(After(r0, es), lag, k)
    {
      es := OvertakeAgain(r0, lag, k, es);
    }
  }

  lemma EvenBefore(n: nat, s: nat)
    requires s in Odds(n)
    ensures 1 <= s < 2 * n && s - 1 !in Odds(n)
  {
    OddsFacts(n);
  }

  lemma OddLeaptAt(r: Run, lag: nat, n: nat, s: nat)
    requires OvertakenRun(r, lag, n) && s in r.accepted
    ensures Leapt(r, s)
  {
    EvenBefore(n, s);
    var x: nat := s - 1;
    assert x !in r.accepted && forall y: nat :: x <= y <= s ==> y in r.dropped;
  }

  lemma OddLeapt(r: Run, lag: nat, n: nat)
    requires OvertakenRun(r, lag, n)
    ensures r.accepted == Odds(n) && forall s :: s in r.accepted ==> Leapt(r, s)
  {
    forall s | s in r.accepted ensures Leapt(r, s) {
      OddLeaptAt(r, lag, n, s);
    }
  }

  lemma AllLeftBehind(r: Run, lag: nat, n: nat)
    requires OvertakenRun(r, lag, n)
    ensures r.t.seen == {} && forall observed :: Remembers(r, r.t.committed, observed) ==> |observed| == n
  {
    OddsFacts(n);
    OddLeapt(r, lag, n);
    forall observed | Remembers(r, r.t.committed, observed) ensures |observed| == n {
      assert observed == r.accepted;
    }
  }

  /** In general the floor does not hold: however wide the window, there are runs that settle everything and
      leave any number of pending numbers behind for good. */
  lemma LeftBehindUnbounded(lag: nat, n: nat) returns (es: seq<Event>)
    requires 1 <= lag
    ensures |es| == 2 * n
    ensures var r := After(Start(lag, 0), es);
            && r.t.committed == 2 * n && r.t.seen == {}
            && forall observed :: Remembers(r, r.t.committed, observed) ==> |observed| == n
  {
    StartExplained(lag, 0);
    es := Overtake(Start(lag, 0), lag, n);
    AllLeftBehind(After(Start(lag, 0), es), lag, n);
  }

  lemma FirstRound(r0: Run, lag: nat, es: seq<Event>)
    requires 1 <= lag && OvertakenRun(r0, lag, 0) && es == [Record(1), Range(0, 1)]
    ensures OvertakenRun(After(r0, es), lag, 1)
  {
    assert After(r0, []) == r0;
    var more := OvertakeOnce(r0, lag, 0, []);
    assert more == es;
  }

  /** Such a run: record 1, still waiting for 0, is leapt over by the range 0 to 1. */
  lemma FloorBroken(lag: nat, es: seq<Event>, observed: set<nat>)
    requires 1 <= lag && es == [Record(1), Range(0, 1)]
    requires Remembers(After(Start(lag, 0), es), 2, observed)
    ensures After(Start(lag, 0), es).t.committed == 2 && observed == {1}
  {
    StartExplained(lag, 0);
    FirstRound(Start(lag, 0), lag, es);
    OddLeapt(After(Start(lag, 0), es), lag, 1);
    assert Odds(1) == {1};
  }
}
