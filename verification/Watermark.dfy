/** The gap detector as it is stored: a set of pending numbers and a map of merged dropped
    ranges, settled in place. */
module Watermark {
  import opened Prelude
  import opened PerSeqTracker
  import opened DeliveryRuns
  import opened LossTheory
  import opened RangeMap
  import opened LeftBehind

  /** The stored fields as a value. */
  datatype Stored = Stored(lag: nat, committed: nat, high: nat, observed: set<nat>, ranges: map<nat, nat>)
  {
    /** The per-number view: whatever lies below the settled prefix is of no consequence. */
    ghost function View(): Tracker {
      Tracker(lag, committed, high, From(observed, committed),
              set x | x in Interval(committed, high + 1) && Covers(ranges, x))
    }

    /** What is left to settle. */
    ghost function Work(): nat {
      |observed| + |ranges| + SatSub(high, committed)
    }

    ghost predicate WellShaped() {
      && Canonical(ranges) && committed <= U64_MAX && high <= U64_MAX
      && (forall k :: k in ranges ==> ranges[k] <= high)
      && (forall s :: s in observed ==> s <= high)
    }
  }

  // ---- Settling as far as some number ----

  ghost function Gaps(lo: nat, hi: nat, covered: iset<nat>): seq<nat>
    decreases hi
  {
    if hi <= lo then [] else Gaps(lo, hi - 1, covered) + (if hi - 1 in covered then [] else [hi - 1])
  }

  lemma {:induction false} GapsListed(lo: nat, hi: nat, covered: iset<nat>)
    requires lo <= hi
    ensures IsGapList(Gaps(lo, hi, covered), lo, hi, covered)
    decreases hi
  {
    if lo < hi {
      GapsListed(lo, hi - 1, covered);
      var last := if hi - 1 in covered then [] else [hi - 1];
      JoinGaps(Gaps(lo, hi - 1, covered), last, lo, hi - 1, hi, covered, covered, covered);
    }
  }

  lemma {:induction false} NoGaps(lo: nat, mid: nat, hi: nat, covered: iset<nat>)
    requires lo <= mid <= hi && forall s: nat :: mid <= s < hi ==> s in covered
    ensures Gaps(lo, hi, covered) == Gaps(lo, mid, covered)
    decreases hi
  {
    if mid < hi {
      NoGaps(lo, mid, hi - 1, covered);
    }
  }

  /** `t` is `t0` settled up to `t.committed`, with `lost` given up on the way. */
  ghost predicate Partly(t0: Tracker, t: Tracker, lost: seq<nat>) {
    && t == Cut(t0, t.committed) && t0.committed <= t.committed
    && lost == Gaps(t0.committed, t.committed, t0.Covered())
    && forall s: nat :: t0.committed <= s < t.committed ==> s in t0.Covered() || s + t0.lag < t0.high
  }

  lemma PartlyPasses(t0: Tracker, t: Tracker, lost: seq<nat>, c: nat)
    requires Partly(t0, t, lost) && t.committed <= c
    requires forall s: nat :: t.committed <= s < c ==> s in t.Covered()
    ensures Partly(t0, Cut(t, c), lost)
  {
    assert Cut(t, c) == Cut(t0, c);
    forall s: nat | t.committed <= s < c ensures s in t0.Covered() {
      assert s in t.Covered();
    }
    NoGaps(t0.committed, t.committed, c, t0.Covered());
  }

  lemma PartlyConsumes(t0: Tracker, t: Tracker, lost: seq<nat>)
    requires Partly(t0, t, lost) && t.committed in t.seen
    ensures Partly(t0, Cut(t, t.committed + 1), lost)
  {
    PartlyPasses(t0, t, lost, t.committed + 1);
  }

  lemma PartlyLoses(t0: Tracker, t: Tracker, lost: seq<nat>)
    requires Partly(t0, t, lost) && t.committed !in t.Covered() && t.high > t.committed + t.lag
    ensures Partly(t0, Cut(t, t.committed + 1), lost + [t.committed])
  {
    var c := t.committed;
    assert c !in t0.Covered();
    assert Cut(t, c + 1) == Cut(t0, c + 1);
  }

  lemma PartlyDone(t0: Tracker, t: Tracker, lost: seq<nat>)
    requires Partly(t0, t, lost) && t.committed !in t.Covered() && t.high <= t.committed + t.lag
    ensures SettleResult(t0, Settled(t, lost))
  {
    GapsListed(t0.committed, t.committed, t0.Covered());
  }

  ghost predicate IsGoal(t: Tracker, goal: nat) {
    goal <= U64_MAX && IsFrontier(t.committed, t.lag, t.high, t.Covered(), goal)
  }

  lemma PartlyBehind(t0: Tracker, t: Tracker, lost: seq<nat>, goal: nat)
    requires Partly(t0, t, lost) && IsGoal(t0, goal)
    ensures t.committed <= goal
  {
  }

  lemma ConsumeView(d: Stored, d1: Stored)
    requires d.committed in d.observed
    requires d1 == d.(committed := d.committed + 1, observed := d.observed - {d.committed})
    ensures d.committed in d.View().seen && d1.View() == Cut(d.View(), d1.committed)
  {
    var t, t1 := d.View(), d1.View();
    assert t1.seen == From(t.seen, d1.committed);
    assert t1.skipped == From(t.skipped, d1.committed);
  }

  lemma LeapView(d: Stored, k: nat)
    requires d.WellShaped() && k in d.ranges && k <= d.committed <= d.ranges[k]
    ensures AllSkipped(d.View(), d.committed, d.ranges[k]) && d.ranges[k] + 1 !in d.View().skipped
    ensures d.(committed := d.ranges[k] + 1, ranges := d.ranges - {k}).View() == Cut(d.View(), d.ranges[k] + 1)
  {
    var t, t1 := d.View(), d.(committed := d.ranges[k] + 1, ranges := d.ranges - {k}).View();
    forall x: nat | d.committed <= x <= d.ranges[k] ensures x in t.skipped {
      assert Covers(d.ranges, x);
    }
    forall x: nat | d.ranges[k] < x ensures Covers(d.ranges, x) <==> Covers(d.ranges - {k}, x) {
      if j :| j in d.ranges && j <= x <= d.ranges[j] {
        assert j in d.ranges - {k};
      }
    }
    assert t1.seen == From(t.seen, d.ranges[k] + 1);
    assert t1.skipped == From(t.skipped, d.ranges[k] + 1);
  }

  lemma LoseView(d: Stored)
    requires d.committed !in d.observed && !Covers(d.ranges, d.committed)
    ensures d.committed !in d.View().Covered() && d.committed !in d.View().skipped
    ensures d.(committed := d.committed + 1).View() == Cut(d.View(), d.committed + 1)
  {
    var t, t1 := d.View(), d.(committed := d.committed + 1).View();
    assert t1.seen == From(t.seen, d.committed + 1);
    assert t1.skipped == From(t.skipped, d.committed + 1);
  }

  /** `d` stores `t`, which is `t0`, stored as `kept`, settled part of the way. */
  ghost predicate OnTheWay(t0: Tracker, kept: Stored, d: Stored, t: Tracker, lost: seq<nat>) {
    && d.WellShaped() && d.View() == t && Partly(t0, t, lost)
    && Leaves(t0, kept.observed, d.committed, d.observed) && LeavesRanges(t0, kept.ranges, d.committed, d.ranges)
  }

  lemma ConsumeLeaves(t0: Tracker, kept: Stored, d: Stored, t: Tracker, d1: Stored)
    requires d1 == d.(committed := d.committed + 1, observed := d.observed - {d.committed})
    requires Leaves(t0, kept.observed, d.committed, d.observed)
    requires LeavesRanges(t0, kept.ranges, d.committed, d.ranges) && Backs(kept.ranges, t0)
    requires t == Cut(t0, d.committed) && t0.committed <= d.committed && d.committed in t.seen
    ensures Leaves(t0, kept.observed, d1.committed, d1.observed)
    ensures LeavesRanges(t0, kept.ranges, d1.committed, d1.ranges)
  {
    assert d.committed in t0.seen;
    RangesConsumed(t0, kept.ranges, d.committed, d.ranges, kept.observed, d.observed);
    LeavesConsumed(t0, kept.observed, d.committed, d.observed);
  }

  lemma ConsumeShrinks(d: Stored, d1: Stored)
    requires d.committed in d.observed
    requires d1 == d.(committed := d.committed + 1, observed := d.observed - {d.committed})
    ensures d1.Work() < d.Work()
  {
  }

  lemma LeapShrinks(d: Stored, d1: Stored, k: nat)
    requires k in d.ranges && d.committed <= d.ranges[k]
    requires d1 == d.(committed := d.ranges[k] + 1, ranges := d.ranges - {k})
    ensures d1.Work() < d.Work()
  {
    assert d.ranges.Keys == d1.ranges.Keys + {k};
  }

  lemma WayConsumes(t0: Tracker, kept: Stored, d: Stored, t: Tracker, lost: seq<nat>, goal: nat, d1: Stored)
    requires Backs(kept.ranges, t0)
    requires OnTheWay(t0, kept, d, t, lost) && d.committed in d.observed
    requires d1 == d.(committed := d.committed + 1, observed := d.observed - {d.committed})
    requires IsGoal(t0, goal)
    ensures OnTheWay(t0, kept, d1, Cut(t, d1.committed), lost) && d1.committed <= U64_MAX
  {
    ConsumeView(d, d1);
    ConsumeLeaves(t0, kept, d, t, d1);
    PartlyConsumes(t0, t, lost);
    PartlyBehind(t0, Cut(t, d1.committed), lost, goal);
  }

  lemma LeapLeaves(t0: Tracker, kept: Stored, d: Stored, t: Tracker, k: nat)
    requires Leaves(t0, kept.observed, d.committed, d.observed)
    requires LeavesRanges(t0, kept.ranges, d.committed, d.ranges) && Canonical(kept.ranges)
    requires t == d.View() == Cut(t0, d.committed) && t0.committed <= d.committed
    requires d.committed !in d.observed && k in d.ranges && k <= d.committed <= d.ranges[k]
    requires AllSkipped(t, d.committed, d.ranges[k]) && d.ranges[k] + 1 !in t.skipped
    ensures Leaves(t0, kept.observed, d.ranges[k] + 1, d.observed)
    ensures LeavesRanges(t0, kept.ranges, d.ranges[k] + 1, d.ranges - {k})
  {
    forall y: nat | d.committed <= y <= d.ranges[k] ensures y in t0.skipped {
      assert y in t.skipped;
    }
    assert d.committed !in t.seen;
    LeavesLeapt(t0, kept.observed, d.committed, d.observed, d.ranges[k]);
    RangesLeapt(t0, kept.ranges, d.committed, d.ranges, k);
  }

  lemma WayLeaps(t0: Tracker, kept: Stored, d: Stored, t: Tracker, lost: seq<nat>, k: nat, goal: nat, d1: Stored)
    requires Backs(kept.ranges, t0)
    requires OnTheWay(t0, kept, d, t, lost) && d.committed !in d.observed &&
      k in d.ranges && k <= d.committed <= d.ranges[k]
    requires d1 == d.(committed := d.ranges[k] + 1, ranges := d.ranges - {k})
    requires IsGoal(t0, goal)
    ensures OnTheWay(t0, kept, d1, Cut(t, d1.committed), lost)
    ensures d1.committed <= U64_MAX
  {
    LeapView(d, k);
    LeapLeaves(t0, kept, d, t, k);
    PartlyPasses(t0, t, lost, d1.committed);
    PartlyBehind(t0, Cut(t, d1.committed), lost, goal);
  }

  lemma LeapGoesOn(t0: Tracker, kept: Stored, d: Stored, t: Tracker, lost: seq<nat>, p: Option<nat>, goal: nat)
      returns (t1: Tracker, d1: Stored)
    requires Backs(kept.ranges, t0) && IsGoal(t0, goal) && IsPredecessor(d.ranges, d.committed, p)
    requires OnTheWay(t0, kept, d, t, lost) && d.committed !in d.observed
    ensures OnTheWay(t0, kept, d1, t1, lost)
    ensures if p.Some? && d.committed <= d.ranges[p.value]
            then
              && d1 == d.(committed := d.ranges[p.value] + 1, ranges := d.ranges - {p.value})
              && d1.committed <= U64_MAX && d1.Work() < d.Work()
            else d1 == d && !Covers(d.ranges, d.committed)
  {
    PredecessorDecides(d.ranges, d.committed, p);
    t1, d1 := t, d;
    if p.Some? && d.committed <= d.ranges[p.value] {
      d1 := d.(committed := d.ranges[p.value] + 1, ranges := d.ranges - {p.value});
      t1 := Cut(t, d1.committed);
      WayLeaps(t0, kept, d, t, lost, p.value, goal, d1);
      LeapShrinks(d, d1, p.value);
    }
  }

  lemma LoseLeaves(t0: Tracker, kept: Stored, d: Stored, t: Tracker)
    requires Leaves(t0, kept.observed, d.committed, d.observed)
    requires LeavesRanges(t0, kept.ranges, d.committed, d.ranges) && Backs(kept.ranges, t0)
    requires t == Cut(t0, d.committed) && t0.committed <= d.committed
    requires d.committed !in d.observed && d.committed !in t.skipped
    ensures Leaves(t0, kept.observed, d.committed + 1, d.observed)
    ensures LeavesRanges(t0, kept.ranges, d.committed + 1, d.ranges)
  {
    LeavesLost(t0, kept.observed, d.committed, d.observed);
    RangesPassed(t0, kept.ranges, d.committed, d.ranges);
  }

  lemma LoseKeepsShape(d: Stored, d1: Stored)
    requires d.WellShaped() && d.high > d.committed + d.lag && d1 == d.(committed := d.committed + 1)
    ensures d1.WellShaped() && d1.Work() < d.Work()
  {
  }

  lemma WayLoses(t0: Tracker, kept: Stored, d: Stored, t: Tracker, lost: seq<nat>, goal: nat, d1: Stored)
    requires Backs(kept.ranges, t0)
    requires OnTheWay(t0, kept, d, t, lost)
    requires d.committed !in d.observed && !Covers(d.ranges, d.committed) && d.high > d.committed + d.lag
    requires d1 == d.(committed := d.committed + 1)
    requires IsGoal(t0, goal)
    ensures OnTheWay(t0, kept, d1, Cut(t, d1.committed), lost + [d.committed])
    ensures d1.committed <= U64_MAX && d1.Work() < d.Work()
  {
    LoseView(d);
    LoseLeaves(t0, kept, d, t);
    PartlyLoses(t0, t, lost);
    PartlyBehind(t0, Cut(t, d1.committed), lost + [d.committed], goal);
    LoseKeepsShape(d, d1);
  }

  lemma WayDone(t0: Tracker, kept: Stored, d: Stored, t: Tracker, lost: seq<nat>)
    requires OnTheWay(t0, kept, d, t, lost)
    requires d.committed !in d.observed && !Covers(d.ranges, d.committed) && d.high <= d.committed + d.lag
    ensures SettleResult(t0, Settled(t, lost))
  {
    LoseView(d);
    PartlyDone(t0, t, lost);
  }

  ghost predicate Ready(d: Stored, t0: Tracker, goal: nat) {
    d.WellShaped() && d.View() == t0 && IsGoal(t0, goal)
  }

  lemma WayBegins(d: Stored)
    requires d.WellShaped()
    ensures OnTheWay(d.View(), d, d, d.View(), [])
  {
    assert Cut(d.View(), d.committed) == d.View();
  }

  lemma ViewBacks(d: Stored)
    requires d.WellShaped()
    ensures Backs(d.ranges, d.View())
  {
    assert forall z: nat :: Covers(d.ranges, z) ==> z <= d.high;
  }

  lemma RepeatedRecord(r: Run, num: nat)
    requires num < r.t.committed || num in r.t.seen || num in r.t.skipped
    ensures Step(r.t, Record(num)).1 == RecordReply(Duplicate, []) && Next(r, Record(num)) == r
  {
    QuietStep(r, Record(num));
  }

  /** The settled prefix fits the integer type. */
  ghost predicate Representable(r: Run) {
    r.t.committed <= U64_MAX
  }

  /** The stored fields are what the history of the calls leads to. */
  ghost predicate Consistent(r: Run, d: Stored) {
    && d.WellShaped() && Explained(r) && r.t == d.View()
    && Remembers(r, d.committed, d.observed) && RemembersRanges(r, d.committed, d.ranges)
  }

  /** Event `e` on history `r` comes down to settling `t0`, stored as `kept`. */
  ghost predicate Taken(r: Run, e: Event, t0: Tracker, kept: Stored) {
    var next := Next(r, e);
    && next.t == Settle(t0).t && Step(r.t, e).1.lost == Settle(t0).lost
    && Explained(next) && Feeds(t0, next) && Extends(r, next, t0.committed)
    && Remembers(next, t0.committed, kept.observed) && RemembersRanges(r, t0.committed, kept.ranges)
  }

  lemma SettledTaken(r: Run, e: Event, t0: Tracker, kept: Stored, d1: Stored, t: Tracker, lost: seq<nat>)
    requires Taken(r, e, t0, kept)
    requires Backs(kept.ranges, t0)
    requires OnTheWay(t0, kept, d1, t, lost) && SettleResult(t0, Settled(t, lost))
    ensures Consistent(Next(r, e), d1) && lost == Step(r.t, e).1.lost
  {
    SettleExactly(t0, Settled(t, lost));
    LeftRemembered(t0, Next(r, e), kept.observed, d1.committed, d1.observed);
    RangesRemembered(r, Next(r, e), t0, kept.ranges, d1.committed, d1.ranges);
  }

  lemma RecordView(d: Stored, num: nat, t0: Tracker)
    requires d.WellShaped() && num <= U64_MAX
    requires d.committed <= num && num !in d.observed && !Covers(d.ranges, num)
    requires t0 == d.View().(seen := d.View().seen + {num}, high := Max(d.high, num))
    ensures num !in d.View().Covered()
    ensures var d1 := d.(observed := d.observed + {num}, high := t0.high);
            d1.WellShaped() && d1.View() == t0
  {
    var t1 := d.(observed := d.observed + {num}, high := t0.high).View();
    assert t1.seen == t0.seen;
    assert t1.skipped == t0.skipped;
  }

  lemma RecordSettles(r: Run, num: nat, t0: Tracker)
    requires r.t.committed <= num && num !in r.t.Covered()
    requires t0 == r.t.(seen := r.t.seen + {num}, high := Max(r.t.high, num))
    ensures Step(r.t, Record(num)) == (Settle(t0).t, RecordReply(New, Settle(t0).lost))
    ensures Next(r, Record(num)) == Run(Settle(t0).t, r.origin, r.accepted + {num}, r.dropped, r.lost + Settle(t0).lost)
  {
    assert r.dropped + {} == r.dropped;
  }

  lemma RecordFeeds(r: Run, num: nat, t0: Tracker, next: Run)
    requires Explained(r) && r.t.committed <= num && t0.committed == r.t.committed
    requires t0.seen == r.t.seen + {num} && t0.skipped == r.t.skipped
    requires next.accepted == r.accepted + {num} && next.dropped == r.dropped && next.origin == r.origin
    ensures Feeds(t0, next) && Extends(r, next, t0.committed)
  {
    assert r.t.committed !in r.Covered();
    assert t0.seen == From(next.accepted, t0.committed);
  }

  lemma RecordTaken(r: Run, d: Stored, num: nat, t0: Tracker, d1: Stored)
    requires Consistent(r, d) && num <= U64_MAX && Representable(Next(r, Record(num)))
    requires d.committed <= num && num !in d.observed && !Covers(d.ranges, num)
    requires t0 == r.t.(seen := r.t.seen + {num}, high := Max(d.high, num))
    requires d1 == d.(observed := d.observed + {num}, high := t0.high)
    ensures Step(r.t, Record(num)).1 == RecordReply(New, Settle(t0).lost)
    ensures Taken(r, Record(num), t0, d1)
    ensures Ready(d1, t0, Next(r, Record(num)).t.committed)
  {
    RecordView(d, num, t0);
    RecordSettles(r, num, t0);
    SettleExactly(t0, Settle(t0));
    RecordExplained(r, num);
    RecordFeeds(r, num, t0, Next(r, Record(num)));
    StillRemembered(r, Next(r, Record(num)), d.committed, d.observed, {num});
  }

  lemma RangeViewAt(d: Stored, start: nat, end: nat, t0: Tracker, d1: Stored, x: nat)
    requires d.committed <= start <= end && d1.committed == d.committed && d1.high == Max(d.high, end)
    requires t0.skipped == d.View().skipped + Interval(start, end + 1)
    requires Covers(d1.ranges, x) <==> Covers(d.ranges, x) || start <= x <= end
    requires Covers(d.ranges, x) ==> x <= d.high
    ensures x in d1.View().skipped <==> x in t0.skipped
  {
  }

  lemma CoverBelow(d: Stored)
    requires d.WellShaped()
    ensures forall x: nat :: Covers(d.ranges, x) ==> x <= d.high
  {
  }

  lemma RangeShape(d: Stored, end: nat, d1: Stored)
    requires d.WellShaped() && end <= U64_MAX && Canonical(d1.ranges)
    requires d1 == d.(ranges := d1.ranges, high := Max(d.high, end))
    requires forall x: nat :: Covers(d1.ranges, x) ==> Covers(d.ranges, x) || x <= end
    ensures d1.WellShaped()
  {
    CoverBelow(d);
    forall k | k in d1.ranges ensures d1.ranges[k] <= d1.high {
      assert Covers(d1.ranges, d1.ranges[k]);
    }
  }

  lemma RangeView(d: Stored, start: nat, end: nat, t0: Tracker, d1: Stored)
    requires d.WellShaped() && d.committed <= start <= end <= U64_MAX
    requires t0 == d.View().(skipped := d.View().skipped + Interval(start, end + 1), high := Max(d.high, end))
    requires d1 == d.(ranges := d1.ranges, high := t0.high) && Canonical(d1.ranges)
    requires forall x: nat :: Covers(d1.ranges, x) <==> Covers(d.ranges, x) || start <= x <= end
    ensures d1.WellShaped() && d1.View() == t0
  {
    forall x: nat ensures x in d1.View().skipped <==> x in t0.skipped {
      CoverBelow(d);
      RangeViewAt(d, start, end, t0, d1, x);
    }
    assert d1.View().skipped == t0.skipped;
    RangeShape(d, end, d1);
  }

  lemma RangeFeeds(r: Run, added: set<nat>, t0: Tracker, next: Run, kept: set<nat>)
    requires Explained(r) && Remembers(r, r.t.committed, kept)
    requires t0.committed == r.t.committed && forall s :: s in added ==> r.t.committed <= s
    requires t0.seen == r.t.seen && t0.skipped == r.t.skipped + added
    requires next.accepted == r.accepted && next.dropped == r.dropped + added && next.origin == r.origin
    ensures Feeds(t0, next) && Extends(r, next, t0.committed) && Remembers(next, r.t.committed, kept)
  {
    assert r.t.committed !in r.Covered();
    assert t0.skipped == From(next.dropped, t0.committed);
    assert kept + {} == kept && r.accepted + {} == r.accepted;
    StillRemembered(r, next, r.t.committed, kept, {});
  }

  lemma RangeReady(r: Run, d: Stored, start: nat, end: nat, t0: Tracker, d1: Stored)
    requires Consistent(r, d) && start <= end && d.committed <= end <= U64_MAX &&
      Representable(Next(r, Range(start, end)))
    requires t0 == r.t.(skipped := r.t.skipped + Effective(r.t, Range(start, end)), high := Max(d.high, end))
    requires d1 == d.(ranges := d1.ranges, high := t0.high) && Canonical(d1.ranges)
    requires forall x: nat :: Covers(d1.ranges, x) <==> Covers(d.ranges, x) || Max(start, d.committed) <= x <= end
    ensures Ready(d1, t0, Next(r, Range(start, end)).t.committed)
  {
    RangeView(d, Max(start, d.committed), end, t0, d1);
    RangeSettles(r, start, end, t0);
    SettleExactly(t0, Settle(t0));
  }

  lemma RangeTaken(r: Run, d: Stored, start: nat, end: nat, t0: Tracker, d1: Stored)
    requires Consistent(r, d) && start <= end && d.committed <= end <= U64_MAX &&
      Representable(Next(r, Range(start, end)))
    requires t0 == r.t.(skipped := r.t.skipped + Effective(r.t, Range(start, end)), high := Max(d.high, end))
    requires d1 == d.(ranges := d1.ranges, high := t0.high) && Canonical(d1.ranges)
    requires forall x: nat :: Covers(d1.ranges, x) <==> Covers(d.ranges, x) || Max(start, d.committed) <= x <= end
    ensures Step(r.t, Range(start, end)).1 == RangeReply(Settle(t0).lost)
    ensures Taken(r, Range(start, end), t0, d1)
  {
    RangeSettles(r, start, end, t0);
    RangeExplained(r, start, end);
    RangeFeeds(r, Effective(r.t, Range(start, end)), t0, Next(r, Range(start, end)), d.observed);
  }

  class WatermarkTracker {
    const lag: nat
    var committed: nat
    var observed: set<nat>
    var high: nat
    var droppedRanges: map<nat, nat>
    ghost var run: Run

    ghost function Fields(): Stored
      reads this
    {
      Stored(lag, committed, high, observed, droppedRanges)
    }

    ghost predicate Valid()
      reads this
    {
      Consistent(run, Fields())
    }

    constructor (lag: nat)
      requires lag <= U64_MAX
      ensures Valid() && run == Start(lag, 0)
    {
      this.lag := lag;
      committed, observed, high, droppedRanges := 0, {}, 0, map[];
      run := Start(lag, 0);
    }

    constructor WithCommitted(lag: nat, committed: nat)
      requires lag <= U64_MAX && committed <= U64_MAX
      ensures Valid() && run == Start(lag, committed)
    {
      this.lag := lag;
      this.committed, observed, high, droppedRanges := committed, {}, committed, map[];
      run := Start(lag, committed);
    }

    method IsInDroppedRange(num: nat) returns (inside: bool)
      requires Canonical(droppedRanges)
      ensures inside <==> Covers(droppedRanges, num)
    {
      var p := Predecessor(droppedRanges, num);
      PredecessorDecides(droppedRanges, num, p);
      inside := p.Some? && num <= droppedRanges[p.value];
    }

    /** Merging keeps the map canonical and adds exactly [start, end], although the bound of the
        scan is taken before the merged end grows. */
    method InsertDroppedRange(start: nat, end: nat)
      requires Canonical(droppedRanges) && start <= end <= U64_MAX
      modifies this`droppedRanges
      ensures Canonical(droppedRanges)
      ensures forall x: nat :: Covers(droppedRanges, x) <==> old(Covers(droppedRanges, x)) || start <= x <= end
    {
      ghost var m := droppedRanges;
      var s, e, overlapped := ScanOverlaps(droppedRanges, start, end);
      droppedRanges := RemoveKeys(droppedRanges, overlapped);
      droppedRanges := droppedRanges[s := e];
      MergeGrown(m, start, end, overlapped, s, e, droppedRanges);
    }

    /** Step 1: the pending numbers that follow on the settled prefix. */
    method ConsumeObserved(ghost t0: Tracker, ghost kept: Stored, ghost t: Tracker,
      ghost lost: seq<nat>, ghost goal: nat)
      returns (ghost t1: Tracker)
      requires Backs(kept.ranges, t0)
      requires OnTheWay(t0, kept, Fields(), t, lost) && IsGoal(t0, goal)
      modifies this`committed, this`observed
      ensures OnTheWay(t0, kept, Fields(), t1, lost) && committed !in observed
      ensures Fields().Work() <= old(Fields().Work())
    {
      t1 := t;
      ghost var d := Fields();
      while committed in observed
        invariant d == Fields() && OnTheWay(t0, kept, d, t1, lost) && d.Work() <= old(Fields().Work())
        decreases d.Work()
      {
        ghost var d1 := d.(committed := committed + 1, observed := observed - {committed});
        WayConsumes(t0, kept, d, t1, lost, goal, d1);
        ConsumeShrinks(d, d1);
        d, t1 := d1, Cut(t1, d1.committed);
        observed := observed - {committed};
        committed := committed + 1;
      }
    }

    /** Step 2: the range that holds the next number is skipped as a whole. */
    method LeapRange(ghost t0: Tracker, ghost kept: Stored, ghost t: Tracker, ghost lost: seq<nat>, ghost goal: nat)
      returns (leapt: bool, ghost t1: Tracker)
      requires Backs(kept.ranges, t0)
      requires OnTheWay(t0, kept, Fields(), t, lost) && IsGoal(t0, goal) && committed !in observed
      modifies this`committed, this`droppedRanges
      ensures OnTheWay(t0, kept, Fields(), t1, lost)
      ensures if leapt then Fields().Work() < old(Fields().Work())
              else Fields() == old(Fields()) && !Covers(droppedRanges, committed)
    {
      var p := Predecessor(droppedRanges, committed);
      ghost var d := Fields();
      ghost var d1;
      t1, d1 := LeapGoesOn(t0, kept, d, t, lost, p, goal);
      leapt := p.Some? && committed <= droppedRanges[p.value];
      if leapt {
        committed := droppedRanges[p.value] + 1;
        droppedRanges := droppedRanges - {p.value};
        assert Fields() == d1;
      }
    }

    /** Step 3: when the window has slid past the next number, that number is lost. */
    method PassOverdue(ghost t0: Tracker, ghost kept: Stored, ghost t: Tracker, ghost lost: seq<nat>, ghost goal: nat)
      returns (declared: bool, ghost t1: Tracker)
      requires Backs(kept.ranges, t0)
      requires OnTheWay(t0, kept, Fields(), t, lost) && IsGoal(t0, goal)
      requires committed !in observed && !Covers(droppedRanges, committed)
      modifies this`committed
      ensures if declared
              then OnTheWay(t0, kept, Fields(), t1, lost + [old(committed)]) && Fields().Work() < old(Fields().Work())
              else Fields() == old(Fields()) && t1 == t && SettleResult(t0, Settled(t, lost))
    {
      declared, t1 := SatSub(high, committed) > lag, t;
      if declared {
        ghost var d := Fields();
        ghost var d1 := d.(committed := d.committed + 1);
        WayLoses(t0, kept, d, t, lost, goal, d1);
        t1 := Cut(t, d1.committed);
        committed := committed + 1;
        assert Fields() == d1;
      } else {
        WayDone(t0, kept, Fields(), t, lost);
      }
    }

    /** Leaves the per-number view settled and returns what it gave up. */
    method SettleInPlace(ghost t0: Tracker, ghost goal: nat) returns (lost: seq<nat>, ghost t: Tracker)
      requires Ready(Fields(), t0, goal)
      modifies this`committed, this`observed, this`droppedRanges
      ensures OnTheWay(t0, old(Fields()), Fields(), t, lost)
      ensures SettleResult(t0, Settled(t, lost))
    {
      ghost var kept := Fields();
      WayBegins(Fields());
      ViewBacks(Fields());
      lost, t := [], t0;
      while true
        invariant OnTheWay(t0, kept, Fields(), t, lost)
        decreases Fields().Work()
      {
        t := ConsumeObserved(t0, kept, t, lost, goal);
        var skipped, declared, next := false, false, committed;
        skipped, t := LeapRange(t0, kept, t, lost, goal);
        if skipped {
          continue;
        }
        next := committed;
        declared, t := PassOverdue(t0, kept, t, lost, goal);
        if !declared {
          return;
        }
        lost := lost + [next];
      }
    }

    /** Settles after an event has been taken in. */
    method Advance(ghost e: Event, ghost t0: Tracker, ghost d: Stored) returns (lost: seq<nat>)
      requires Fields() == d && Ready(d, t0, Next(run, e).t.committed) && Taken(run, e, t0, d)
      modifies this
      ensures Valid() && run == Next(old(run), e) && lost == Step(old(run).t, e).1.lost
    {
      ghost var kept, t := Fields(), t0;
      ViewBacks(kept);
      lost, t := SettleInPlace(t0, Next(run, e).t.committed);
      SettledTaken(run, e, t0, kept, Fields(), t, lost);
      run := Next(run, e);
    }

    method Accept(num: nat) returns (lost: seq<nat>)
      requires Valid() && num <= U64_MAX && Representable(Next(run, Record(num)))
      requires committed <= num && num !in observed && !Covers(droppedRanges, num)
      modifies this
      ensures Valid() && run == Next(old(run), Record(num))
      ensures Step(old(run).t, Record(num)).1 == RecordReply(New, lost)
    {
      ghost var d := Fields();
      ghost var t0 := run.t.(seen := run.t.seen + {num}, high := if high < num then num else high);
      ghost var d1 := d.(observed := observed + {num}, high := t0.high);
      RecordTaken(run, d, num, t0, d1);
      observed := observed + {num};
      if high < num {
        high := num;
      }
      assert Fields() == d1;
      lost := Advance(Record(num), t0, d1);
    }

    /** Classifies one record. */
    method Observe(num: nat) returns (outcome: Outcome, lost: seq<nat>)
      requires Valid() && num <= U64_MAX && Representable(Next(run, Record(num)))
      modifies this
      ensures Valid() && run == Next(old(run), Record(num))
      ensures Step(old(run).t, Record(num)).1 == RecordReply(outcome, lost)
    {
      if num < committed {
        RepeatedRecord(run, num);
        return Duplicate, [];
      }
      if num in observed {
        RepeatedRecord(run, num);
        return Duplicate, [];
      }
      var inside := IsInDroppedRange(num);
      if inside {
        RepeatedRecord(run, num);
        return Duplicate, [];
      }
      lost := Accept(num);
      outcome := New;
    }

    /** Takes in a range of numbers dropped on purpose. */
    method CommitRange(start: nat, end: nat) returns (lost: seq<nat>)
      requires Valid() && start <= U64_MAX && end <= U64_MAX && Representable(Next(run, Range(start, end)))
      modifies this
      ensures Valid() && run == Next(old(run), Range(start, end))
      ensures Step(old(run).t, Range(start, end)).1 == RangeReply(lost)
    {
      if end < start || end < committed {
        RangeIgnored(run, start, end);
        return [];
      }
      ghost var d := Fields();
      ghost var t0 := run.t.(skipped := run.t.skipped + Effective(run.t, Range(start, end)), high := Max(high, end));
      InsertDroppedRange(if start < committed then committed else start, end);
      if high < end {
        high := end;
      }
      ghost var d1 := Fields();
      RangeReady(run, d, start, end, t0, d1);
      RangeTaken(run, d, start, end, t0, d1);
      lost := Advance(Range(start, end), t0, d1);
    }

    method Committed() returns (c: nat)
      requires Valid()
      ensures c == run.t.committed
    {
      c := committed;
    }

    /** The pending numbers, and those left behind by leaps. */
    method PendingCount() returns (n: nat)
      requires Valid()
      ensures n == |run.t.seen| + |LeaptBelow(run)|
    {
      n := |observed|;
      RememberedSize(run, committed, observed);
    }

    /** One range for each block of numbers that the ranges hold. */
    method PendingRanges() returns (n: nat)
      requires Valid()
      ensures n == |BlockStarts(run)|
    {
      n := |droppedRanges|;
      ViewBacks(Fields());
      HeldExactly(run, droppedRanges);
    }
  }

  ghost predicate Encodable(e: Event) {
    match e
    case Record(num) => num <= U64_MAX
    case Range(start, end) => start <= U64_MAX && end <= U64_MAX
  }

  method ReplayOne(w: WatermarkTracker, e: Event) returns (reply: Reply)
    requires w.Valid() && Encodable(e) && Representable(Next(w.run, e))
    modifies w
    ensures w.Valid() && w.run == Next(old(w.run), e)
    ensures reply == Step(old(w.run).t, e).1
  {
    match e {
      case Record(num) =>
        var outcome, lost := w.Observe(num);
        reply := RecordReply(outcome, lost);
      case Range(start, end) =>
        var lost := w.CommitRange(start, end);
        reply := RangeReply(lost);
    }
  }

  lemma {:induction false} CommittedGrows(r: Run, es: seq<Event>, i: nat)
    requires i <= |es|
    ensures After(r, es[..i]).t.committed <= After(r, es).t.committed
    decreases |es|
  {
    if i == |es| {
      assert es[..i] == es;
    } else {
      var before := es[..|es| - 1];
      CommittedGrows(r, before, i);
      assert before[..i] == es[..i];
      NextKeeps(After(r, before), es[|es| - 1]);
    }
  }

  lemma PrefixFits(r: Run, es: seq<Event>, i: nat)
    requires i < |es| && Representable(After(r, es))
    ensures Representable(Next(After(r, es[..i]), es[i]))
    ensures After(r, es[..i + 1]) == Next(After(r, es[..i]), es[i])
    ensures Replies(r, es[..i + 1]) == Replies(r, es[..i]) + [Step(After(r, es[..i]).t, es[i]).1]
  {
    assert es[..i + 1] == es[..i] + [es[i]];
    AppendEvent(r, es[..i], es[i]);
    CommittedGrows(r, es, i + 1);
  }

  /** Every run: the stored form answers each call as the per-number form does. */
  method Replay(w: WatermarkTracker, es: seq<Event>) returns (replies: seq<Reply>)
    requires w.Valid()
    requires (forall e :: e in es ==> Encodable(e)) && Representable(After(w.run, es))
    modifies w
    ensures w.Valid() && w.run == After(old(w.run), es)
    ensures replies == Replies(old(w.run), es)
  {
    replies := [];
    ghost var r0 := w.run;
    for i := 0 to |es|
      invariant w.Valid() && w.run == After(r0, es[..i])
      invariant replies == Replies(r0, es[..i])
    {
      PrefixFits(r0, es, i);
      var reply := ReplayOne(w, es[i]);
      replies := replies + [reply];
    }
    assert es[..|es|] == es;
  }
}
