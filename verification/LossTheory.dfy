/** Properties of every run of the gap detector. */
module LossTheory {
  import opened Prelude
  import opened PerSeqTracker
  import opened DeliveryRuns

  ghost predicate AccountsExactly(lag: nat, r: Run) {
    && StrictlyIncreasing(r.lost)
    && (forall s: nat :: s in r.lost <==>
         r.origin <= s && s + lag < r.t.high && s !in r.accepted && s !in r.dropped)
    && (forall s: nat :: r.origin <= s < r.t.committed ==> s in r.accepted || s in r.dropped || s in r.lost)
  }

  lemma ExplainedLoss(r: Run)
    requires Explained(r)
    ensures AccountsExactly(r.t.lag, r)
  {
    forall s: nat ensures s in r.Covered() <==> s in r.accepted || s in r.dropped {
    }
  }

  lemma SettleKeeps(t: Tracker)
    ensures Settle(t).t.lag == t.lag && Settle(t).t.high == t.high && t.committed <= Settle(t).t.committed
  {
    SettleExactly(t, Settle(t));
  }

  lemma NextKeeps(r: Run, e: Event)
    ensures Next(r, e).t.lag == r.t.lag && Next(r, e).origin == r.origin
    ensures r.t.committed <= Next(r, e).t.committed
    ensures r.accepted <= Next(r, e).accepted && r.dropped <= Next(r, e).dropped
    ensures r.lost <= Next(r, e).lost
  {
    var t := r.t;
    match e
    case Record(s) => SettleKeeps(t.(seen := t.seen + {s}, high := Max(t.high, s)));
    case Range(start, end) =>
      SettleKeeps(t.(skipped := t.skipped + Interval(Max(start, t.committed), end + 1), high := Max(t.high, end)));
  }

  lemma {:induction false} KeepsLag(r: Run, es: seq<Event>)
    ensures After(r, es).t.lag == r.t.lag && After(r, es).origin == r.origin
    ensures r.lost <= After(r, es).lost
  {
    if es != [] {
      KeepsLag(r, es[..|es| - 1]);
      NextKeeps(After(r, es[..|es| - 1]), es[|es| - 1]);
    }
  }

  /** The numbers reported lost over a whole run, each once and in increasing order, are exactly
      those more than `lag` behind the high mark that no record and no effective range covered;
      everything below `committed` is accounted for. */
  lemma ExactLoss(lag: nat, origin: nat, es: seq<Event>)
    ensures AccountsExactly(lag, After(Start(lag, origin), es))
  {
    StartExplained(lag, origin);
    Reachable(Start(lag, origin), es);
    KeepsLag(Start(lag, origin), es);
    ExplainedLoss(After(Start(lag, origin), es));
  }

  lemma SameCover(a: Run, b: Run)
    requires Explained(a) && Explained(b)
    requires a.t.lag == b.t.lag && a.origin == b.origin
    requires a.Covered() == b.Covered()
    ensures a.t.high == b.t.high && a.t.committed == b.t.committed && a.lost == b.lost
  {
    assert a.t.high in a.Covered() || a.t.high == a.origin;
    assert b.t.high in b.Covered() || b.t.high == b.origin;
    FrontierUnique(a.origin, a.t.lag, a.t.high, a.Covered(), a.t.committed, b.t.committed);
    IncreasingUnique(a.lost, b.lost);
  }

  /** Two runs that accepted and dropped the same numbers are in the same state and have
      reported the same losses, in whatever order and grouping the calls came. */
  lemma OrderIrrelevant(a: Run, b: Run)
    requires Explained(a) && Explained(b)
    requires a.t.lag == b.t.lag && a.origin == b.origin
    requires a.accepted == b.accepted && a.dropped == b.dropped
    ensures a == b
  {
    SameCover(a, b);
  }

  lemma RangeSound(r: Run, start: nat, end: nat)
    requires Explained(r)
    ensures var n := Next(r, Range(start, end));
            && Explained(n) && n.t.lag == r.t.lag && n.origin == r.origin && r.t.committed <= n.t.committed
            && n.accepted == r.accepted && n.dropped == r.dropped + Effective(r.t, Range(start, end))
            && n.t.high == (if start <= end && r.t.committed <= end then Max(r.t.high, end) else r.t.high)
  {
    NextExplained(r, Range(start, end));
    NextKeeps(r, Range(start, end));
    SettleKeeps(r.t.(skipped := r.t.skipped + Interval(Max(start, r.t.committed), end + 1),
      high := Max(r.t.high, end)));
  }

  // ---- Redelivery ----

  /** The event can no longer change anything. */
  ghost predicate Inert(r: Run, e: Event) {
    match e
    case Record(s) => s < r.t.committed || s in r.Covered()
    case Range(start, end) => forall s: nat :: start <= s <= end ==> s < r.t.committed || s in r.dropped
  }

  lemma SettledStays(t: Tracker)
    requires t == Cut(t, t.committed) && IsFrontier(t.committed, t.lag, t.high, t.Covered(), t.committed)
    ensures Settle(t) == Settled(t, [])
  {
    SettleExactly(t, Settled(t, []));
  }

  lemma InertRecord(r: Run, s: nat)
    requires Explained(r) && Inert(r, Record(s))
    ensures Step(r.t, Record(s)) == (r.t, RecordReply(Duplicate, []))
  {
    RecordOutcome(r, s);
    assert r.origin <= s < r.t.committed && s !in r.Covered() ==> s in r.lost;
  }

  lemma InertRange(r: Run, start: nat, end: nat)
    requires Explained(r) && Inert(r, Range(start, end))
    ensures Step(r.t, Range(start, end)) == (r.t, RangeReply([])) && Effective(r.t, Range(start, end)) <= r.dropped
  {
    var t, c := r.t, r.t.committed;
    if start <= end && c <= end {
      assert end in r.Covered();
      assert t.skipped + Effective(t, Range(start, end)) == t.skipped;
      assert c !in t.Covered();
      SettledStays(t);
    }
  }

  lemma InertChangesNothing(r: Run, e: Event)
    requires Explained(r) && Inert(r, e)
    ensures Next(r, e) == r && Quiet(Step(r.t, e).1)
  {
    if e.Record? {
      InertRecord(r, e.num);
    } else {
      InertRange(r, e.start, e.end);
    }
    QuietStep(r, e);
  }

  lemma InertAfterwards(r: Run, e: Event)
    requires Explained(r)
    ensures Inert(Next(r, e), e)
  {
    match e
    case Record(s) =>
      RecordOutcome(r, s);
      NextKeeps(r, e);
    case Range(start, end) => RangeSound(r, start, end);
  }

  lemma {:induction false} StaysInert(r: Run, es: seq<Event>, e: Event)
    requires Explained(r) && e in es
    ensures Inert(After(r, es), e)
  {
    var before, last := es[..|es| - 1], es[|es| - 1];
    var q := After(r, before);
    Reachable(r, before);
    if e == last {
      InertAfterwards(q, e);
    } else {
      assert e in before;
      StaysInert(r, before, e);
      NextKeeps(q, last);
    }
  }

  /** The entries of `xs` at the positions where `es` shows an event for the first time. */
  ghost function AtFirst<T>(es: seq<Event>, xs: seq<T>): seq<T>
    requires |es| == |xs|
  {
    if es == [] then []
    else
      var n := |es| - 1;
      AtFirst(es[..n], xs[..n]) + (if es[n] in es[..n] then [] else [xs[n]])
  }

  lemma {:induction false} RepliesLength(r: Run, es: seq<Event>)
    ensures |Replies(r, es)| == |es|
  {
    if es != [] {
      RepliesLength(r, es[..|es| - 1]);
    }
  }

  lemma RepeatedLast(r: Run, es: seq<Event>)
    requires Explained(r) && es != [] && es[|es| - 1] in es[..|es| - 1]
    ensures var before := es[..|es| - 1];
            && After(r, es) == After(r, before)
            && Replies(r, es) == Replies(r, before) + [Step(After(r, before).t, es[|es| - 1]).1]
            && Quiet(Step(After(r, before).t, es[|es| - 1]).1)
  {
    var before := es[..|es| - 1];
    Reachable(r, before);
    StaysInert(r, before, es[|es| - 1]);
    InertChangesNothing(After(r, before), es[|es| - 1]);
  }

  lemma AppendEvent(r: Run, es: seq<Event>, e: Event)
    ensures After(r, es + [e]) == Next(After(r, es), e)
    ensures Replies(r, es + [e]) == Replies(r, es) + [Step(After(r, es).t, e).1]
  {
    assert (es + [e])[..|es + [e]| - 1] == es;
  }

  lemma AppendFirst<T>(es: seq<Event>, e: Event, xs: seq<T>, x: T)
    requires |es| == |xs|
    ensures AtFirst(es + [e], xs + [x]) == AtFirst(es, xs) + (if e in es then [] else [x])
  {
    var n := |es|;
    assert (es + [e])[..n] == es && (xs + [x])[..n] == xs;
  }

  /** At-least-once delivery: a run with any number of repeated events, anywhere, ends in the same
      state with the same history as the run without the repetitions, and answers the first
      deliveries alike. */
  lemma {:induction false} RedeliveryHarmless(r: Run, es: seq<Event>)
    requires Explained(r)
    ensures |Replies(r, es)| == |es|
    ensures After(r, AtFirst(es, es)) == After(r, es)
    ensures Replies(r, AtFirst(es, es)) == AtFirst(es, Replies(r, es))
  {
    RepliesLength(r, es);
    if es != [] {
      var before, e := es[..|es| - 1], es[|es| - 1];
      assert es == before + [e];
      RedeliveryHarmless(r, before);
      var reply := Step(After(r, before).t, e).1;
      AppendFirst(before, e, before, e);
      AppendFirst(before, e, Replies(r, before), reply);
      if e in before {
        RepeatedLast(r, es);
        assert AtFirst(es, es) == AtFirst(before, before);
      } else {
        AppendEvent(r, AtFirst(before, before), e);
      }
    }
  }

  /** Every repetition is answered as a duplicate, without losses. */
  lemma {:induction false} RepetitionsQuiet(r: Run, es: seq<Event>, k: nat)
    requires Explained(r) && k < |es| && es[k] in es[..k]
    ensures |Replies(r, es)| == |es| && Quiet(Replies(r, es)[k])
  {
    RepliesLength(r, es);
    var n := |es| - 1;
    RepliesLength(r, es[..n]);
    if k == n {
      RepeatedLast(r, es);
    } else {
      assert es[k] == es[..n][k] && es[..k] == es[..n][..k];
      RepetitionsQuiet(r, es[..n], k);
    }
  }

  // ---- Batching of dropped ranges ----

  lemma CommittedNearHigh(r: Run)
    requires Explained(r)
    ensures r.t.committed <= r.t.high + 1
  {
    var top := r.t.high + 1;
    assert r.origin <= top < r.t.committed ==> top in r.Covered() || top + r.t.lag < r.t.high;
  }

  /** What the first piece settles beyond its end was covered already, so nothing of the second
      piece is missed when its settled part is cut off. */
  lemma SkippedOverCovered(r: Run, a: nat, m: nat, b: nat)
    requires Explained(r) && a <= m < b
    ensures var first := Next(r, Range(a, m));
            && Explained(first) && r.t.committed <= first.t.committed
            && forall s: nat :: m < s && r.t.committed <= s < first.t.committed ==> s in r.Covered()
  {
    var first := Next(r, Range(a, m));
    NextExplained(r, Range(a, m));
    RangeSound(r, a, m);
    NextKeeps(r, Range(a, m));
    forall s: nat | m < s && r.t.committed <= s < first.t.committed ensures s in r.Covered() {
      assert s in first.Covered() || s + r.t.lag < first.t.high;
    }
  }

  lemma PiecesCover(r: Run, first: Run, two: Run, one: Run, a: nat, m: nat, b: nat)
    requires a <= m < b && r.t.committed <= first.t.committed <= two.t.committed
    requires r.accepted == first.accepted == two.accepted == one.accepted
    requires first.dropped == r.dropped + Effective(r.t, Range(a, m))
    requires two.dropped == first.dropped + Effective(first.t, Range(m + 1, b))
    requires one.dropped == r.dropped + Effective(r.t, Range(a, b))
    requires forall s: nat :: m < s && r.t.committed <= s < first.t.committed ==> s in r.Covered()
    ensures two.Covered() == one.Covered()
    ensures forall s: nat :: two.t.committed <= s ==> (s in two.dropped <==> s in one.dropped)
  {
    forall s: nat ensures s in two.Covered() <==> s in one.Covered() {
      assert s in r.Covered() ==> s in r.accepted || s in r.dropped;
    }
  }

  lemma SameTracker(a: Run, b: Run)
    requires Explained(a) && Explained(b)
    requires a.t.lag == b.t.lag && a.origin == b.origin
    requires a.accepted == b.accepted && a.Covered() == b.Covered()
    requires forall s: nat :: a.t.committed <= s ==> (s in a.dropped <==> s in b.dropped)
    ensures a.t == b.t && a.lost == b.lost
  {
    SameCover(a, b);
    assert a.t.skipped == b.t.skipped;
  }

  /** Reporting a range in two adjacent pieces gives the same tracker and the same losses as
      reporting it at once. */
  lemma BatchingInvisible(r: Run, a: nat, m: nat, b: nat)
    requires Explained(r) && a <= m < b
    ensures var two := Next(Next(r, Range(a, m)), Range(m + 1, b));
            var one := Next(r, Range(a, b));
            two.t == one.t && two.lost == one.lost
  {
    var first := Next(r, Range(a, m));
    var two, one := Next(first, Range(m + 1, b)), Next(r, Range(a, b));
    SkippedOverCovered(r, a, m, b);
    RangeSound(r, a, m);
    RangeSound(first, m + 1, b);
    RangeSound(r, a, b);
    PiecesCover(r, first, two, one, a, m, b);
    SameTracker(two, one);
  }

  // ---- Size of the pending state ----

  /** Whatever is pending lies strictly above the settled prefix, within `lag` of it. */
  lemma PendingBounded(r: Run)
    requires Explained(r)
    ensures forall s :: s in r.t.Covered() ==> r.t.committed < s <= r.t.high
    ensures |r.t.seen + r.t.skipped| <= SatSub(r.t.high, r.t.committed) <= r.t.lag
  {
    var t := r.t;
    assert t.committed !in r.Covered();
    SubsetSize(t.seen + t.skipped, Interval(t.committed + 1, t.high + 1));
  }

  /** When no range covers an accepted record, the two pending parts are disjoint and fit the window together. */
  lemma PendingPartsBounded(r: Run)
    requires Explained(r) && r.accepted !! r.dropped
    ensures r.t.seen !! r.t.skipped && |r.t.seen| + |r.t.skipped| <= SatSub(r.t.high, r.t.committed) <= r.t.lag
    ensures forall s :: s in r.t.seen || s in r.t.skipped ==> r.t.committed < s <= r.t.high
  {
    PendingBounded(r);
    assert |r.t.seen + r.t.skipped| == |r.t.seen| + |r.t.skipped|;
  }
}
