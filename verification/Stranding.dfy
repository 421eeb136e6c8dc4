/** Runs that settle everything and leave ranges stored: a range over a record that still waits for an
    earlier one is passed record by record and never removed. */
module Stranding {
  import opened Prelude
  import opened PerSeqTracker
  import opened DeliveryRuns
  import opened LossTheory
  import opened RangeMap
  import opened LeftBehind
  import opened Watermark
  import opened Limits

  /** n rounds: everything below 2n was accepted, the odd numbers were dropped too, all is settled. */
  ghost predicate StrandedRun(r: Run, lag: nat, n: nat) {
    && Explained(r) && r.t.lag == lag && r.origin == 0 && r.t.committed == 2 * n && r.t.high <= 2 * n
    && (forall s: nat :: s in r.accepted <==> s < 2 * n)
    && (forall s: nat :: s in r.dropped <==> s in Odds(n))
  }

  /** A range over the one record that waits. */
  lemma RangeOver(r: Run, lag: nat, c: nat)
    requires Explained(r) && r.t.lag == lag && r.origin == 0 && r.t.committed == c && r.t.high == c + 1 && 1 <= lag
    requires c !in r.dropped
    ensures var n := Next(r, Range(c + 1, c + 1));
            && Explained(n) && n.t.lag == lag && n.origin == 0 && n.t.committed == c && n.t.high == c + 1
            && n.accepted == r.accepted && forall s: nat :: s in n.dropped <==> s in r.dropped || s == c + 1
  {
    var n := Next(r, Range(c + 1, c + 1));
    RangeSound(r, c + 1, c + 1);
    var added := Effective(r.t, Range(c + 1, c + 1));
    assert forall s: nat :: s in added <==> s == c + 1;
    assert IsFrontier(0, lag, r.t.high, r.Covered(), c);
    FrontierUnique(0, lag, n.t.high, n.Covered(), n.t.committed, c);
  }

  /** The missing record. */
  lemma RecordFills(r: Run, lag: nat, c: nat)
    requires Explained(r) && r.t.lag == lag && r.origin == 0 && r.t.committed == c && r.t.high == c + 1
    requires c + 1 in r.accepted
    ensures var n := Next(r, Record(c));
            && Explained(n) && n.t.lag == lag && n.origin == 0 && n.t.committed == c + 2 && n.t.high == c + 1
            && n.accepted == r.accepted + {c} && n.dropped == r.dropped
  {
    var n := Next(r, Record(c));
    RecordOutcome(r, c);
    NextExplained(r, Record(c));
    NextKeeps(r, Record(c));
    SettleKeeps(r.t.(seen := r.t.seen + {c}, high := Max(r.t.high, c)));
    assert c !in r.Covered() && c !in r.lost;
    assert n.accepted == r.accepted + {c} && n.dropped == r.dropped;
    assert IsFrontier(0, lag, r.t.high, r.Covered(), c);
    FrontierUnique(0, lag, n.t.high, n.Covered(), n.t.committed, c + 2);
  }

  ghost predicate Waiting(r: Run, lag: nat, n: nat, odds: nat) {
    && Explained(r) && r.t.lag == lag && r.origin == 0 && r.t.committed == 2 * n && r.t.high == 2 * n + 1
    && (forall s: nat :: s in r.accepted <==> s < 2 * n || s == 2 * n + 1)
    && (forall s: nat :: s in r.dropped <==> s in Odds(odds))
  }

  lemma OddsNext(n: nat)
    ensures forall s: nat :: s in Odds(n + 1) <==> s in Odds(n) || s == 2 * n + 1
  {
  }

  lemma AheadState(q: Run, r: Run, lag: nat, n: nat)
    requires StrandedRun(q, lag, n) && r.accepted == q.accepted + {2 * n + 1} && r.dropped == q.dropped
    requires Explained(r) && r.t.lag == lag && r.origin == 0 && r.t.committed == 2 * n && r.t.high == 2 * n + 1
    ensures Waiting(r, lag, n, n)
  {
  }

  lemma FilledState(q: Run, r: Run, lag: nat, n: nat)
    requires Waiting(q, lag, n, n + 1) && r.accepted == q.accepted + {2 * n} && r.dropped == q.dropped
    requires Explained(r) && r.t.lag == lag && r.origin == 0 && r.t.committed == 2 * n + 2 && r.t.high == 2 * n + 1
    ensures StrandedRun(r, lag, n + 1)
  {
  }

  lemma AheadNext(q: Run, lag: nat, n: nat)
    requires 1 <= lag && StrandedRun(q, lag, n)
    ensures Waiting(Next(q, Record(2 * n + 1)), lag, n, n)
  {
    RecordAhead(q, lag, 2 * n);
    AheadState(q, Next(q, Record(2 * n + 1)), lag, n);
  }

  lemma OverState(q: Run, r: Run, lag: nat, n: nat)
    requires Waiting(q, lag, n, n) && r.accepted == q.accepted
    requires forall s: nat :: s in r.dropped <==> s in q.dropped || s == 2 * n + 1
    requires Explained(r) && r.t.lag == lag && r.origin == 0 && r.t.committed == 2 * n && r.t.high == 2 * n + 1
    ensures Waiting(r, lag, n, n + 1)
  {
    OddsNext(n);
  }

  lemma OverNext(q: Run, lag: nat, n: nat)
    requires 1 <= lag && Waiting(q, lag, n, n)
    ensures Waiting(Next(q, Range(2 * n + 1, 2 * n + 1)), lag, n, n + 1)
  {
    OddsFacts(n);
    assert 2 * n !in q.dropped;
    RangeOver(q, lag, 2 * n);
    OverState(q, Next(q, Range(2 * n + 1, 2 * n + 1)), lag, n);
  }

  lemma FilledNext(q: Run, lag: nat, n: nat)
    requires Waiting(q, lag, n, n + 1)
    ensures StrandedRun(Next(q, Record(2 * n)), lag, n + 1)
  {
    RecordFills(q, lag, 2 * n);
    FilledState(q, Next(q, Record(2 * n)), lag, n);
  }

  lemma FirstThird(r0: Run, es: seq<Event>, lag: nat, n: nat) returns (more: seq<Event>)
    requires 1 <= lag && StrandedRun(After(r0, es), lag, n)
    ensures more == es + [Record(2 * n + 1)] && Waiting(After(r0, more), lag, n, n)
  {
    AppendEvent(r0, es, Record(2 * n + 1));
    AheadNext(After(r0, es), lag, n);
    more := es + [Record(2 * n + 1)];
  }

  lemma SecondThird(r0: Run, es: seq<Event>, lag: nat, n: nat) returns (more: seq<Event>)
    requires 1 <= lag && Waiting(After(r0, es), lag, n, n)
    ensures more == es + [Range(2 * n + 1, 2 * n + 1)] && Waiting(After(r0, more), lag, n, n + 1)
  {
    AppendEvent(r0, es, Range(2 * n + 1, 2 * n + 1));
    OverNext(After(r0, es), lag, n);
    more := es + [Range(2 * n + 1, 2 * n + 1)];
  }

  lemma LastThird(r0: Run, es: seq<Event>, lag: nat, n: nat) returns (more: seq<Event>)
    requires Waiting(After(r0, es), lag, n, n + 1)
    ensures more == es + [Record(2 * n)] && StrandedRun(After(r0, more), lag, n + 1)
  {
    AppendEvent(r0, es, Record(2 * n));
    FilledNext(After(r0, es), lag, n);
    more := es + [Record(2 * n)];
  }

  lemma StrandOnce(r0: Run, lag: nat, n: nat, es: seq<Event>) returns (more: seq<Event>)
    requires 1 <= lag && StrandedRun(After(r0, es), lag, n)
    ensures more == es + [Record(2 * n + 1)] + [Range(2 * n + 1, 2 * n + 1)] + [Record(2 * n)]
    ensures StrandedRun(After(r0, more), lag, n + 1)
  {
    var first := FirstThird(r0, es, lag, n);
    var second := SecondThird(r0, first, lag, n);
    more := LastThird(r0, second, lag, n);
  }

  lemma StrandAgain(r0: Run, lag: nat, n: nat, es: seq<Event>) returns (more: seq<Event>)
    requires 1 <= lag && StrandedRun(After(r0, es), lag, n)
    ensures |more| == |es| + 3 && StrandedRun(After(r0, more), lag, n + 1)
  {
    more := StrandOnce(r0, lag, n, es);
  }

  lemma Strand(r0: Run, lag: nat, n: nat) returns (es: seq<Event>)
    requires 1 <= lag && StrandedRun(r0, lag, 0)
    ensures |es| == 3 * n && StrandedRun(After(r0, es), lag, n)
  {
    es := [];
    for k := 0 to n
      invariant |es| == 3 * k && StrandedRun(After(r0, es), lag, k)
    {
      es := StrandAgain(r0, lag, k, es);
    }
  }

  lemma OddHeld(r: Run, lag: nat, n: nat, x: nat)
    requires StrandedRun(r, lag, n)
    ensures Held(r, x) <==> x in Odds(n)
  {
    OddsFacts(n);
    forall y: nat | SameBlock(r, x, y) ensures y in r.accepted {
      assert y in r.dropped;
    }
  }

  lemma OddsApart(n: nat, x: nat)
    ensures x in Odds(n) ==> x != 0 && x - 1 !in Odds(n)
  {
    OddsFacts(n);
    assert x in Odds(n) ==> (x - 1) % 2 == 0;
  }

  lemma OddBlocks(r: Run, lag: nat, n: nat)
    requires StrandedRun(r, lag, n)
    ensures forall x: nat :: Held(r, x) <==> x in Odds(n)
    ensures BlockStarts(r) == Odds(n)
  {
    forall x: nat ensures Held(r, x) <==> x in Odds(n) {
      OddHeld(r, lag, n, x);
    }
    forall x: nat ensures x in BlockStarts(r) <==> x in Odds(n) {
      OddsApart(n, x);
    }
  }

  lemma NothingPending(r: Run, lag: nat, n: nat)
    requires StrandedRun(r, lag, n)
    ensures r.t.seen == {} && r.t.skipped == {}
  {
    OddsFacts(n);
    assert forall s :: s in r.accepted || s in r.dropped ==> s < r.t.committed;
  }

  lemma RangesLeft(r: Run, lag: nat, n: nat)
    requires StrandedRun(r, lag, n)
    ensures r.t.seen == {} && r.t.skipped == {}
    ensures forall d :: Consistent(r, d) ==> d.ranges.Keys == Odds(n) && |d.ranges| == n
  {
    NothingPending(r, lag, n);
    OddBlocks(r, lag, n);
    OddsFacts(n);
    forall d | Consistent(r, d) ensures d.ranges.Keys == Odds(n) && |d.ranges| == n {
      ViewBacks(d);
      HeldExactly(r, d.ranges);
    }
  }

  /** However wide the window, there are runs that settle everything and leave any number of ranges
      stored for good. */
  lemma RangesUnbounded(lag: nat, n: nat) returns (es: seq<Event>)
    requires 1 <= lag
    ensures |es| == 3 * n
    ensures var r := After(Start(lag, 0), es);
            && r.t.committed == 2 * n && r.t.seen == {} && r.t.skipped == {}
            && forall d :: Consistent(r, d) ==> d.ranges.Keys == Odds(n) && |d.ranges| == n
  {
    StartExplained(lag, 0);
    es := Strand(Start(lag, 0), lag, n);
    RangesLeft(After(Start(lag, 0), es), lag, n);
  }

  lemma OneRound(r0: Run, lag: nat, es: seq<Event>)
    requires 1 <= lag && StrandedRun(r0, lag, 0) && es == [Record(1), Range(1, 1), Record(0)]
    ensures StrandedRun(After(r0, es), lag, 1)
  {
    assert After(r0, []) == r0;
    var more := StrandOnce(r0, lag, 0, []);
    assert more == es;
  }

  lemma OneRangeLeft(r: Run, lag: nat, d: Stored)
    requires StrandedRun(r, lag, 1) && Consistent(r, d)
    ensures d.committed == 2 && d.ranges == map[1 := 1]
  {
    OddBlocks(r, lag, 1);
    ViewBacks(d);
    HeldExactly(r, d.ranges);
    assert Odds(1) == {1};
    var one := map[1 := 1];
    forall x: nat ensures Covers(one, x) <==> x == 1 {
      assert 1 in one;
    }
    CoverDetermines(d.ranges, one);
  }

  /** Such a run: record 1, the range of 1 alone, and then record 0. */
  lemma RangeFloorBroken(lag: nat, es: seq<Event>, d: Stored)
    requires 1 <= lag && es == [Record(1), Range(1, 1), Record(0)] && Consistent(After(Start(lag, 0), es), d)
    ensures d.committed == 2 && d.ranges == map[1 := 1]
  {
    StartExplained(lag, 0);
    OneRound(Start(lag, 0), lag, es);
    OneRangeLeft(After(Start(lag, 0), es), lag, d);
  }
}
