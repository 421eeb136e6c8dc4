/** The reference form of the gap detector: every dropped sequence number is
    stored on its own and the prefix is settled one sequence number at a time. */
module PerSeqTracker {
  import opened Prelude

  datatype Outcome = New | Duplicate

  datatype Event = Record(num: nat) | Range(start: nat, end: nat)

  datatype Reply = RecordReply(outcome: Outcome, lost: seq<nat>) | RangeReply(lost: seq<nat>)

  datatype Tracker = Tracker(lag: nat, committed: nat, high: nat, seen: set<nat>, skipped: set<nat>)
  {
    ghost function Covered(): iset<nat> {
      iset s | s in seen || s in skipped
    }
  }

  datatype Settled = Settled(t: Tracker, lost: seq<nat>)

  function Joined(lag: nat, committed: nat): Tracker {
    Tracker(lag, committed, committed, {}, {})
  }

  /** The tracker with everything below `c` settled. */
  ghost function Cut(t: Tracker, c: nat): Tracker {
    t.(committed := c, seen := From(t.seen, c), skipped := From(t.skipped, c))
  }

  /** From `c` on: pass what is covered, give up what the window has left behind, stop otherwise. */
  ghost function Walk(t: Tracker, c: nat): (nat, seq<nat>)
    decreases |From(t.seen, c)| + |From(t.skipped, c)| + SatSub(t.high, c)
  {
    FromStep(t.seen, c);
    FromStep(t.skipped, c);
    if c in t.seen || c in t.skipped then
      Walk(t, c + 1)
    else if t.high > c + t.lag then
      var (end, lost) := Walk(t, c + 1);
      (end, [c] + lost)
    else
      (c, [])
  }

  ghost function Settle(t: Tracker): Settled {
    var (c, lost) := Walk(t, t.committed);
    Settled(Cut(t, c), lost)
  }

  ghost function Observe(t: Tracker, s: nat): (Tracker, Outcome, seq<nat>) {
    if s < t.committed || s in t.Covered() then
      (t, Duplicate, [])
    else
      var r := Settle(t.(seen := t.seen + {s}, high := Max(t.high, s)));
      (r.t, New, r.lost)
  }

  ghost function CommitRange(t: Tracker, start: nat, end: nat): Settled {
    if end < start || end < t.committed then
      Settled(t, [])
    else
      Settle(t.(skipped := t.skipped + Interval(Max(start, t.committed), end + 1), high := Max(t.high, end)))
  }

  // ---- What settling computes, without the recursion ----

  /** `c` is the least value from `from` on that is neither covered nor more than `lag` behind `high`. */
  ghost predicate IsFrontier(from: nat, lag: nat, high: nat, covered: iset<nat>, c: nat) {
    && from <= c && c !in covered && high <= c + lag
    && forall s: nat :: from <= s < c ==> s in covered || s + lag < high
  }

  /** `l` lists, in increasing order, the numbers in [lo, hi) that are not covered. */
  ghost predicate IsGapList(l: seq<nat>, lo: nat, hi: nat, covered: iset<nat>) {
    && StrictlyIncreasing(l)
    && forall s: nat :: s in l <==> lo <= s < hi && s !in covered
  }

  lemma FrontierUnique(from: nat, lag: nat, high: nat, covered: iset<nat>, c: nat, d: nat)
    requires IsFrontier(from, lag, high, covered, c) && IsFrontier(from, lag, high, covered, d)
    ensures c == d
  {
  }

  lemma JoinGaps(l: seq<nat>, m: seq<nat>, lo: nat, mid: nat, hi: nat,
                 before: iset<nat>, after: iset<nat>, covered: iset<nat>)
    requires lo <= mid <= hi
    requires IsGapList(l, lo, mid, before) && IsGapList(m, mid, hi, after)
    requires forall x: nat :: x < mid ==> (x in covered <==> x in before)
    requires forall x: nat :: mid <= x ==> (x in covered <==> x in after)
    ensures IsGapList(l + m, lo, hi, covered)
  {
    forall i, j | 0 <= i < j < |l + m| ensures (l + m)[i] < (l + m)[j] {
      if i < |l| {
        assert l[i] in l;
      }
      if |l| <= j {
        assert m[j - |l|] in m;
      }
    }
    forall s: nat ensures s in l + m <==> lo <= s < hi && s !in covered {
      assert s in l + m <==> s in l || s in m;
    }
  }

  lemma {:induction false} WalkSpec(t: Tracker, c: nat)
    ensures var (end, lost) := Walk(t, c);
            IsFrontier(c, t.lag, t.high, t.Covered(), end) && IsGapList(lost, c, end, t.Covered())
    decreases |From(t.seen, c)| + |From(t.skipped, c)| + SatSub(t.high, c)
  {
    FromStep(t.seen, c);
    FromStep(t.skipped, c);
    if c in t.Covered() {
      WalkSpec(t, c + 1);
    } else if t.high > c + t.lag {
      WalkSpec(t, c + 1);
      var (end, lost) := Walk(t, c + 1);
      JoinGaps([c], lost, c, c + 1, end, t.Covered(), t.Covered(), t.Covered());
    }
  }

  ghost predicate SettleResult(t: Tracker, s: Settled) {
    && IsFrontier(t.committed, t.lag, t.high, t.Covered(), s.t.committed)
    && IsGapList(s.lost, t.committed, s.t.committed, t.Covered())
    && s.t == Cut(t, s.t.committed)
  }

  /** The closed form describes what settling computes, and nothing else. */
  lemma SettleExactly(t: Tracker, s: Settled)
    ensures SettleResult(t, s) <==> s == Settle(t)
  {
    WalkSpec(t, t.committed);
    if SettleResult(t, s) {
      FrontierUnique(t.committed, t.lag, t.high, t.Covered(), s.t.committed, Settle(t).t.committed);
      IncreasingUnique(s.lost, Settle(t).lost);
    }
  }
}
