/** Whole runs of the gap detector: what every reachable state says about the past. */
module DeliveryRuns {
  import opened Prelude
  import opened PerSeqTracker

  ghost function Step(t: Tracker, e: Event): (Tracker, Reply) {
    match e
    case Record(s) => var (t1, outcome, lost) := Observe(t, s); (t1, RecordReply(outcome, lost))
    case Range(start, end) => var s := CommitRange(t, start, end); (s.t, RangeReply(s.lost))
  }

  /** The part of a reported range that takes effect: nothing below the settled prefix. */
  ghost function Effective(t: Tracker, e: Event): set<nat> {
    match e
    case Record(_) => {}
    case Range(start, end) =>
      if end < start || end < t.committed then {} else Interval(Max(start, t.committed), end + 1)
  }

  /** A tracker with the history of its calls: the numbers it accepted, the numbers an
      effective range dropped, and the lost lists it returned, joined. */
  datatype Run = Run(t: Tracker, origin: nat, accepted: set<nat>, dropped: set<nat>, lost: seq<nat>)
  {
    ghost function Covered(): iset<nat> {
      iset s | s in accepted || s in dropped
    }
  }

  ghost function Start(lag: nat, origin: nat): Run {
    Run(Joined(lag, origin), origin, {}, {}, [])
  }

  ghost function Next(r: Run, e: Event): Run {
    var (t1, reply) := Step(r.t, e);
    Run(t1, r.origin,
        r.accepted + (if e.Record? && reply.outcome == New then {e.num} else {}),
        r.dropped + Effective(r.t, e),
        r.lost + reply.lost)
  }

  ghost function After(r: Run, es: seq<Event>): Run {
    if es == [] then r else Next(After(r, es[..|es| - 1]), es[|es| - 1])
  }

  ghost function Replies(r: Run, es: seq<Event>): seq<Reply> {
    if es == [] then []
    else
      var before := es[..|es| - 1];
      Replies(r, before) + [Step(After(r, before).t, es[|es| - 1]).1]
  }

  /** The state is a function of what was accepted and dropped, whatever the order of the calls. */
  ghost predicate Explained(r: Run) {
    && (forall s :: s in r.accepted ==> r.origin <= s <= r.t.high)
    && (forall s :: s in r.dropped ==> r.origin <= s <= r.t.high)
    && (r.t.high == r.origin || r.t.high in r.accepted || r.t.high in r.dropped)
    && IsFrontier(r.origin, r.t.lag, r.t.high, r.Covered(), r.t.committed)
    && r.t.seen == From(r.accepted, r.t.committed)
    && r.t.skipped == From(r.dropped, r.t.committed)
    && IsGapList(r.lost, r.origin, r.t.committed, r.Covered())
  }

  /** Taking in numbers at or above the settled prefix and settling keeps the state explained. */
  lemma Absorb(r: Run, accepted: set<nat>, dropped: set<nat>, high: nat)
    requires Explained(r)
    requires r.accepted <= accepted && r.dropped <= dropped
    requires forall s :: s in accepted ==> s <= high && (s in r.accepted || r.t.committed <= s)
    requires forall s :: s in dropped ==> s <= high && (s in r.dropped || r.t.committed <= s)
    requires high == r.t.high || high in accepted || high in dropped
    requires r.t.high <= high
    ensures var c := r.t.committed;
            var s := Settle(r.t.(seen := From(accepted, c), skipped := From(dropped, c), high := high));
            Explained(Run(s.t, r.origin, accepted, dropped, r.lost + s.lost))
  {
    var c := r.t.committed;
    var t := r.t.(seen := From(accepted, c), skipped := From(dropped, c), high := high);
    var s := Settle(t);
    SettleExactly(t, s);
    var d := s.t.committed;
    var covered := iset x | x in accepted || x in dropped;
    assert forall x: nat :: x < c && x in covered ==> x in r.Covered();
    forall x: nat | r.origin <= x < d ensures x in covered || x + r.t.lag < high {
      if x < c {
        assert x in r.Covered() || x + r.t.lag < r.t.high;
      } else {
        assert x in t.Covered() || x + r.t.lag < high;
      }
    }
    assert d !in covered;
    assert s.t.seen == From(accepted, d) && s.t.skipped == From(dropped, d);
    JoinGaps(r.lost, s.lost, r.origin, c, d, r.Covered(), t.Covered(), covered);
  }

  ghost predicate Quiet(reply: Reply) {
    reply.lost == [] && (reply.RecordReply? ==> reply.outcome == Duplicate)
  }

  lemma QuietStep(r: Run, e: Event)
    requires Step(r.t, e).0 == r.t && Quiet(Step(r.t, e).1) && Effective(r.t, e) <= r.dropped
    ensures Next(r, e) == r
  {
    assert r.dropped + Effective(r.t, e) == r.dropped;
    assert r.accepted + {} == r.accepted && r.lost + [] == r.lost;
  }

  /** A record is new exactly when it was neither accepted, dropped nor given up before. */
  lemma RecordOutcome(r: Run, s: nat)
    requires Explained(r)
    ensures Observe(r.t, s).1 == New <==> r.origin <= s && s !in r.Covered() && s !in r.lost
  {
    var c := r.t.committed;
    assert s in r.Covered() && c <= s ==> s in From(r.accepted, c) || s in From(r.dropped, c);
  }

  lemma RecordExplained(r: Run, s: nat)
    requires Explained(r)
    ensures Explained(Next(r, Record(s)))
  {
    var t, c := r.t, r.t.committed;
    RecordOutcome(r, s);
    if Observe(t, s).1 == New {
      var accepted := r.accepted + {s};
      Absorb(r, accepted, r.dropped, Max(t.high, s));
      assert From(accepted, c) == t.seen + {s};
      assert r.dropped + Effective(t, Record(s)) == r.dropped;
      assert t.skipped == From(r.dropped, c);
    } else {
      assert Observe(t, s) == (t, Duplicate, []);
      assert Next(r, Record(s)) == r;
    }
  }

  lemma RangeSettles(r: Run, start: nat, end: nat, t1: Tracker)
    requires start <= end && r.t.committed <= end
    requires t1 == r.t.(skipped := r.t.skipped + Effective(r.t, Range(start, end)), high := Max(r.t.high, end))
    ensures Step(r.t, Range(start, end)) == (Settle(t1).t, RangeReply(Settle(t1).lost))
    ensures Next(r, Range(start, end)) ==
            Run(Settle(t1).t, r.origin, r.accepted, r.dropped + Effective(r.t, Range(start, end)),
              r.lost + Settle(t1).lost)
  {
    assert r.accepted + {} == r.accepted;
  }

  lemma RangeIgnored(r: Run, start: nat, end: nat)
    requires end < start || end < r.t.committed
    ensures Step(r.t, Range(start, end)) == (r.t, RangeReply([])) && Next(r, Range(start, end)) == r
  {
    QuietStep(r, Range(start, end));
  }

  lemma RangeAbsorbed(r: Run, start: nat, end: nat, t1: Tracker)
    requires Explained(r) && start <= end && r.t.committed <= end
    requires t1 == r.t.(skipped := r.t.skipped + Interval(Max(start, r.t.committed), end + 1),
      high := Max(r.t.high, end))
    ensures Explained(Run(Settle(t1).t, r.origin, r.accepted, r.dropped + Interval(Max(start, r.t.committed), end + 1),
                          r.lost + Settle(t1).lost))
  {
    var dropped := r.dropped + Interval(Max(start, r.t.committed), end + 1);
    Absorb(r, r.accepted, dropped, t1.high);
    assert t1.skipped == From(dropped, r.t.committed);
  }

  lemma RangeExplained(r: Run, start: nat, end: nat)
    requires Explained(r)
    ensures Explained(Next(r, Range(start, end)))
  {
    if start <= end && r.t.committed <= end {
      var t1 := r.t.(skipped := r.t.skipped + Effective(r.t, Range(start, end)), high := Max(r.t.high, end));
      RangeAbsorbed(r, start, end, t1);
      RangeSettles(r, start, end, t1);
    } else {
      RangeIgnored(r, start, end);
    }
  }

  lemma NextExplained(r: Run, e: Event)
    requires Explained(r)
    ensures Explained(Next(r, e))
  {
    match e
    case Record(s) => RecordExplained(r, s);
    case Range(start, end) => RangeExplained(r, start, end);
  }

  lemma StartExplained(lag: nat, origin: nat)
    ensures Explained(Start(lag, origin))
  {
  }

  lemma {:induction false} Reachable(r: Run, es: seq<Event>)
    requires Explained(r)
    ensures Explained(After(r, es))
  {
    if es != [] {
      Reachable(r, es[..|es| - 1]);
      NextExplained(After(r, es[..|es| - 1]), es[|es| - 1]);
    }
  }
}
