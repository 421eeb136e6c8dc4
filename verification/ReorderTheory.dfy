/** Streams of records only: exactly which arrivals are accepted, for any order and any repetition. */
module ReorderTheory {
  import opened Prelude
  import opened PerSeqTracker
  import opened DeliveryRuns
  import opened LossTheory

  ghost function Records(xs: seq<nat>): seq<Event> {
    seq(|xs|, i requires 0 <= i < |xs| => Record(xs[i]))
  }

  ghost function AfterRecords(lag: nat, xs: seq<nat>): Run {
    After(Start(lag, 0), Records(xs))
  }

  /** The arrival at position j comes neither after itself nor after a number more than `lag` above it. */
  ghost predicate InTime(lag: nat, xs: seq<nat>, j: nat)
    requires j < |xs|
  {
    xs[j] !in xs[..j] && forall i :: 0 <= i < j ==> xs[i] <= xs[j] + lag
  }

  ghost function OutcomeAt(lag: nat, xs: seq<nat>, j: nat): Outcome
    requires j < |xs|
  {
    Observe(AfterRecords(lag, xs[..j]).t, xs[j]).1
  }

  ghost predicate Tracks(lag: nat, xs: seq<nat>) {
    var r := AfterRecords(lag, xs);
    && Explained(r) && r.t.lag == lag && r.origin == 0 && r.dropped == {}
    && (forall x :: x in r.accepted ==> x in xs)
    && (forall i :: 0 <= i < |xs| ==> xs[i] <= r.t.high && (xs[i] in r.accepted || xs[i] in r.lost))
    && (r.t.high == 0 || r.t.high in xs)
  }

  lemma AppendRecord(lag: nat, xs: seq<nat>)
    requires xs != []
    ensures AfterRecords(lag, xs) == Next(AfterRecords(lag, xs[..|xs| - 1]), Record(xs[|xs| - 1]))
  {
    assert Records(xs) == Records(xs[..|xs| - 1]) + [Record(xs[|xs| - 1])];
    AppendEvent(Start(lag, 0), Records(xs[..|xs| - 1]), Record(xs[|xs| - 1]));
  }

  lemma TracksOne(lag: nat, xs: seq<nat>)
    requires xs != [] && Tracks(lag, xs[..|xs| - 1])
    ensures Tracks(lag, xs)
  {
    var before, x := xs[..|xs| - 1], xs[|xs| - 1];
    var q, r := AfterRecords(lag, before), AfterRecords(lag, xs);
    AppendRecord(lag, xs);
    RecordOutcome(q, x);
    RecordExplained(q, x);
    NextKeeps(q, Record(x));
    SettleKeeps(q.t.(seen := q.t.seen + {x}, high := Max(q.t.high, x)));
    assert r.dropped == {};
    assert x in q.Covered() ==> x in q.accepted;
    assert x in q.lost ==> x < q.t.committed;
    CommittedNearHigh(q);
    forall i | 0 <= i < |xs| ensures xs[i] <= r.t.high && (xs[i] in r.accepted || xs[i] in r.lost) {
      if i < |before| {
        assert xs[i] == before[i];
      }
    }
    assert forall y :: y in before ==> y in xs;
  }

  lemma {:induction false} TracksAll(lag: nat, xs: seq<nat>)
    ensures Tracks(lag, xs)
  {
    if xs == [] {
      StartExplained(lag, 0);
      assert Records(xs) == [];
    } else {
      TracksAll(lag, xs[..|xs| - 1]);
      TracksOne(lag, xs);
    }
  }

  /** An arrival is accepted if and only if it is in time. */
  lemma AcceptedExactlyInTime(lag: nat, xs: seq<nat>, j: nat)
    requires j < |xs|
    ensures OutcomeAt(lag, xs, j) == New <==> InTime(lag, xs, j)
    ensures !InTime(lag, xs, j) && xs[j] !in xs[..j] ==> xs[j] in AfterRecords(lag, xs[..j]).lost
  {
    var before := xs[..j];
    var r := AfterRecords(lag, before);
    TracksAll(lag, before);
    RecordOutcome(r, xs[j]);
    ExplainedLoss(r);
    if xs[j] in before {
      var i :| 0 <= i < j && before[i] == xs[j];
      assert before[i] in r.accepted || before[i] in r.lost;
    } else if InTime(lag, xs, j) {
      assert r.t.high <= xs[j] + lag;
    } else {
      var i :| 0 <= i < j && xs[i] > xs[j] + lag;
      assert before[i] <= r.t.high;
    }
  }

  // ---- A stream that holds each of 0, ..., n-1 once ----

  ghost predicate IsPermutation(xs: seq<nat>) {
    && (forall i :: 0 <= i < |xs| ==> xs[i] < |xs|)
    && (forall i, j :: 0 <= i < j < |xs| ==> xs[i] != xs[j])
  }

  ghost predicate Clean(lag: nat, xs: seq<nat>) {
    var r := AfterRecords(lag, xs);
    r.lost == [] && r.t.committed == |xs| && r.t.seen == {}
  }

  lemma {:induction false} PermutationElements(xs: seq<nat>)
    requires forall i, j :: 0 <= i < j < |xs| ==> xs[i] != xs[j]
    ensures |Elements(xs)| == |xs|
  {
    if xs != [] {
      var rest := xs[..|xs| - 1];
      PermutationElements(rest);
      assert Elements(xs) == Elements(rest) + {xs[|xs| - 1]};
    }
  }

  lemma {:induction false} AllAccepted(lag: nat, xs: seq<nat>)
    requires forall j :: 0 <= j < |xs| ==> InTime(lag, xs, j)
    ensures AfterRecords(lag, xs).accepted == Elements(xs)
  {
    if xs != [] {
      var n := |xs| - 1;
      var before := xs[..n];
      forall j | 0 <= j < n ensures InTime(lag, before, j) {
        assert InTime(lag, xs, j) && before[..j] == xs[..j];
      }
      AllAccepted(lag, before);
      AcceptedExactlyInTime(lag, xs, n);
      AppendRecord(lag, xs);
      assert Elements(xs) == Elements(before) + {xs[n]};
    } else {
      assert Records(xs) == [];
    }
  }

  lemma {:induction false} LostStaysLost(lag: nat, xs: seq<nat>, j: nat)
    requires j <= |xs|
    ensures AfterRecords(lag, xs[..j]).lost <= AfterRecords(lag, xs).lost
    decreases |xs|
  {
    if j == |xs| {
      assert xs[..j] == xs;
    } else {
      var before := xs[..|xs| - 1];
      LostStaysLost(lag, before, j);
      assert before[..j] == xs[..j];
      AppendRecord(lag, xs);
      NextKeeps(AfterRecords(lag, before), Record(xs[|xs| - 1]));
    }
  }

  lemma CleanIfInTime(lag: nat, xs: seq<nat>)
    requires IsPermutation(xs)
    requires forall j :: 0 <= j < |xs| ==> InTime(lag, xs, j)
    ensures Clean(lag, xs)
  {
    var r, n := AfterRecords(lag, xs), |xs|;
    TracksAll(lag, xs);
    AllAccepted(lag, xs);
    PermutationElements(xs);
    SubsetSize(Elements(xs), Interval(0, n));
    assert forall x: nat :: x in r.Covered() <==> x < n;
    FrontierUnique(0, lag, r.t.high, r.Covered(), r.t.committed, n);
    IncreasingUnique(r.lost, []);
    assert r.t.seen == {};
  }

  /** The tolerance window is tight: a shuffled stream goes through without a loss, leaving nothing
      pending, if and only if no number arrives after one more than `lag` above it. */
  lemma ToleranceTight(lag: nat, xs: seq<nat>)
    requires IsPermutation(xs)
    ensures Clean(lag, xs) <==> forall i, j :: 0 <= i < j < |xs| ==> xs[i] <= xs[j] + lag
  {
    if forall i, j :: 0 <= i < j < |xs| ==> xs[i] <= xs[j] + lag {
      CleanIfInTime(lag, xs);
    } else {
      var i, j :| 0 <= i < j < |xs| && xs[i] > xs[j] + lag;
      assert !InTime(lag, xs, j);
      AcceptedExactlyInTime(lag, xs, j);
      LostStaysLost(lag, xs, j);
    }
  }
}
