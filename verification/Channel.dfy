/** One agent's quality channel: the gap detector plus the delivery counters. */
module Channel {
  import opened Prelude
  import opened PerSeqTracker
  import opened DeliveryRuns
  import opened LossTheory
  import opened RangeMap
  import opened LeftBehind
  import opened Watermark
  import opened Limits

  datatype Acceptance = Accepted | Rejected

  datatype DroppedRange = DroppedRange(rangeStart: nat, rangeEnd: nat, dropReason: string)
  {
    function Count(): nat {
      SatAdd(SatSub(rangeEnd, rangeStart), 1)
    }
  }

  datatype StreamLossReport = StreamLossReport(agentId: string, lostCount: nat, filteredCount: nat,
                                               acceptedCount: nat, droppedRanges: seq<DroppedRange>)

  // ---- What the filtered counter adds up ----

  ghost function Weight(e: Event): nat {
    match e
    case Record(_) => 0
    case Range(start, end) => SatAdd(SatSub(end, start), 1)
  }

  /** What a range weighs: one number for each it covers, up to the top of the integer type, but an inverted one
      still weighs one. */
  lemma WeightExactly(start: nat, end: nat)
    requires end <= U64_MAX
    ensures start <= end ==> Weight(Range(start, end)) == if |Interval(start, end + 1)| <= U64_MAX
                                                           then |Interval(start, end + 1)| else U64_MAX
    ensures end < start ==> Interval(start, end + 1) == {} && Weight(Range(start, end)) == 1
    ensures Weight(Range(start, end)) == DroppedRange(start, end, "").Count()
  {
    assert end < start ==> |Interval(start, end + 1)| == 0;
  }

  ghost function Tally(es: seq<Event>): nat {
    if es == [] then 0 else Tally(es[..|es| - 1]) + Weight(es[|es| - 1])
  }

  /** The reported range is well formed, not late, and repeats nothing. */
  ghost predicate CleanRange(r: Run, e: Event) {
    match e
    case Record(_) => true
    case Range(start, end) => start <= end && r.t.committed <= start && Interval(start, end + 1) !! r.dropped
  }

  ghost predicate AllClean(r: Run, es: seq<Event>) {
    es == [] || (AllClean(r, es[..|es| - 1]) && CleanRange(After(r, es[..|es| - 1]), es[|es| - 1]))
  }

  /** A range up to the top of the integer type that leaves no gap cannot be settled within it. */
  lemma FullRange(r: Run, start: nat, end: nat)
    requires Explained(r) && start <= r.t.committed <= end && Representable(Next(r, Range(start, end)))
    ensures end < U64_MAX
  {
    var n := Next(r, Range(start, end));
    RangeSound(r, start, end);
    assert n.t.committed !in n.Covered();
  }

  lemma WeightOfRange(r: Run, start: nat, end: nat)
    requires Explained(r) && end <= U64_MAX && Representable(Next(r, Range(start, end)))
    ensures |Effective(r.t, Range(start, end)) - r.dropped| <= Weight(Range(start, end))
    ensures |Effective(r.t, Range(start, end)) - r.dropped| == Weight(Range(start, end)) <==>
            CleanRange(r, Range(start, end))
  {
    var added := Effective(r.t, Range(start, end));
    SubsetSize(added - r.dropped, added);
    if start <= r.t.committed <= end {
      FullRange(r, start, end);
    }
    assert added - r.dropped == added <==> added !! r.dropped;
  }

  lemma WeightOfNew(r: Run, e: Event)
    requires Explained(r) && Encodable(e) && Representable(Next(r, e))
    ensures |Next(r, e).dropped| <= |r.dropped| + Weight(e)
    ensures |Next(r, e).dropped| == |r.dropped| + Weight(e) <==> CleanRange(r, e)
  {
    var added := Effective(r.t, e);
    assert Next(r, e).dropped == r.dropped + (added - r.dropped);
    if e.Range? {
      WeightOfRange(r, e.start, e.end);
    }
  }

  /** The filtered counter never falls short of the numbers really dropped, and hits them exactly
      when every reported range was well formed, in time, and new. */
  lemma {:induction false} TallyExact(r: Run, es: seq<Event>)
    requires Explained(r) && (forall e :: e in es ==> Encodable(e)) && Representable(After(r, es))
    ensures |After(r, es).dropped| <= |r.dropped| + Tally(es)
    ensures |After(r, es).dropped| == |r.dropped| + Tally(es) <==> AllClean(r, es)
  {
    if es != [] {
      var n := |es| - 1;
      Reachable(r, es[..n]);
      NextKeeps(After(r, es[..n]), es[n]);
      TallyExact(r, es[..n]);
      WeightOfNew(After(r, es[..n]), es[n]);
    }
  }

  // ---- Conservation ----

  /** Settled numbers that were accepted as records and dropped by a range as well. */
  ghost function SettledTwice(r: Run): set<nat> {
    Below(r.accepted * r.dropped, r.t.committed)
  }

  lemma ThreePartSize(a: set<nat>, d: set<nat>, l: set<nat>)
    requires a !! l && d !! l
    ensures |a| + |d| + |l| == |a + d + l| + |a * d|
  {
    var both := a + d;
    assert |both| == |a| + |d| - |a * d|;
    assert |both + l| == |both| + |l|;
  }

  lemma PrefixSets(r: Run)
    requires Explained(r)
    ensures Below(r.accepted, r.t.committed) !! Elements(r.lost) && Below(r.dropped, r.t.committed) !! Elements(r.lost)
    ensures Below(r.accepted, r.t.committed) + Below(r.dropped, r.t.committed) + Elements(r.lost)
            == Interval(r.origin, r.t.committed)
  {
    var c := r.t.committed;
    forall s: nat
      ensures s in Below(r.accepted, c) || s in Below(r.dropped, c) || s in Elements(r.lost) <==> r.origin <= s < c
    {
      assert s in r.lost <==> r.origin <= s < c && s !in r.Covered();
    }
  }

  lemma PrefixParts(r: Run)
    requires Explained(r)
    ensures |Below(r.accepted, r.t.committed)| + |Below(r.dropped, r.t.committed)| + |r.lost|
            == r.t.committed - r.origin + |SettledTwice(r)|
  {
    var a, d := Below(r.accepted, r.t.committed), Below(r.dropped, r.t.committed);
    IncreasingSize(r.lost);
    PrefixSets(r);
    ThreePartSize(a, d, Elements(r.lost));
    assert a * d == SettledTwice(r);
  }

  /** Every number handed out is accounted for: accepted, lost and dropped numbers together are the
      settled prefix plus what is pending, counting twice what was both accepted and dropped. */
  lemma Conservation(r: Run)
    requires Explained(r)
    ensures |r.accepted| + |r.lost| + |r.dropped|
            == r.t.committed - r.origin + |r.t.seen| + |r.t.skipped| + |SettledTwice(r)|
  {
    PrefixParts(r);
    SplitSize(r.accepted, r.t.committed);
    SplitSize(r.dropped, r.t.committed);
  }

  /** The counters of a channel after any calls, with the exact condition under which they add up. */
  lemma CountersConserve(lag: nat, es: seq<Event>)
    requires (forall e :: e in es ==> Encodable(e)) && Representable(After(Start(lag, 0), es))
    ensures var r := After(Start(lag, 0), es);
            var counted, placed := |r.accepted| + |r.lost| + Tally(es), r.t.committed + |r.t.seen| + |r.t.skipped|;
            && placed <= counted
            && (placed == counted <==> AllClean(Start(lag, 0), es) && SettledTwice(r) == {})
  {
    var r0 := Start(lag, 0);
    StartExplained(lag, 0);
    Reachable(r0, es);
    KeepsLag(r0, es);
    TallyExact(r0, es);
    Conservation(After(r0, es));
  }

  lemma AfterRangeOfZero(r0: Run, q: Run)
    requires Explained(r0) && r0.origin == r0.t.committed == 0 && r0.dropped == {} &&
      q == Next(r0, Range(0, 0)) && r0.t.high == 0
    ensures 0 < q.t.committed <= U64_MAX && q.dropped == {0} && Next(q, Range(0, 0)) == q
  {
    RangeSound(r0, 0, 0);
    assert q.dropped == {0};
    assert q.t.committed !in q.Covered();
    CommittedNearHigh(q);
    RangeIgnored(q, 0, 0);
  }

  /** They need not: reported twice, a range of one number is counted twice and dropped once. */
  lemma CountersOvershoot(lag: nat, es: seq<Event>)
    requires es == [Range(0, 0), Range(0, 0)]
    ensures var r := After(Start(lag, 0), es);
            && Tally(es) == 2 && |r.dropped| == 1 && !AllClean(Start(lag, 0), es)
            && r.t.committed + |r.t.seen| + |r.t.skipped| < |r.accepted| + |r.lost| + Tally(es)
  {
    var r0 := Start(lag, 0);
    var q := Next(r0, Range(0, 0));
    StartExplained(lag, 0);
    RangeSound(r0, 0, 0);
    assert es[..1] == [Range(0, 0)] && es[..1][..0] == [];
    assert After(r0, es[..1]) == q;
    AfterRangeOfZero(r0, q);
    assert After(r0, es) == q;
    assert Tally(es[..1]) == 1;
    CountersConserve(lag, es);
  }

  /** An inverted range drops nothing, and counts nevertheless. */
  lemma InvertedOvershoots(lag: nat, start: nat, end: nat)
    requires end < start
    ensures After(Start(lag, 0), [Range(start, end)]) == Start(lag, 0) && Tally([Range(start, end)]) == 1
  {
    assert [Range(start, end)][..0] == [];
    RangeIgnored(Start(lag, 0), start, end);
  }

  /** Accepted and lost numbers never outgrow their counters. */
  lemma CountersFit(r: Run)
    requires Explained(r) && Representable(r) && r.t.high <= U64_MAX
    ensures |r.accepted| + |r.lost| <= U64_MAX
  {
    var l := Elements(r.lost);
    IncreasingSize(r.lost);
    assert r.accepted !! l;
    assert |r.accepted + l| == |r.accepted| + |l|;
    var room := Interval(0, U64_MAX + 1) - {r.t.committed};
    assert r.t.committed !in r.Covered();
    assert r.accepted + l <= room;
    SubsetSize(r.accepted + l, room);
  }

  ghost function RangesOf(es: seq<Event>): seq<Event> {
    if es == [] then []
    else RangesOf(es[..|es| - 1]) + (if es[|es| - 1].Range? then [es[|es| - 1]] else [])
  }

  ghost function AsEvents(ranges: seq<DroppedRange>): seq<Event> {
    seq(|ranges|, i requires 0 <= i < |ranges| => Range(ranges[i].rangeStart, ranges[i].rangeEnd))
  }

  ghost function Accepts(r: Run, es: seq<Event>): nat {
    if es == [] then 0
    else
      var last := Step(After(r, es[..|es| - 1]).t, es[|es| - 1]).1;
      Accepts(r, es[..|es| - 1]) + (if last.RecordReply? && last.outcome == New then 1 else 0)
  }

  lemma AcceptsAppend(r: Run, es: seq<Event>, e: Event)
    ensures var last := Step(After(r, es).t, e).1;
            Accepts(r, es + [e]) == Accepts(r, es) + (if last.RecordReply? && last.outcome == New then 1 else 0)
  {
    assert (es + [e])[..|es|] == es;
  }

  /** No number is accepted twice. */
  lemma {:induction false} AcceptsOnce(r: Run, es: seq<Event>)
    requires Explained(r)
    ensures |After(r, es).accepted| == |r.accepted| + Accepts(r, es)
  {
    if es != [] {
      var before, e := es[..|es| - 1], es[|es| - 1];
      AcceptsOnce(r, before);
      Reachable(r, before);
      var q := After(r, before);
      if e.Record? {
        RecordOutcome(q, e.num);
        assert Step(q.t, e).1.outcome == New ==> e.num !in q.accepted;
      }
      assert q.accepted + {} == q.accepted;
    }
  }

  /** The counters and the list of ranges are those of the history of the calls. */
  ghost predicate Counts(lag: nat, calls: seq<Event>, r: Run, accepted: nat, lost: nat, filtered: nat,
                         ranges: seq<DroppedRange>)
  {
    && r == After(Start(lag, 0), calls) && (forall e :: e in calls ==> Encodable(e))
    && accepted == Accepts(Start(lag, 0), calls) && lost == |r.lost| && filtered == Tally(calls) <= U64_MAX
    && AsEvents(ranges) == RangesOf(calls)
  }

  lemma AppendTally(es: seq<Event>, e: Event)
    ensures Tally(es + [e]) == Tally(es) + Weight(e)
    ensures RangesOf(es + [e]) == RangesOf(es) + (if e.Range? then [e] else [])
  {
    assert (es + [e])[..|es|] == es;
  }

  lemma CountRecord(lag: nat, calls: seq<Event>, r: Run, accepted: nat, lost: nat, filtered: nat,
                    ranges: seq<DroppedRange>, num: nat, outcome: Outcome, l: seq<nat>)
    requires Counts(lag, calls, r, accepted, lost, filtered, ranges) && Explained(r) && num <= U64_MAX
    requires Step(r.t, Record(num)).1 == RecordReply(outcome, l)
    ensures Counts(lag, calls + [Record(num)], Next(r, Record(num)),
                   if outcome == New then accepted + 1 else accepted, lost + |l|, filtered, ranges)
    ensures outcome == Duplicate ==> l == []
    ensures outcome == New <==> num !in r.accepted && num !in r.dropped && num !in r.lost
  {
    AppendEvent(Start(lag, 0), calls, Record(num));
    AppendTally(calls, Record(num));
    AcceptsAppend(Start(lag, 0), calls, Record(num));
    KeepsLag(Start(lag, 0), calls);
    RecordOutcome(r, num);
  }

  lemma CountRange(lag: nat, calls: seq<Event>, r: Run, accepted: nat, lost: nat, filtered: nat,
                   ranges: seq<DroppedRange>, range: DroppedRange, l: seq<nat>, e: Event)
    requires Counts(lag, calls, r, accepted, lost, filtered, ranges) && Explained(r)
    requires e == Range(range.rangeStart, range.rangeEnd) && Encodable(e) && filtered + range.Count() <= U64_MAX
    requires Step(r.t, e).1 == RangeReply(l)
    ensures Counts(lag, calls + [e], Next(r, e), accepted, lost + |l|, filtered + range.Count(), ranges + [range])
  {
    AppendEvent(Start(lag, 0), calls, e);
    AppendTally(calls, e);
    AcceptsAppend(Start(lag, 0), calls, e);
    assert AsEvents(ranges + [range]) == AsEvents(ranges) + [e];
  }

  class QualityChannel {
    const agentId: string
    const watermark: WatermarkTracker
    var lostCount: nat
    var filteredCount: nat
    var acceptedCount: nat
    var droppedRanges: seq<DroppedRange>
    ghost var calls: seq<Event>

    ghost predicate Valid()
      reads this, watermark
    {
      && watermark.Valid()
      && Counts(watermark.lag, calls, watermark.run, acceptedCount, lostCount, filteredCount, droppedRanges)
    }

    /** The report holds the counters and the ranges as they are now. */
    ghost predicate Describes(report: StreamLossReport)
      reads this
    {
      report == StreamLossReport(agentId, lostCount, filteredCount, acceptedCount, droppedRanges)
    }

    constructor (agentId: string, lag: nat)
      requires lag <= U64_MAX
      ensures Valid() && fresh(watermark) && calls == [] && watermark.lag == lag && this.agentId == agentId
    {
      this.agentId := agentId;
      watermark := new WatermarkTracker(lag);
      lostCount, filteredCount, acceptedCount, droppedRanges, calls := 0, 0, 0, [], [];
    }

    method OnRecord(num: nat) returns (verdict: Acceptance)
      requires Valid() && num <= U64_MAX && Representable(Next(watermark.run, Record(num)))
      modifies this, watermark
      ensures Valid() && calls == old(calls) + [Record(num)] && droppedRanges == old(droppedRanges)
      ensures var r := old(watermark.run);
              verdict == Accepted <==> num !in r.accepted && num !in r.dropped && num !in r.lost
    {
      ghost var before := watermark.run;
      var outcome, lost := watermark.Observe(num);
      ghost var d := watermark.Fields();
      CountRecord(watermark.lag, calls, before, acceptedCount, lostCount, filteredCount,
        droppedRanges, num, outcome, lost);
      calls := calls + [Record(num)];
      assert watermark.Fields() == d;
      if outcome == Duplicate {
        return Rejected;
      }
      lostCount := lostCount + |lost|;
      acceptedCount := acceptedCount + 1;
      assert watermark.Fields() == d;
      return Accepted;
    }

    method OnDroppedRange(rangeStart: nat, rangeEnd: nat, dropReason: string)
      requires Valid() && rangeStart <= U64_MAX && rangeEnd <= U64_MAX
      requires Representable(Next(watermark.run, Range(rangeStart, rangeEnd)))
      requires filteredCount + DroppedRange(rangeStart, rangeEnd, dropReason).Count() <= U64_MAX
      modifies this, watermark
      ensures Valid() && calls == old(calls) + [Range(rangeStart, rangeEnd)]
      ensures droppedRanges == old(droppedRanges) + [DroppedRange(rangeStart, rangeEnd, dropReason)]
    {
      var range := DroppedRange(rangeStart, rangeEnd, dropReason);
      ghost var before, e := watermark.run, Range(rangeStart, rangeEnd);
      filteredCount := filteredCount + range.Count();
      var lost := watermark.CommitRange(rangeStart, rangeEnd);
      ghost var d := watermark.Fields();
      CountRange(watermark.lag, calls, before, acceptedCount, lostCount, old(filteredCount),
        droppedRanges, range, lost, e);
      lostCount := lostCount + |lost|;
      droppedRanges := droppedRanges + [range];
      calls := calls + [e];
      assert Counts(watermark.lag, calls, watermark.run, acceptedCount, lostCount, filteredCount, droppedRanges);
      assert watermark.Fields() == d;
    }

    method Report() returns (report: StreamLossReport)
      requires Valid()
      ensures Describes(report)
      ensures report.agentId == agentId && report.droppedRanges == droppedRanges
      ensures report.acceptedCount == |watermark.run.accepted| && report.lostCount == |watermark.run.lost|
      ensures report.filteredCount == Tally(calls)
      ensures report.acceptedCount + report.lostCount <= U64_MAX && report.filteredCount <= U64_MAX
    {
      report := StreamLossReport(agentId, lostCount, filteredCount, acceptedCount, droppedRanges);
      StartExplained(watermark.lag, 0);
      AcceptsOnce(Start(watermark.lag, 0), calls);
      CountersFit(watermark.run);
    }
  }

  lemma LeaptNotStranded(r: Run, s: nat)
    requires Leapt(r, s)
    ensures s in r.dropped && !Stranded(r, s)
  {
    var x: nat :| r.origin <= x < s && x !in r.accepted && forall y: nat :: x <= y <= s ==> y in r.dropped;
    assert SameBlock(r, s, x);
  }

  lemma LeftBehindSize(r: Run)
    requires Explained(r)
    ensures LeaptBelow(r) <= SettledTwice(r) && StrandedBelow(r) <= SettledTwice(r) && LeaptBelow(r) !! StrandedBelow(r)
    ensures |LeaptBelow(r)| + |StrandedBelow(r)| <= |SettledTwice(r)|
    ensures |LeaptBelow(r)| + |StrandedBelow(r)| == |SettledTwice(r)| <==>
            SettledTwice(r) == LeaptBelow(r) + StrandedBelow(r)
  {
    forall s | s in LeaptBelow(r) ensures s in SettledTwice(r) && !Stranded(r, s) {
      LeaptNotStranded(r, s);
    }
    forall s | s in StrandedBelow(r) ensures s in SettledTwice(r) {
      assert SameBlock(r, s, s);
    }
    var left := LeaptBelow(r) + StrandedBelow(r);
    assert |left| == |LeaptBelow(r)| + |StrandedBelow(r)|;
    SubsetSize(left, SettledTwice(r));
  }

  /** The counters of a channel against what it stores: never less than the settled prefix, the pending
      records and the length of the pending ranges together, and the same exactly when every range was well
      formed, in time and new, and whatever was both accepted and dropped is still stored. */
  lemma ChannelConserves(channel: QualityChannel)
    requires channel.Valid()
    ensures var w := channel.watermark; var r := w.run;
            var counted := channel.acceptedCount + channel.lostCount + channel.filteredCount;
            var stored := w.committed + |w.observed| + TotalLength(w.droppedRanges);
            && stored <= counted
            && (stored == counted <==>
                 AllClean(Start(w.lag, 0), channel.calls) && SettledTwice(r) == LeaptBelow(r) + StrandedBelow(r))
            && (AllClean(Start(w.lag, 0), channel.calls) && r.accepted !! r.dropped ==> stored == counted)
  {
    var w := channel.watermark;
    var r0 := Start(w.lag, 0);
    StartExplained(w.lag, 0);
    Reachable(r0, channel.calls);
    KeepsLag(r0, channel.calls);
    AcceptsOnce(r0, channel.calls);
    TallyExact(r0, channel.calls);
    Conservation(w.run);
    RememberedSize(w.run, w.committed, w.observed);
    StoredLength(w.run, w.Fields());
    LeftBehindSize(w.run);
    assert w.run.accepted !! w.run.dropped ==> SettledTwice(w.run) == {};
  }
}
