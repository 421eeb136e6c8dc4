/** Locating losses between two hops, and the delivery ledger. */
module Reconcile {
  import opened Prelude
  import opened PerSeqTracker
  import opened DeliveryRuns
  import opened LossTheory
  import opened Watermark
  import opened Channel

  datatype HopLosses = HopLosses(firstSegment: nat, cumulative: nat)
  {
    function SecondSegment(): nat {
      SatSub(cumulative, firstSegment)
    }
  }

  datatype DeliveryLedger = DeliveryLedger(produced: nat, stored: nat, filtered: nat,
    sourceDropped: nat, silentLoss: nat)
  {
    predicate Balanced() {
      produced == SatAdd(SatAdd(SatAdd(stored, filtered), sourceDropped), silentLoss)
    }
  }

  /** Numbers below `n` that passed the gateway, were not dropped on purpose, and did not reach the center. */
  ghost function LostBetween(gateway: Run, center: Run, n: nat): set<nat> {
    Below(gateway.accepted - center.accepted - gateway.dropped, n)
  }

  lemma LossesBelow(gateway: Run, center: Run, n: nat)
    requires Explained(gateway) && Explained(center) && gateway.origin == center.origin
    requires n <= gateway.t.committed && n <= center.t.committed
    requires center.accepted <= gateway.accepted
    requires Below(gateway.dropped, n) == Below(center.dropped, n)
    ensures Below(Elements(gateway.lost), n) <= Below(Elements(center.lost), n)
    ensures Below(Elements(center.lost), n) == Below(Elements(gateway.lost), n) + LostBetween(gateway, center, n)
    ensures Below(Elements(gateway.lost), n) !! LostBetween(gateway, center, n)
  {
    forall s: nat | s < n ensures s in gateway.dropped <==> s in center.dropped {
      assert s in gateway.dropped <==> s in Below(gateway.dropped, n);
      assert s in center.dropped <==> s in Below(center.dropped, n);
    }
    forall s: nat | s < n
      ensures s in center.lost <==> s in gateway.lost || s in LostBetween(gateway, center, n)
    {
      assert s in center.lost <==> center.origin <= s && s !in center.Covered();
      assert s in gateway.lost <==> gateway.origin <= s && s !in gateway.Covered();
    }
  }

  /** What the difference of the two loss counters is, whatever prefix each hop has settled. */
  lemma SecondSegmentExactly(gateway: Run, center: Run, n: nat)
    requires Explained(gateway) && Explained(center) && gateway.origin == center.origin
    requires n <= gateway.t.committed && n <= center.t.committed
    requires center.accepted <= gateway.accepted
    requires Below(gateway.dropped, n) == Below(center.dropped, n)
    ensures HopLosses(|gateway.lost|, |center.lost|).SecondSegment() ==
            SatSub(|LostBetween(gateway, center, n)| + |From(Elements(center.lost), n)|,
              |From(Elements(gateway.lost), n)|)
  {
    LossesBelow(gateway, center, n);
    IncreasingSize(gateway.lost);
    IncreasingSize(center.lost);
    SplitSize(Elements(gateway.lost), n);
    SplitSize(Elements(center.lost), n);
    assert |Below(Elements(center.lost), n)| == |Below(Elements(gateway.lost), n)| + |LostBetween(gateway, center, n)|;
  }

  lemma HopExplained(lag: nat, es: seq<Event>)
    ensures Explained(After(Start(lag, 0), es)) && After(Start(lag, 0), es).origin == 0
  {
    StartExplained(lag, 0);
    Reachable(Start(lag, 0), es);
    KeepsLag(Start(lag, 0), es);
  }

  lemma AllLossesBelow(r: Run)
    requires Explained(r)
    ensures From(Elements(r.lost), r.t.committed) == {} && Below(Elements(r.lost), r.t.committed) == Elements(r.lost)
  {
  }

  lemma {:induction false} AcceptedWereOffered(r: Run, es: seq<Event>)
    requires r.accepted == {}
    ensures forall s :: s in After(r, es).accepted ==> Record(s) in es
  {
    if es != [] {
      AcceptedWereOffered(r, es[..|es| - 1]);
    }
  }

  /** Two hops that have settled the same prefix: the difference is the number of records that got
      lost between them, and everything the gateway misses, the center misses. */
  lemma SecondSegmentLocates(lagG: nat, lagC: nat, atGateway: seq<Event>, atCenter: seq<Event>)
    requires var g, c := After(Start(lagG, 0), atGateway), After(Start(lagC, 0), atCenter);
             && g.t.committed == c.t.committed && Below(g.dropped, g.t.committed) == Below(c.dropped, c.t.committed)
             && forall e :: e in atCenter && e.Record? ==> e.num in g.accepted
    ensures var g, c := After(Start(lagG, 0), atGateway), After(Start(lagC, 0), atCenter);
            && HopLosses(|g.lost|, |c.lost|).SecondSegment() == |LostBetween(g, c, g.t.committed)|
            && Elements(g.lost) <= Elements(c.lost)
  {
    var g, c := After(Start(lagG, 0), atGateway), After(Start(lagC, 0), atCenter);
    HopExplained(lagG, atGateway);
    HopExplained(lagC, atCenter);
    AcceptedWereOffered(Start(lagC, 0), atCenter);
    var n := g.t.committed;
    SecondSegmentExactly(g, c, n);
    LossesBelow(g, c, n);
    AllLossesBelow(g);
    AllLossesBelow(c);
  }

  /** Short of the top of the integer type, the saturating check is the plain identity; there, the sum may
      be larger. */
  lemma BalancedExactly(l: DeliveryLedger)
    requires l.produced <= U64_MAX
    ensures l.produced < U64_MAX ==>
              (l.Balanced() <==> l.produced == l.stored + l.filtered + l.sourceDropped + l.silentLoss)
    ensures l.produced == U64_MAX ==>
              (l.Balanced() <==> l.produced <= l.stored + l.filtered + l.sourceDropped + l.silentLoss)
  {
  }

  /** With everything settled, the counts of a run balance exactly when every reported range was well formed,
      in time and new, and no record was also dropped. */
  lemma LedgerOfRun(lag: nat, es: seq<Event>)
    requires (forall e :: e in es ==> Encodable(e)) && After(Start(lag, 0), es).t.committed < U64_MAX
    requires var t := After(Start(lag, 0), es).t; t.seen == {} && t.skipped == {}
    ensures var r := After(Start(lag, 0), es);
            DeliveryLedger(r.t.committed, |r.accepted|, Tally(es), 0, |r.lost|).Balanced() <==>
            AllClean(Start(lag, 0), es) && r.accepted !! r.dropped
  {
    var r := After(Start(lag, 0), es);
    CountersConserve(lag, es);
    BalancedExactly(DeliveryLedger(r.t.committed, |r.accepted|, Tally(es), 0, |r.lost|));
    HopExplained(lag, es);
    assert forall s :: s in r.accepted ==> s < r.t.committed || s in r.t.seen;
    assert r.accepted * r.dropped == SettledTwice(r);
  }

  /** The ledger drawn from a report: what was accepted was stored, and what was lost is the silent loss. */
  function LedgerOf(produced: nat, report: StreamLossReport): DeliveryLedger {
    DeliveryLedger(produced, report.acceptedCount, report.filteredCount, 0, report.lostCount)
  }

  /** For a channel that has settled all numbers produced, the ledger of its report balances under exactly
      that condition on its calls. */
  lemma LedgerOfReport(channel: QualityChannel, report: StreamLossReport, produced: nat)
    requires channel.Valid() && channel.Describes(report)
    requires var t := channel.watermark.run.t; t.seen == {} && t.skipped == {} && produced == t.committed < U64_MAX
    ensures LedgerOf(produced, report).Balanced() <==>
            && AllClean(Start(channel.watermark.lag, 0), channel.calls)
            && channel.watermark.run.accepted !! channel.watermark.run.dropped
  {
    var lag := channel.watermark.lag;
    StartExplained(lag, 0);
    AcceptsOnce(Start(lag, 0), channel.calls);
    LedgerOfRun(lag, channel.calls);
  }
}
