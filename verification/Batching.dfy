/** Reporting a range in two pieces or at once: exactly when the difference shows in what stays stored. */
module Batching {
  import opened Prelude
  import opened PerSeqTracker
  import opened DeliveryRuns
  import opened LossTheory
  import opened RangeMap
  import opened LeftBehind
  import opened Watermark

  // ---- What can be known before the call ----

  /** The pending records of the second piece that are settled along with the first one. They are counted as
      dropped if the range comes at once, and not if it comes in two. */
  ghost function SettledEarly(t: Tracker, a: nat, m: nat, b: nat): set<nat> {
    set d | d in t.seen && d !in t.skipped && m < d <= b && a <= t.committed <= m
            && forall y: nat :: m < y < d ==> y in t.seen || y in t.skipped
  }

  /** The whole range makes one block of all numbers from the prefix to `s`, which the pieces tear apart. */
  ghost predicate Joined(t: Tracker, a: nat, m: nat, b: nat, s: nat) {
    && (exists d :: d in SettledEarly(t, a, m, b) && d <= s)
    && forall y: nat :: m < y <= s ==> y in t.skipped || (y in t.seen && y <= b)
  }

  /** The records left behind only if the range comes at once. */
  ghost function LeaptOnlyAtOnce(r: Run, a: nat, m: nat, b: nat): set<nat> {
    set s | s in r.t.seen && Joined(r.t, a, m, b, s) && !Leapt(r, s)
  }

  /** The dropped numbers whose ranges stay only if the range comes in two: their blocks were all seen, and
      the second piece does not adjoin them. */
  ghost function StrandedOnlyInPieces(r: Run, a: nat, m: nat, b: nat): set<nat> {
    set s | s in r.t.skipped && Joined(r.t, a, m, b, s) && Stranded(r, s)
            && forall z: nat :: s < z <= b && (forall y: nat :: s <= y < z ==> y in r.t.skipped) ==>
                 z in r.t.seen || z in r.t.skipped
  }

  // ---- What the calls do ----

  ghost predicate Pieces(r: Run, a: nat, m: nat, b: nat, first: Run, two: Run, one: Run) {
    && Explained(r) && a <= m < b && first == Next(r, Range(a, m))
    && two == Next(first, Range(m + 1, b)) && one == Next(r, Range(a, b))
  }

  /** What the pieces do, without the calls. */
  ghost predicate Apart(r: Run, a: nat, m: nat, b: nat, first: Run, two: Run, one: Run) {
    && Explained(r) && Explained(first) && a <= m < b && r.t.committed <= first.t.committed <= two.t.committed
    && first.accepted == two.accepted == one.accepted == r.accepted && two.t == one.t && two.lost == one.lost
    && first.t.lag == r.t.lag && first.origin == two.origin == one.origin == r.origin
    && (r.t.committed <= m ==> first.t.high == Max(r.t.high, m))
    && (m < r.t.committed ==> first.t.committed == r.t.committed)
    && (forall s: nat :: s in first.dropped <==> s in r.dropped || (a <= s <= m && r.t.committed <= s))
    && (forall s: nat :: s in two.dropped <==> s in first.dropped || (m < s <= b && first.t.committed <= s))
    && (forall s: nat :: s in one.dropped <==> s in r.dropped || (a <= s <= b && r.t.committed <= s))
  }

  lemma EffectiveAt(t: Tracker, start: nat, end: nat)
    requires start <= end
    ensures forall s: nat :: s in Effective(t, Range(start, end)) <==> start <= s <= end && t.committed <= s
  {
  }

  /** What one range does, without the call. */
  ghost predicate Reported(r: Run, start: nat, end: nat, n: Run) {
    && Explained(n) && n.t.lag == r.t.lag && n.origin == r.origin && r.t.committed <= n.t.committed
    && n.accepted == r.accepted && (r.t.committed <= end ==> n.t.high == Max(r.t.high, end))
    && forall s: nat :: s in n.dropped <==> s in r.dropped || (start <= s <= end && r.t.committed <= s)
  }

  lemma RangeReported(r: Run, start: nat, end: nat, n: Run)
    requires Explained(r) && n == Next(r, Range(start, end)) && start <= end
    ensures Reported(r, start, end, n) && (end < r.t.committed ==> n == r)
  {
    RangeSound(r, start, end);
    EffectiveAt(r.t, start, end);
    if end < r.t.committed {
      RangeIgnored(r, start, end);
    }
  }

  lemma ReportedApart(r: Run, a: nat, m: nat, b: nat, first: Run, two: Run, one: Run)
    requires Explained(r) && a <= m < b && two.t == one.t && two.lost == one.lost
    requires Reported(r, a, m, first) && Reported(first, m + 1, b, two) && Reported(r, a, b, one)
    requires m < r.t.committed ==> first == r
    ensures Apart(r, a, m, b, first, two, one)
  {
  }

  lemma PiecesApart(r: Run, a: nat, m: nat, b: nat, first: Run, two: Run, one: Run)
    requires Pieces(r, a, m, b, first, two, one)
    ensures Apart(r, a, m, b, first, two, one)
  {
    BatchingInvisible(r, a, m, b);
    RangeReported(r, a, m, first);
    RangeReported(first, m + 1, b, two);
    RangeReported(r, a, b, one);
    ReportedApart(r, a, m, b, first, two, one);
  }

  lemma PassedWasCovered(r: Run, a: nat, m: nat, b: nat, first: Run, two: Run, one: Run, s: nat)
    requires Apart(r, a, m, b, first, two, one) && m < s && r.t.committed <= s < first.t.committed
    ensures s in r.accepted || s in r.dropped
  {
    assert s in first.Covered() || s + first.t.lag < first.t.high;
    assert r.t.committed !in r.Covered() && r.t.high <= r.t.committed + r.t.lag;
  }

  lemma PendingIsHistory(r: Run)
    requires Explained(r)
    ensures r.t.committed !in r.Covered() && r.t.high <= r.t.committed + r.t.lag
    ensures forall s: nat :: r.t.committed <= s ==>
      (s in r.t.seen <==> s in r.accepted) && (s in r.t.skipped <==> s in r.dropped)
    ensures forall s: nat :: s in r.t.seen || s in r.t.skipped ==> r.t.committed < s
  {
  }

  /** What the first piece settles beyond itself, from the state before. */
  lemma FirstPasses(r: Run, a: nat, m: nat, b: nat, first: Run, two: Run, one: Run, s: nat)
    requires Apart(r, a, m, b, first, two, one) && a <= r.t.committed <= m < s
    requires forall y: nat :: m < y <= s ==> y in r.t.seen || y in r.t.skipped
    ensures s < first.t.committed
  {
    PendingIsHistory(r);
    assert first.t.committed !in first.Covered();
    forall y: nat | r.t.committed <= y <= s ensures y in first.Covered() {
      assert m < y ==> y in r.accepted || y in r.dropped;
    }
  }

  lemma EarlyExactly(r: Run, a: nat, m: nat, b: nat, first: Run, two: Run, one: Run, d: nat)
    requires Apart(r, a, m, b, first, two, one)
    ensures d in SettledEarly(r.t, a, m, b) <==>
            d in r.t.seen && d !in r.t.skipped && m < d <= b && d < first.t.committed
  {
    PendingIsHistory(r);
    if d in SettledEarly(r.t, a, m, b) {
      FirstPasses(r, a, m, b, first, two, one, d);
    } else if d in r.t.seen && m < d < first.t.committed {
      assert r.t.committed < a ==> r.t.committed !in first.Covered();
      forall y: nat | m < y < d && r.t.committed <= y ensures y in r.t.seen || y in r.t.skipped {
        PassedWasCovered(r, a, m, b, first, two, one, y);
      }
    }
  }

  /** The one difference in the history. */
  lemma DroppedApart(r: Run, a: nat, m: nat, b: nat, first: Run, two: Run, one: Run, s: nat)
    requires Apart(r, a, m, b, first, two, one)
    ensures s in one.dropped <==> s in two.dropped || s in SettledEarly(r.t, a, m, b)
    ensures !(s in two.dropped && s in SettledEarly(r.t, a, m, b))
  {
    PendingIsHistory(r);
    EarlyExactly(r, a, m, b, first, two, one, s);
    if m < s && r.t.committed <= s < first.t.committed {
      PassedWasCovered(r, a, m, b, first, two, one, s);
    }
  }

  lemma SubBlock(r: Run, q: Run, x: nat, y: nat)
    requires forall s: nat :: s in r.dropped ==> s in q.dropped
    ensures SameBlock(r, x, y) ==> SameBlock(q, x, y)
  {
  }

  lemma NoneEarlyBetween(r: Run, a: nat, m: nat, b: nat, first: Run, two: Run, one: Run, x: nat, s: nat)
    requires Apart(r, a, m, b, first, two, one) && SameBlock(one, x, s)
    requires forall d :: d in SettledEarly(r.t, a, m, b) ==> !(x <= d <= s || s <= d <= x)
    ensures SameBlock(two, x, s)
  {
    forall z: nat | x <= z <= s || s <= z <= x ensures z in two.dropped {
      DroppedApart(r, a, m, b, first, two, one, z);
    }
  }

  /** Where the prefix was, the whole range and the first piece hold an open number. */
  lemma OpenInBoth(r: Run, a: nat, m: nat, b: nat, first: Run, two: Run, one: Run, d: nat)
    requires Apart(r, a, m, b, first, two, one) && d in SettledEarly(r.t, a, m, b)
    ensures r.t.committed !in r.accepted && SameBlock(two, r.t.committed, m) && a <= r.t.committed <= m
    ensures first.t.committed !in r.accepted && m < first.t.committed
    ensures first.t.committed in one.dropped ==> first.t.committed in two.dropped
  {
    PendingIsHistory(r);
    EarlyExactly(r, a, m, b, first, two, one, d);
    assert first.t.committed !in first.Covered();
    DroppedApart(r, a, m, b, first, two, one, first.t.committed);
    EarlyExactly(r, a, m, b, first, two, one, first.t.committed);
  }

  /** Between the first piece and the prefix it settles, the pieces drop nothing new. */
  lemma TwoBetween(r: Run, a: nat, m: nat, b: nat, first: Run, two: Run, one: Run)
    requires Apart(r, a, m, b, first, two, one)
    ensures forall s: nat :: m < s < first.t.committed ==> (s in two.dropped <==> s in r.dropped)
    ensures forall s: nat :: s in r.dropped ==> s in two.dropped
    ensures forall s: nat :: s in two.dropped ==> s in one.dropped
  {
    forall s: nat | s in two.dropped ensures s in one.dropped {
      DroppedApart(r, a, m, b, first, two, one, s);
    }
  }

  /** A joined number lies in one block with the open one if the range comes at once. */
  lemma JoinedAtOnce(r: Run, a: nat, m: nat, b: nat, first: Run, two: Run, one: Run, s: nat)
    requires Apart(r, a, m, b, first, two, one) && Joined(r.t, a, m, b, s)
    ensures m < s < first.t.committed && SameBlock(one, r.t.committed, s)
  {
    PendingIsHistory(r);
    FirstPasses(r, a, m, b, first, two, one, s);
    forall y: nat | r.t.committed <= y <= s ensures y in one.dropped {
      assert m < y ==> y in r.dropped || a <= y <= b;
    }
  }

  // ---- Records left behind ----

  /** Coming from an early record, a block of the whole range reaches past the prefix the first piece settled
      only as far as a block of the pieces does. */
  lemma BeyondFirst(r: Run, a: nat, m: nat, b: nat, first: Run, two: Run, one: Run, d: nat, s: nat)
    requires Apart(r, a, m, b, first, two, one) && d in SettledEarly(r.t, a, m, b) && SameBlock(one, d, s)
    ensures first.t.committed <= s ==> SameBlock(two, first.t.committed, s)
  {
    EarlyExactly(r, a, m, b, first, two, one, d);
    if first.t.committed <= s {
      forall e | e in SettledEarly(r.t, a, m, b) ensures e < first.t.committed {
        EarlyExactly(r, a, m, b, first, two, one, e);
      }
      NoneEarlyBetween(r, a, m, b, first, two, one, first.t.committed, s);
    }
  }

  lemma LeaptInPieces(r: Run, a: nat, m: nat, b: nat, first: Run, two: Run, one: Run, s: nat)
    requires Apart(r, a, m, b, first, two, one) && Joined(r.t, a, m, b, s)
    ensures Leapt(two, s) ==> Leapt(r, s)
  {
    if x: nat :| two.origin <= x < s && x !in two.accepted && forall y: nat :: x <= y <= s ==> y in two.dropped {
      var d :| d in SettledEarly(r.t, a, m, b) && d <= s;
      DroppedApart(r, a, m, b, first, two, one, d);
      JoinedAtOnce(r, a, m, b, first, two, one, s);
      TwoBetween(r, a, m, b, first, two, one);
      assert d < x && forall y: nat :: x <= y <= s ==> y in r.dropped;
    }
  }

  lemma LeaptInBoth(r: Run, a: nat, m: nat, b: nat, first: Run, two: Run, one: Run, s: nat)
    requires Apart(r, a, m, b, first, two, one)
    ensures Leapt(r, s) ==> Leapt(two, s)
    ensures Leapt(two, s) ==> Leapt(one, s)
  {
    TwoBetween(r, a, m, b, first, two, one);
    if x: nat :| r.origin <= x < s && x !in r.accepted && forall y: nat :: x <= y <= s ==> y in r.dropped {
      assert x !in two.accepted && forall y: nat :: x <= y <= s ==> y in two.dropped;
    }
    if x: nat :| two.origin <= x < s && x !in two.accepted && forall y: nat :: x <= y <= s ==> y in two.dropped {
      assert x !in one.accepted && forall y: nat :: x <= y <= s ==> y in one.dropped;
    }
  }

  lemma JoinedIsLeapt(r: Run, a: nat, m: nat, b: nat, first: Run, two: Run, one: Run, s: nat)
    requires Apart(r, a, m, b, first, two, one) && Joined(r.t, a, m, b, s)
    ensures Leapt(one, s)
  {
    PendingIsHistory(r);
    JoinedAtOnce(r, a, m, b, first, two, one, s);
    var d :| d in SettledEarly(r.t, a, m, b) && d <= s;
    var c := r.t.committed;
    assert one.origin <= c < s && c !in one.accepted && forall y: nat :: c <= y <= s ==> y in one.dropped;
  }

  /** Between the first piece and the prefix it settles, a block with an early record is joined. */
  lemma BlockIsJoined(r: Run, a: nat, m: nat, b: nat, first: Run, two: Run, one: Run, d: nat, s: nat)
    requires Apart(r, a, m, b, first, two, one) && d in SettledEarly(r.t, a, m, b)
    requires SameBlock(one, d, s) && d <= s < first.t.committed
    ensures Joined(r.t, a, m, b, s)
  {
    PendingIsHistory(r);
    forall y: nat | m < y <= s ensures y in r.t.skipped || (y in r.t.seen && y <= b) {
      PassedWasCovered(r, a, m, b, first, two, one, y);
      assert b < y ==> y in one.dropped;
    }
  }

  lemma EarlyInLeap(r: Run, a: nat, m: nat, b: nat, first: Run, two: Run, one: Run, s: nat) returns (d: nat)
    requires Apart(r, a, m, b, first, two, one) && Leapt(one, s) && !Leapt(two, s)
    ensures d in SettledEarly(r.t, a, m, b) && d <= s && SameBlock(one, d, s)
  {
    var x: nat :| one.origin <= x < s && x !in one.accepted && forall y: nat :: x <= y <= s ==> y in one.dropped;
    if forall e :: e in SettledEarly(r.t, a, m, b) ==> !(x <= e <= s) {
      NoneEarlyBetween(r, a, m, b, first, two, one, x, s);
    }
    d :| d in SettledEarly(r.t, a, m, b) && x <= d <= s;
  }

  lemma LeaptFrom(r: Run, x: nat, s: nat)
    requires r.origin <= x < s && x !in r.accepted && SameBlock(r, x, s)
    ensures Leapt(r, s)
  {
  }

  lemma LeaptNotBeyond(r: Run, a: nat, m: nat, b: nat, first: Run, two: Run, one: Run, d: nat, s: nat)
    requires Apart(r, a, m, b, first, two, one) && d in SettledEarly(r.t, a, m, b) && SameBlock(one, d, s)
    requires s in r.accepted && !Leapt(two, s)
    ensures s < first.t.committed
  {
    OpenInBoth(r, a, m, b, first, two, one, d);
    BeyondFirst(r, a, m, b, first, two, one, d, s);
    if first.t.committed < s {
      LeaptFrom(two, first.t.committed, s);
    }
  }

  lemma LeaptOnlyJoined(r: Run, a: nat, m: nat, b: nat, first: Run, two: Run, one: Run, s: nat)
    requires Apart(r, a, m, b, first, two, one) && s in r.accepted && Leapt(one, s) && !Leapt(two, s)
    ensures s in LeaptOnlyAtOnce(r, a, m, b)
  {
    var d := EarlyInLeap(r, a, m, b, first, two, one, s);
    LeaptNotBeyond(r, a, m, b, first, two, one, d, s);
    LeaptInBoth(r, a, m, b, first, two, one, s);
    BlockIsJoined(r, a, m, b, first, two, one, d, s);
    assert s in r.t.seen by {
      PendingIsHistory(r);
    }
  }

  lemma LeaptApart(r: Run, a: nat, m: nat, b: nat, first: Run, two: Run, one: Run)
    requires Apart(r, a, m, b, first, two, one)
    ensures LeaptBelow(two) <= LeaptBelow(one)
    ensures LeaptBelow(one) - LeaptBelow(two) == LeaptOnlyAtOnce(r, a, m, b)
  {
    PendingIsHistory(r);
    forall s ensures Leapt(two, s) ==> Leapt(one, s) {
      LeaptInBoth(r, a, m, b, first, two, one, s);
    }
    forall s | s in LeaptOnlyAtOnce(r, a, m, b) ensures s in LeaptBelow(one) && !Leapt(two, s) {
      JoinedAtOnce(r, a, m, b, first, two, one, s);
      JoinedIsLeapt(r, a, m, b, first, two, one, s);
      LeaptInPieces(r, a, m, b, first, two, one, s);
    }
    forall s | s in LeaptBelow(one) - LeaptBelow(two) ensures s in LeaptOnlyAtOnce(r, a, m, b) {
      LeaptOnlyJoined(r, a, m, b, first, two, one, s);
    }
  }

  // ---- Ranges left behind ----

  lemma StrandedInBoth(r: Run, a: nat, m: nat, b: nat, first: Run, two: Run, one: Run, s: nat)
    requires Apart(r, a, m, b, first, two, one) && Stranded(one, s)
    ensures Stranded(two, s)
  {
    TwoBetween(r, a, m, b, first, two, one);
    DroppedApart(r, a, m, b, first, two, one, s);
    assert s !in SettledEarly(r.t, a, m, b) by {
      if s in SettledEarly(r.t, a, m, b) {
        OpenInBoth(r, a, m, b, first, two, one, s);
        assert SameBlock(one, s, r.t.committed);
      }
    }
    forall y: nat | SameBlock(two, s, y) ensures y in two.accepted {
      SubBlock(two, one, s, y);
    }
  }

  /** A block of the pieces that the whole range would have joined is an old block. */
  lemma OldBlock(r: Run, a: nat, m: nat, b: nat, first: Run, two: Run, one: Run, s: nat, y: nat)
    requires Apart(r, a, m, b, first, two, one) && s in StrandedOnlyInPieces(r, a, m, b) && SameBlock(two, s, y)
    ensures SameBlock(r, s, y)
  {
    PendingIsHistory(r);
    JoinedAtOnce(r, a, m, b, first, two, one, s);
    TwoBetween(r, a, m, b, first, two, one);
    var d :| d in SettledEarly(r.t, a, m, b) && d <= s;
    DroppedApart(r, a, m, b, first, two, one, d);
    OpenInBoth(r, a, m, b, first, two, one, d);
    var f := first.t.committed;
    assert d < y;
    assert forall z: nat :: s <= z <= y && z < f ==> z in r.t.skipped;
    assert f !in first.Covered();
    assert f <= y ==> f in two.dropped && f <= b;
    assert y < f;
  }

  lemma StrandedInPieces(r: Run, a: nat, m: nat, b: nat, first: Run, two: Run, one: Run, s: nat)
    requires Apart(r, a, m, b, first, two, one) && s in StrandedOnlyInPieces(r, a, m, b)
    ensures s in StrandedBelow(two) && !Stranded(one, s)
  {
    PendingIsHistory(r);
    JoinedAtOnce(r, a, m, b, first, two, one, s);
    assert SameBlock(one, s, r.t.committed);
    TwoBetween(r, a, m, b, first, two, one);
    forall y: nat | SameBlock(two, s, y) ensures y in two.accepted {
      OldBlock(r, a, m, b, first, two, one, s, y);
    }
  }

  /** A number up to the end of the first piece shares the block of the open number, if any early one shares
      its block. */
  lemma FirstPieceIsOpen(r: Run, a: nat, m: nat, b: nat, first: Run, two: Run, one: Run, s: nat, d: nat)
    requires Apart(r, a, m, b, first, two, one) && d in SettledEarly(r.t, a, m, b) && SameBlock(one, s, d)
    ensures s <= m ==> SameBlock(two, s, r.t.committed)
  {
    OpenInBoth(r, a, m, b, first, two, one, d);
    if s <= m {
      forall z: nat | s <= z <= r.t.committed || r.t.committed <= z <= s ensures z in one.dropped {
        assert r.t.committed <= z ==> a <= z <= b;
      }
      NoneEarlyBetween(r, a, m, b, first, two, one, s, r.t.committed);
    }
  }

  /** With an early record after it, a number that shares no block with the open one has one before it too. */
  lemma EarlyBefore(r: Run, a: nat, m: nat, b: nat, first: Run, two: Run, one: Run, s: nat, d: nat) returns (e: nat)
    requires Apart(r, a, m, b, first, two, one) && d in SettledEarly(r.t, a, m, b) && m < s < d
    requires !SameBlock(two, r.t.committed, s)
    ensures e in SettledEarly(r.t, a, m, b) && e <= s && SameBlock(one, e, s)
  {
    OpenInBoth(r, a, m, b, first, two, one, d);
    forall z: nat | r.t.committed <= z <= s ensures z in one.dropped {
      assert a <= z <= b;
    }
    if forall x :: x in SettledEarly(r.t, a, m, b) ==> !(r.t.committed <= x <= s) {
      NoneEarlyBetween(r, a, m, b, first, two, one, r.t.committed, s);
    }
    e :| e in SettledEarly(r.t, a, m, b) && r.t.committed <= e <= s;
  }

  lemma EarlyInBlock(r: Run, a: nat, m: nat, b: nat, first: Run, two: Run, one: Run, s: nat) returns (d: nat)
    requires Apart(r, a, m, b, first, two, one) && Stranded(two, s) && !Stranded(one, s)
    ensures d in SettledEarly(r.t, a, m, b) && m < s && d <= s && SameBlock(one, d, s)
  {
    TwoBetween(r, a, m, b, first, two, one);
    var y: nat :| SameBlock(one, s, y) && y !in one.accepted;
    if forall e :: e in SettledEarly(r.t, a, m, b) ==> !(y <= e <= s || s <= e <= y) {
      NoneEarlyBetween(r, a, m, b, first, two, one, s, y);
    }
    d :| d in SettledEarly(r.t, a, m, b) && (y <= d <= s || s <= d <= y);
    OpenInBoth(r, a, m, b, first, two, one, d);
    FirstPieceIsOpen(r, a, m, b, first, two, one, s, d);
    DroppedApart(r, a, m, b, first, two, one, d);
    assert SameBlock(two, r.t.committed, s) ==> SameBlock(two, s, r.t.committed);
    if s < d {
      d := EarlyBefore(r, a, m, b, first, two, one, s, d);
    }
  }

  /** The second piece does not adjoin the block, or else the block would hold the open number there. */
  lemma NotAdjoined(r: Run, a: nat, m: nat, b: nat, first: Run, two: Run, one: Run, s: nat, z: nat)
    requires Apart(r, a, m, b, first, two, one) && r.t.committed <= m < s < first.t.committed && Stranded(two, s)
    requires s < z <= b && forall y: nat :: s <= y < z ==> y in r.t.skipped
    ensures z in r.t.seen || z in r.t.skipped
  {
    PendingIsHistory(r);
    TwoBetween(r, a, m, b, first, two, one);
    var f := first.t.committed;
    assert f !in first.Covered();
    assert z == f ==> SameBlock(two, s, f);
    assert z < f;
    PassedWasCovered(r, a, m, b, first, two, one, z);
  }

  lemma StrandedOnlyJoined(r: Run, a: nat, m: nat, b: nat, first: Run, two: Run, one: Run, s: nat)
    requires Apart(r, a, m, b, first, two, one) && Stranded(two, s) && !Stranded(one, s)
    ensures s in StrandedOnlyInPieces(r, a, m, b)
  {
    PendingIsHistory(r);
    TwoBetween(r, a, m, b, first, two, one);
    var d := EarlyInBlock(r, a, m, b, first, two, one, s);
    OpenInBoth(r, a, m, b, first, two, one, d);
    BeyondFirst(r, a, m, b, first, two, one, d, s);
    assert first.t.committed <= s ==> SameBlock(two, s, first.t.committed);
    BlockIsJoined(r, a, m, b, first, two, one, d, s);
    forall y: nat | SameBlock(r, s, y) ensures y in r.accepted {
      SubBlock(r, two, s, y);
    }
    forall z: nat | s < z <= b && (forall y: nat :: s <= y < z ==> y in r.t.skipped)
      ensures z in r.t.seen || z in r.t.skipped
    {
      NotAdjoined(r, a, m, b, first, two, one, s, z);
    }
  }

  lemma StrandedApart(r: Run, a: nat, m: nat, b: nat, first: Run, two: Run, one: Run)
    requires Apart(r, a, m, b, first, two, one)
    ensures StrandedBelow(one) <= StrandedBelow(two)
    ensures StrandedBelow(two) - StrandedBelow(one) == StrandedOnlyInPieces(r, a, m, b)
  {
    forall s | s in StrandedBelow(one) ensures s in StrandedBelow(two) {
      StrandedInBoth(r, a, m, b, first, two, one, s);
    }
    forall s | s in StrandedOnlyInPieces(r, a, m, b) ensures s in StrandedBelow(two) && !Stranded(one, s) {
      StrandedInPieces(r, a, m, b, first, two, one, s);
    }
    TwoBetween(r, a, m, b, first, two, one);
    forall s | s in StrandedBelow(two) && !Stranded(one, s) ensures s in StrandedOnlyInPieces(r, a, m, b) {
      StrandedOnlyJoined(r, a, m, b, first, two, one, s);
    }
  }

  // ---- The trace of batching ----

  lemma SameHistory(r: Run, a: nat, m: nat, b: nat, first: Run, two: Run, one: Run)
    requires Apart(r, a, m, b, first, two, one)
    ensures two == one <==> SettledEarly(r.t, a, m, b) == {}
    ensures SettledEarly(r.t, a, m, b) <= LeaptOnlyAtOnce(r, a, m, b)
  {
    PendingIsHistory(r);
    forall d | d in SettledEarly(r.t, a, m, b) ensures d in LeaptOnlyAtOnce(r, a, m, b) && d !in two.dropped {
      DroppedApart(r, a, m, b, first, two, one, d);
      assert d !in r.dropped;
    }
    if SettledEarly(r.t, a, m, b) == {} {
      forall s: nat ensures s in one.dropped <==> s in two.dropped {
        DroppedApart(r, a, m, b, first, two, one, s);
      }
      assert one.dropped == two.dropped;
    } else {
      var d :| d in SettledEarly(r.t, a, m, b);
      DroppedApart(r, a, m, b, first, two, one, d);
    }
  }

  /** Exactly how reporting a range in two pieces differs from reporting it at once, told from the state
      before the call: the pieces leave fewer records behind in the set and more numbers in the ranges.
      The histories are the same if and only if no pending record of the second piece is settled along with
      the first. */
  lemma BatchingTrace(r: Run, a: nat, m: nat, b: nat)
    requires Explained(r) && a <= m < b
    ensures var two, one := Next(Next(r, Range(a, m)), Range(m + 1, b)), Next(r, Range(a, b));
            && (two == one <==> SettledEarly(r.t, a, m, b) == {})
            && SettledEarly(r.t, a, m, b) <= LeaptOnlyAtOnce(r, a, m, b)
            && LeaptBelow(two) <= LeaptBelow(one)
            && LeaptBelow(one) - LeaptBelow(two) == LeaptOnlyAtOnce(r, a, m, b)
            && StrandedBelow(one) <= StrandedBelow(two)
            && StrandedBelow(two) - StrandedBelow(one) == StrandedOnlyInPieces(r, a, m, b)
  {
    var first := Next(r, Range(a, m));
    var two, one := Next(first, Range(m + 1, b)), Next(r, Range(a, b));
    PiecesApart(r, a, m, b, first, two, one);
    SameHistory(r, a, m, b, first, two, one);
    LeaptApart(r, a, m, b, first, two, one);
    StrandedApart(r, a, m, b, first, two, one);
  }

  // ---- What is stored ----

  /** The history determines every stored field. */
  lemma StoredDetermined(r: Run, d: Stored, e: Stored)
    requires Consistent(r, d) && Consistent(r, e)
    ensures d == e
  {
    ViewBacks(d);
    ViewBacks(e);
    HeldExactly(r, d.ranges);
    HeldExactly(r, e.ranges);
    CoverDetermines(d.ranges, e.ranges);
    assert d.observed == e.observed;
  }

  lemma NeighbourStranded(r: Run, j: nat)
    ensures Stranded(r, j + 1) && j in r.dropped ==> Stranded(r, j)
  {
    if Stranded(r, j + 1) && j in r.dropped {
      assert SameBlock(r, j + 1, j);
      StrandedBlock(r, j + 1, j);
    }
  }

  lemma StartStays(two: Run, one: Run, k: nat)
    requires Explained(two) && Explained(one) && two.t == one.t && StrandedBelow(one) <= StrandedBelow(two)
    requires (forall s: nat :: s in two.dropped ==> s in one.dropped) && k in BlockStarts(one)
    ensures k in BlockStarts(two)
  {
    PendingIsHistory(one);
    PendingIsHistory(two);
    assert k < one.t.committed ==> k in StrandedBelow(one);
    if k != 0 {
      NeighbourStranded(one, k - 1);
    }
  }

  lemma MoreStarts(two: Run, one: Run)
    requires Explained(two) && Explained(one) && two.t == one.t && StrandedBelow(one) <= StrandedBelow(two)
    requires forall s: nat :: s in two.dropped ==> s in one.dropped
    ensures BlockStarts(one) <= BlockStarts(two)
  {
    PendingIsHistory(one);
    PendingIsHistory(two);
    forall k | k in BlockStarts(one) ensures k in BlockStarts(two) {
      StartStays(two, one, k);
    }
  }

  lemma RememberedSets(r: Run, d: Stored)
    requires Consistent(r, d)
    ensures d.observed == r.t.seen + LeaptBelow(r) && forall s :: s in LeaptBelow(r) ==> s !in r.t.seen
  {
  }

  lemma ObservedApart(runTwo: Run, runOne: Run, two: Stored, one: Stored, more: set<nat>)
    requires Consistent(runTwo, two) && Consistent(runOne, one) && runTwo.t == runOne.t
    requires LeaptBelow(runTwo) <= LeaptBelow(runOne) && LeaptBelow(runOne) - LeaptBelow(runTwo) == more
    ensures one.observed == two.observed + more && two.observed !! more
  {
    RememberedSets(runTwo, two);
    RememberedSets(runOne, one);
    assert forall s :: s in more ==> s !in runTwo.t.seen;
  }

  lemma HeldApart(runTwo: Run, runOne: Run, more: set<nat>, x: nat)
    requires Explained(runTwo) && Explained(runOne) && runTwo.t == runOne.t
    requires StrandedBelow(runOne) <= StrandedBelow(runTwo) && StrandedBelow(runTwo) - StrandedBelow(runOne) == more
    ensures Held(runTwo, x) <==> Held(runOne, x) || x in more
  {
    PendingIsHistory(runTwo);
    PendingIsHistory(runOne);
    assert x < runTwo.t.committed ==> (Held(runTwo, x) <==> x in StrandedBelow(runTwo));
    assert x < runOne.t.committed ==> (Held(runOne, x) <==> x in StrandedBelow(runOne));
  }

  lemma RangesApart(runTwo: Run, runOne: Run, two: Stored, one: Stored, more: set<nat>)
    requires Consistent(runTwo, two) && Consistent(runOne, one) && runTwo.t == runOne.t
    requires forall s: nat :: s in runTwo.dropped ==> s in runOne.dropped
    requires StrandedBelow(runOne) <= StrandedBelow(runTwo) && StrandedBelow(runTwo) - StrandedBelow(runOne) == more
    ensures forall x: nat :: Covers(two.ranges, x) <==> Covers(one.ranges, x) || x in more
    ensures one.ranges.Keys <= two.ranges.Keys && |one.ranges| <= |two.ranges|
  {
    ViewBacks(two);
    ViewBacks(one);
    HeldExactly(runTwo, two.ranges);
    HeldExactly(runOne, one.ranges);
    MoreStarts(runTwo, runOne);
    SubsetSize(one.ranges.Keys, two.ranges.Keys);
    forall x: nat ensures Held(runTwo, x) <==> Held(runOne, x) || x in more {
      HeldApart(runTwo, runOne, more, x);
    }
  }

  /** The stored fields are the same exactly when no record is settled early. At once, the set holds just the
      records of `LeaptOnlyAtOnce` more; in pieces, the ranges hold just the numbers of
      `StrandedOnlyInPieces` more, and there are at least as many of them. */
  lemma BatchingStored(r: Run, a: nat, m: nat, b: nat, two: Stored, one: Stored)
    requires Explained(r) && a <= m < b
    requires Consistent(Next(Next(r, Range(a, m)), Range(m + 1, b)), two) && Consistent(Next(r, Range(a, b)), one)
    ensures two == one <==> SettledEarly(r.t, a, m, b) == {}
    ensures one.observed == two.observed + LeaptOnlyAtOnce(r, a, m, b)
    ensures |one.observed| == |two.observed| + |LeaptOnlyAtOnce(r, a, m, b)|
    ensures forall x: nat :: Covers(two.ranges, x) <==> Covers(one.ranges, x) || x in StrandedOnlyInPieces(r, a, m, b)
    ensures one.ranges.Keys <= two.ranges.Keys && |one.ranges| <= |two.ranges|
  {
    var first := Next(r, Range(a, m));
    var runTwo, runOne := Next(first, Range(m + 1, b)), Next(r, Range(a, b));
    PiecesApart(r, a, m, b, first, runTwo, runOne);
    TwoBetween(r, a, m, b, first, runTwo, runOne);
    BatchingTrace(r, a, m, b);
    ObservedApart(runTwo, runOne, two, one, LeaptOnlyAtOnce(r, a, m, b));
    RangesApart(runTwo, runOne, two, one, StrandedOnlyInPieces(r, a, m, b));
    if SettledEarly(r.t, a, m, b) == {} {
      StoredDetermined(runOne, two, one);
    }
  }

  // ---- Inputs that show the trace ----

  ghost predicate AtZero(r: Run, lag: nat) {
    Explained(r) && r.t.lag == lag && r.origin == 0 && r.t.committed == 0 && r.t.high <= lag
  }

  /** Inside the window, numbers wait as long as 0 is missing. */
  lemma RecordWaits(q: Run, lag: nat, num: nat)
    requires AtZero(q, lag) && 0 < num <= lag && num !in q.accepted && num !in q.dropped
    ensures var r := Next(q, Record(num));
            AtZero(r, lag) && r.accepted == q.accepted + {num} && r.dropped == q.dropped
  {
    var r := Next(q, Record(num));
    RecordOutcome(q, num);
    NextExplained(q, Record(num));
    NextKeeps(q, Record(num));
    SettleKeeps(q.t.(seen := q.t.seen + {num}, high := Max(q.t.high, num)));
    assert num !in q.Covered() && num !in q.lost;
    assert r.accepted == q.accepted + {num} && r.dropped == q.dropped;
    assert IsFrontier(0, lag, q.t.high, q.Covered(), 0);
    FrontierUnique(0, lag, r.t.high, r.Covered(), r.t.committed, 0);
  }

  lemma RangeWaits(q: Run, lag: nat, num: nat)
    requires AtZero(q, lag) && 0 < num <= lag
    ensures var r := Next(q, Range(num, num));
            AtZero(r, lag) && r.accepted == q.accepted &&
            forall s: nat :: s in r.dropped <==> s in q.dropped || s == num
  {
    var r := Next(q, Range(num, num));
    RangeSound(q, num, num);
    EffectiveAt(q.t, num, num);
    assert IsFrontier(0, lag, q.t.high, q.Covered(), 0);
    FrontierUnique(0, lag, r.t.high, r.Covered(), r.t.committed, 0);
  }

  lemma WaitingEarly(r: Run, lag: nat)
    requires AtZero(r, lag) && r.accepted == {2} && r.dropped == {}
    ensures 2 in SettledEarly(r.t, 0, 1, 2)
  {
  }

  /** With record 2 waiting, the range 0 to 2 leaves it behind; the ranges 0 to 1 and 2 alone do not. */
  lemma RecordLeftAtOnce(lag: nat, r: Run)
    requires 2 <= lag && r == After(Start(lag, 0), [Record(2)])
    ensures var two, one := Next(Next(r, Range(0, 1)), Range(2, 2)), Next(r, Range(0, 2));
            2 in LeaptBelow(one) && 2 !in LeaptBelow(two)
  {
    StartExplained(lag, 0);
    AppendEvent(Start(lag, 0), [], Record(2));
    assert [] + [Record(2)] == [Record(2)];
    RecordWaits(Start(lag, 0), lag, 2);
    WaitingEarly(r, lag);
    BatchingTrace(r, 0, 1, 2);
  }

  lemma AfterTwo(r: Run, d: Event, e: Event)
    ensures After(r, [d, e]) == Next(Next(r, d), e)
  {
    AppendEvent(r, [], d);
    AppendEvent(r, [d], e);
    assert [] + [d] == [d] && [d] + [e] == [d, e];
  }

  lemma AfterThree(r: Run, d: Event, e: Event, f: Event)
    ensures After(r, [d, e, f]) == Next(Next(Next(r, d), e), f)
  {
    AfterTwo(r, d, e);
    AppendEvent(r, [d, e], f);
    assert [d, e] + [f] == [d, e, f];
  }

  lemma TwoStrands(r: Run, lag: nat)
    requires AtZero(r, lag) && r.accepted == {1, 2} && forall s: nat :: s in r.dropped <==> s == 2
    ensures StrandedOnlyInPieces(r, 0, 0, 2) == {2}
  {
    PendingIsHistory(r);
    assert 1 in SettledEarly(r.t, 0, 0, 2);
    assert Joined(r.t, 0, 0, 2, 2);
    forall y: nat | SameBlock(r, 2, y) ensures y in r.accepted {
      assert y in r.dropped;
    }
    assert forall s :: s in r.t.skipped ==> s == 2;
  }

  lemma OneStrands(r: Run, first: Run, two: Run, one: Run)
    requires Apart(r, 0, 0, 2, first, two, one) && r.t.committed == 0 && 0 !in r.accepted
    requires forall s: nat :: s in r.dropped <==> s == 2
    ensures StrandedBelow(one) == {}
  {
    forall x | x in one.dropped ensures !Stranded(one, x) {
      assert SameBlock(one, x, 0);
    }
  }

  lemma PiecesStrand(r: Run, lag: nat)
    requires AtZero(r, lag) && r.accepted == {1, 2} && forall s: nat :: s in r.dropped <==> s == 2
    ensures var two, one := Next(Next(r, Range(0, 0)), Range(1, 2)), Next(r, Range(0, 2));
            StrandedBelow(two) == {2} && StrandedBelow(one) == {}
  {
    var first := Next(r, Range(0, 0));
    var two, one := Next(first, Range(1, 2)), Next(r, Range(0, 2));
    PiecesApart(r, 0, 0, 2, first, two, one);
    OneStrands(r, first, two, one);
    TwoStrands(r, lag);
    StrandedApart(r, 0, 0, 2, first, two, one);
  }

  /** With records 1 and 2 waiting and 2 dropped as well, the range 0 to 2 takes the range of 2 along; the
      ranges of 0 alone and 1 to 2 leave it stored. */
  lemma RangeLeftInPieces(lag: nat, r: Run)
    requires 2 <= lag && r == After(Start(lag, 0), [Record(1), Record(2), Range(2, 2)])
    ensures var two, one := Next(Next(r, Range(0, 0)), Range(1, 2)), Next(r, Range(0, 2));
            StrandedBelow(two) == {2} && StrandedBelow(one) == {}
  {
    StartExplained(lag, 0);
    var first, second := Next(Start(lag, 0), Record(1)), Next(Next(Start(lag, 0), Record(1)), Record(2));
    AfterThree(Start(lag, 0), Record(1), Record(2), Range(2, 2));
    RecordWaits(Start(lag, 0), lag, 1);
    RecordWaits(first, lag, 2);
    RangeWaits(second, lag, 2);
    PiecesStrand(r, lag);
  }
}
