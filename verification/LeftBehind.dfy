/** What settling leaves behind in the stored form: pending numbers that a range leaps over, and ranges
    whose numbers had all been seen. */
module LeftBehind {
  import opened Prelude
  import opened PerSeqTracker
  import opened DeliveryRuns
  import opened RangeMap

  // ---- Pending numbers that a range leaps over stay behind ----

  ghost predicate AllSkipped(t: Tracker, lo: nat, hi: nat) {
    forall y: nat :: lo <= y <= hi ==> y in t.skipped
  }

  /** Coming from an earlier number that was not seen, settling crosses `s` inside a range. */
  ghost predicate LeaptOver(t0: Tracker, s: nat) {
    exists x: nat :: t0.committed <= x < s && x !in t0.seen && AllSkipped(t0, x, s)
  }

  /** What is left of `kept` once `t0` is settled up to `c`; and if `c` lies inside a range, all numbers of
      the range before it were seen. */
  ghost predicate Leaves(t0: Tracker, kept: set<nat>, c: nat, observed: set<nat>) {
    && (forall s :: s in observed <==> s in kept && (s < t0.committed || c <= s || LeaptOver(t0, s)))
    && (forall x: nat :: t0.committed <= x < c && AllSkipped(t0, x, c) ==> x in t0.seen)
  }

  lemma LeavesConsumed(t0: Tracker, kept: set<nat>, c: nat, observed: set<nat>)
    requires Leaves(t0, kept, c, observed) && t0.committed <= c && c in t0.seen
    ensures Leaves(t0, kept, c + 1, observed - {c})
  {
    forall x: nat | t0.committed <= x < c + 1 && AllSkipped(t0, x, c + 1) ensures x in t0.seen {
      assert x < c ==> AllSkipped(t0, x, c);
    }
  }

  lemma LeavesLeapt(t0: Tracker, kept: set<nat>, c: nat, observed: set<nat>, b: nat)
    requires Leaves(t0, kept, c, observed) && t0.committed <= c <= b && c !in t0.seen && c !in observed
    requires AllSkipped(t0, c, b) && b + 1 !in t0.skipped
    ensures Leaves(t0, kept, b + 1, observed)
  {
    forall s: nat | c < s <= b ensures LeaptOver(t0, s) {
      assert AllSkipped(t0, c, s);
    }
  }

  lemma LeavesLost(t0: Tracker, kept: set<nat>, c: nat, observed: set<nat>)
    requires Leaves(t0, kept, c, observed) && t0.committed <= c && c !in t0.skipped && c !in observed
    ensures Leaves(t0, kept, c + 1, observed)
  {
  }

  // ---- Ranges whose numbers had all been seen stay behind ----

  /** Settling `t0` up to `c` leaps over a number of the range at `k`, which removes the range. */
  ghost predicate LeaptAt(t0: Tracker, m0: map<nat, nat>, k: nat, c: nat)
    requires k in m0
  {
    t0.committed <= m0[k] < c && exists y: nat :: k <= y <= m0[k] && t0.committed <= y && y !in t0.seen
  }

  /** What is left of the ranges `m0` once `t0` is settled up to `c`. */
  ghost predicate LeavesRanges(t0: Tracker, m0: map<nat, nat>, c: nat, m: map<nat, nat>) {
    && (forall k :: k in m ==> k in m0 && m[k] == m0[k])
    && (forall k :: k in m0 ==> (k in m <==> !LeaptAt(t0, m0, k, c)))
  }

  /** From the settled prefix on, the ranges are the skipped numbers. */
  ghost predicate Backs(m0: map<nat, nat>, t0: Tracker) {
    Canonical(m0) && forall z: nat :: t0.committed <= z ==> (Covers(m0, z) <==> z in t0.skipped)
  }

  lemma RangesConsumed(t0: Tracker, m0: map<nat, nat>, c: nat, m: map<nat, nat>, kept: set<nat>, observed: set<nat>)
    requires LeavesRanges(t0, m0, c, m) && Backs(m0, t0) && Leaves(t0, kept, c, observed)
    requires t0.committed <= c && c in t0.seen
    ensures LeavesRanges(t0, m0, c + 1, m)
  {
    forall k | k in m0 && m0[k] == c ensures !LeaptAt(t0, m0, k, c + 1) {
      forall y: nat | k <= y <= c && t0.committed <= y ensures y in t0.seen {
        forall z: nat | y <= z <= c ensures z in t0.skipped {
          assert Covers(m0, z);
        }
        assert y < c ==> AllSkipped(t0, y, c);
      }
    }
  }

  lemma RangesLeapt(t0: Tracker, m0: map<nat, nat>, c: nat, m: map<nat, nat>, k: nat)
    requires LeavesRanges(t0, m0, c, m) && Canonical(m0)
    requires t0.committed <= c && c !in t0.seen && k in m && k <= c <= m[k]
    ensures LeavesRanges(t0, m0, m[k] + 1, m - {k})
  {
    forall j | j in m0 && j != k ensures LeaptAt(t0, m0, j, m[k] + 1) <==> LeaptAt(t0, m0, j, c) {
      assert !(c <= m0[j] <= m0[k]);
    }
  }

  lemma RangesPassed(t0: Tracker, m0: map<nat, nat>, c: nat, m: map<nat, nat>)
    requires LeavesRanges(t0, m0, c, m) && Backs(m0, t0) && t0.committed <= c && c !in t0.skipped
    ensures LeavesRanges(t0, m0, c + 1, m)
  {
    forall k | k in m0 ensures m0[k] != c {
      assert Covers(m0, m0[k]);
    }
  }

  // ---- The same over whole histories ----

  /** A range leapt over `s`: it lies in a block of dropped numbers, after one that was not accepted. */
  ghost predicate Leapt(r: Run, s: nat) {
    exists x: nat :: r.origin <= x < s && x !in r.accepted && forall y: nat :: x <= y <= s ==> y in r.dropped
  }

  /** `observed` holds the accepted numbers above the settled prefix, and those below it that were leapt over. */
  ghost predicate Remembers(r: Run, c: nat, observed: set<nat>) {
    forall s :: s in observed <==> s in r.accepted && (c <= s || Leapt(r, s))
  }

  /** `t0` is the history `next` above the prefix settled before, ready to be settled. */
  ghost predicate Feeds(t0: Tracker, next: Run) {
    && t0.seen == From(next.accepted, t0.committed) && t0.skipped == From(next.dropped, t0.committed)
    && next.origin <= t0.committed && (t0.committed !in next.accepted || t0.committed !in next.dropped)
  }

  /** A leap over `s` happens when `s` is settled; what is dropped or accepted later has no part in it. */
  lemma LeaptWhenSettled(t0: Tracker, next: Run, s: nat)
    requires Feeds(t0, next) && t0.committed <= s && s in next.accepted
    ensures LeaptOver(t0, s) <==> Leapt(next, s)
  {
    if x: nat :| next.origin <= x < s && x !in next.accepted && forall y: nat :: x <= y <= s ==> y in next.dropped {
      var from := if x < t0.committed then t0.committed else x;
      assert from in next.dropped && from !in next.accepted;
      assert from !in t0.seen && AllSkipped(t0, from, s);
    }
    if x: nat :| t0.committed <= x < s && x !in t0.seen && AllSkipped(t0, x, s) {
      forall y: nat | x <= y <= s ensures y in next.dropped {
        assert y in t0.skipped;
      }
      assert x !in next.accepted;
    }
  }

  lemma LeftRemembered(t0: Tracker, next: Run, kept: set<nat>, c: nat, observed: set<nat>)
    requires Feeds(t0, next) && Remembers(next, t0.committed, kept) && t0.committed <= c
    requires Leaves(t0, kept, c, observed)
    ensures Remembers(next, c, observed)
  {
    forall s ensures s in observed <==> s in next.accepted && (c <= s || Leapt(next, s)) {
      if s in next.accepted && t0.committed <= s {
        LeaptWhenSettled(t0, next, s);
      }
    }
  }

  /** New numbers at or above the settled prefix do not change what was leapt over below it. */
  lemma StillRemembered(r: Run, next: Run, c: nat, observed: set<nat>, more: set<nat>)
    requires Remembers(r, c, observed) && next.origin == r.origin
    requires next.accepted == r.accepted + more && forall s :: s in more ==> c <= s
    requires forall s: nat :: s < c ==> (s in next.dropped <==> s in r.dropped)
    ensures Remembers(next, c, observed + more)
  {
    forall s: nat | s < c ensures Leapt(next, s) <==> Leapt(r, s) {
      if x: nat :| r.origin <= x < s && x !in r.accepted && forall y: nat :: x <= y <= s ==> y in r.dropped {
        assert x !in next.accepted && forall y: nat :: x <= y <= s ==> y in next.dropped;
      }
      if x: nat :| r.origin <= x < s && x !in next.accepted && forall y: nat :: x <= y <= s ==> y in next.dropped {
        assert x !in r.accepted && forall y: nat :: x <= y <= s ==> y in r.dropped;
      }
    }
  }

  /** The accepted numbers below the settled prefix that were leapt over. */
  ghost function LeaptBelow(r: Run): set<nat> {
    set s | s in r.accepted && s < r.t.committed && Leapt(r, s)
  }

  lemma RememberedSize(r: Run, c: nat, observed: set<nat>)
    requires Explained(r) && c == r.t.committed && Remembers(r, c, observed)
    ensures |observed| == |r.t.seen| + |LeaptBelow(r)|
  {
    assert observed == r.t.seen + LeaptBelow(r);
  }

  /** `x` and `y` lie in one block of dropped numbers. */
  ghost predicate SameBlock(r: Run, x: nat, y: nat) {
    forall z: nat :: x <= z <= y || y <= z <= x ==> z in r.dropped
  }

  /** `x` was dropped, and all numbers of its block had been accepted before. */
  ghost predicate Stranded(r: Run, x: nat) {
    x in r.dropped && forall y: nat :: SameBlock(r, x, y) ==> y in r.accepted
  }

  /** Below the settled prefix the ranges hold the stranded numbers and no others. */
  ghost predicate RemembersRanges(r: Run, c: nat, m: map<nat, nat>) {
    forall x: nat :: x < c ==> (Covers(m, x) <==> Stranded(r, x))
  }

  /** `next` has no news of the numbers below `c`, and `c` itself was open. */
  ghost predicate Extends(r: Run, next: Run, c: nat) {
    && (forall s: nat :: s < c ==> (s in next.accepted <==> s in r.accepted) && (s in next.dropped <==> s in r.dropped))
    && c !in r.dropped
  }

  lemma StrandedBlock(r: Run, x: nat, y: nat)
    requires Stranded(r, x) && SameBlock(r, x, y)
    ensures Stranded(r, y)
  {
    forall z: nat | SameBlock(r, y, z) ensures z in r.accepted {
      assert SameBlock(r, x, z);
    }
  }

  lemma OneRange(m: map<nat, nat>, k: nat, x: nat, y: nat)
    requires Canonical(m) && k in m && k <= x <= m[k] && x <= y && forall z: nat :: x <= z <= y ==> Covers(m, z)
    ensures y <= m[k]
  {
    assert m[k] < y ==> Covers(m, m[k] + 1);
  }

  /** Ranges at hand before settling: stranded numbers below the prefix, skipped ones above. */
  ghost predicate AtHand(r: Run, next: Run, t0: Tracker, m0: map<nat, nat>) {
    Feeds(t0, next) && Extends(r, next, t0.committed) && Backs(m0, t0) && RemembersRanges(r, t0.committed, m0)
  }

  lemma AtHandDropped(r: Run, next: Run, t0: Tracker, m0: map<nat, nat>, z: nat)
    requires AtHand(r, next, t0, m0) && Covers(m0, z)
    ensures z in next.dropped
  {
    if z < t0.committed {
      assert Stranded(r, z);
    } else {
      assert z in t0.skipped;
    }
  }

  /** A number that no range holds is not stranded. */
  lemma UnheldStays(r: Run, next: Run, t0: Tracker, m0: map<nat, nat>, x: nat)
    requires AtHand(r, next, t0, m0) && !Covers(m0, x)
    ensures !Stranded(next, x)
  {
    if x < t0.committed && x in r.dropped {
      var y: nat :| SameBlock(r, x, y) && y !in r.accepted;
      assert SameBlock(r, y, y);
      assert y < t0.committed;
      forall z: nat | x <= z <= y || y <= z <= x ensures z in next.dropped {
        assert z in r.dropped;
      }
      assert SameBlock(next, x, y);
    }
  }

  lemma OldBlockEnds(r: Run, next: Run, t0: Tracker, m0: map<nat, nat>, k: nat, x: nat, y: nat)
    requires AtHand(r, next, t0, m0) && k in m0 && k <= x <= m0[k] < t0.committed && Stranded(r, x)
    requires SameBlock(next, x, y)
    ensures SameBlock(r, x, y)
  {
    if t0.committed <= y {
      forall z: nat | x <= z <= t0.committed ensures Covers(m0, z) {
        assert z in next.dropped;
        if z < t0.committed {
          assert SameBlock(r, x, z);
          StrandedBlock(r, x, z);
        } else {
          assert z in t0.skipped;
        }
      }
      OneRange(m0, k, x, t0.committed);
    }
  }

  /** A range entirely below the old prefix stays as it is. */
  lemma OldStays(r: Run, next: Run, t0: Tracker, m0: map<nat, nat>, k: nat, x: nat)
    requires AtHand(r, next, t0, m0) && k in m0 && k <= x <= m0[k] < t0.committed
    ensures Stranded(next, x)
  {
    assert Covers(m0, x);
    forall y: nat | SameBlock(next, x, y) ensures y in next.accepted {
      if SameBlock(r, x, y) {
        assert y in r.accepted;
        assert t0.committed <= y ==> t0.committed in r.dropped;
      } else {
        OldBlockEnds(r, next, t0, m0, k, x, y);
      }
    }
  }

  lemma NotLeaptStranded(r: Run, next: Run, t0: Tracker, m0: map<nat, nat>, k: nat, x: nat, c: nat)
    requires AtHand(r, next, t0, m0) && k in m0 && k <= x <= m0[k] &&
      t0.committed <= m0[k] < c && !LeaptAt(t0, m0, k, c)
    ensures Stranded(next, x)
  {
    assert Covers(m0, x);
    AtHandDropped(r, next, t0, m0, x);
    assert k <= t0.committed ==> Covers(m0, t0.committed) && t0.committed in t0.seen;
    forall y: nat | SameBlock(next, x, y) ensures y in next.accepted {
      assert y < k ==> k - 1 in next.dropped && Covers(m0, k - 1);
      if x <= y {
        forall z: nat | x <= z <= y ensures Covers(m0, z) {
          assert z in next.dropped;
        }
        OneRange(m0, k, x, y);
      }
      assert y in t0.seen;
    }
  }

  /** A range that settling passed is removed exactly when one of its numbers had not been accepted. */
  lemma PassedRange(r: Run, next: Run, t0: Tracker, m0: map<nat, nat>, k: nat, x: nat, c: nat)
    requires AtHand(r, next, t0, m0) && k in m0 && k <= x <= m0[k] && t0.committed <= m0[k] < c
    ensures Stranded(next, x) <==> !LeaptAt(t0, m0, k, c)
  {
    forall y: nat | k <= y <= m0[k] ensures SameBlock(next, x, y) {
      forall z: nat | x <= z <= y || y <= z <= x ensures z in next.dropped {
        assert Covers(m0, z);
        AtHandDropped(r, next, t0, m0, z);
      }
    }
    if LeaptAt(t0, m0, k, c) {
      var y: nat :| k <= y <= m0[k] && t0.committed <= y && y !in t0.seen;
      assert SameBlock(next, x, y) && y !in next.accepted;
    } else {
      NotLeaptStranded(r, next, t0, m0, k, x, c);
    }
  }

  /** So what settling leaves of the ranges is again what the history says. */
  lemma RangesRemembered(r: Run, next: Run, t0: Tracker, m0: map<nat, nat>, c: nat, m: map<nat, nat>)
    requires AtHand(r, next, t0, m0) && LeavesRanges(t0, m0, c, m) && t0.committed <= c && c !in t0.skipped
    ensures RemembersRanges(next, c, m)
  {
    forall x: nat | x < c ensures Covers(m, x) <==> Stranded(next, x) {
      if k :| k in m0 && k <= x <= m0[k] {
        assert Covers(m, x) <==> k in m;
        assert c <= m0[k] ==> Covers(m0, c);
        if m0[k] < t0.committed {
          OldStays(r, next, t0, m0, k, x);
        } else {
          PassedRange(r, next, t0, m0, k, x, c);
        }
      } else {
        UnheldStays(r, next, t0, m0, x);
      }
    }
  }

  /** What the stored ranges hold: dropped numbers ahead, and stranded ones. */
  ghost predicate Held(r: Run, x: nat) {
    x in r.dropped && (r.t.committed <= x || Stranded(r, x))
  }

  /** The stranded numbers below the settled prefix. */
  ghost function StrandedBelow(r: Run): set<nat> {
    set x | x in r.dropped && x < r.t.committed && Stranded(r, x)
  }

  /** The numbers at which blocks of held numbers start. */
  ghost function BlockStarts(r: Run): set<nat> {
    set x | x in r.dropped && Held(r, x) && (x == 0 || !Held(r, x - 1))
  }

  /** The history determines the stored ranges. */
  lemma HeldExactly(r: Run, m: map<nat, nat>)
    requires Explained(r) && Backs(m, r.t) && RemembersRanges(r, r.t.committed, m)
    ensures forall x: nat :: Covers(m, x) <==> Held(r, x)
    ensures m.Keys == BlockStarts(r)
  {
    forall x: nat ensures Covers(m, x) <==> Held(r, x) {
      assert r.t.committed <= x ==> (x in r.t.skipped <==> x in r.dropped);
    }
    forall x: nat ensures x in m <==> x in BlockStarts(r) {
      KeysAreStarts(m, x);
    }
  }
}
