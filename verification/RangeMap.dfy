/** Ranges of numbers in a map from the first to the last number of each. */
module RangeMap {
  import opened Prelude

  ghost predicate Covers(m: map<nat, nat>, x: nat) {
    exists k :: k in m && k <= x <= m[k]
  }

  /** Ranges are nonempty, disjoint and not even adjacent. */
  ghost predicate Canonical(m: map<nat, nat>) {
    && (forall k :: k in m ==> k <= m[k] <= U64_MAX)
    && (forall j, k :: j in m && k in m && j < k ==> m[j] + 1 < k)
  }

  ghost predicate IsPredecessor(m: map<nat, nat>, x: nat, p: Option<nat>) {
    match p
    case None => forall k :: k in m ==> x < k
    case Some(k) => k in m && k <= x && forall j :: j in m && j <= x ==> j <= k
  }

  /** Looking at the range that starts last at or before `x` decides whether any range holds `x`. */
  lemma PredecessorDecides(m: map<nat, nat>, x: nat, p: Option<nat>)
    requires Canonical(m) && IsPredecessor(m, x, p)
    ensures Covers(m, x) <==> p.Some? && x <= m[p.value]
  {
  }

  lemma {:induction false} GreatestExists(s: set<nat>) returns (g: nat)
    requires s != {}
    ensures g in s && forall x :: x in s ==> x <= g
  {
    var x :| x in s;
    if s == {x} {
      g := x;
    } else {
      var h := GreatestExists(s - {x});
      g := if x < h then h else x;
      assert forall y :: y in s ==> y == x || y in s - {x};
    }
  }

  lemma {:induction false} LeastExists(s: set<nat>) returns (l: nat)
    requires s != {}
    ensures l in s && forall x :: x in s ==> l <= x
  {
    var x :| x in s;
    if s == {x} {
      l := x;
    } else {
      var h := LeastExists(s - {x});
      l := if h < x then h else x;
      assert forall y :: y in s ==> y == x || y in s - {x};
    }
  }

  method Predecessor(m: map<nat, nat>, x: nat) returns (p: Option<nat>)
    ensures IsPredecessor(m, x, p)
  {
    var below := set k | k in m && k <= x;
    assert forall k :: k in m && k <= x ==> k in below;
    if below == {} {
      return None;
    }
    ghost var g := GreatestExists(below);
    var k :| k in below && forall j :: j in below ==> j <= k;
    p := Some(k);
  }

  ghost predicate CoveredBy(m: map<nat, nat>, keys: seq<nat>, x: nat) {
    exists k :: k in keys && k in m && k <= x <= m[k]
  }

  /** [s, e] is [start, end] grown by the ranges at `keys`, and clear of all others. */
  ghost predicate Grown(m: map<nat, nat>, start: nat, end: nat, keys: seq<nat>, s: nat, e: nat) {
    && s <= start <= end <= e <= U64_MAX
    && (forall k :: k in keys ==> k in m && s <= k && m[k] <= e)
    && (forall k :: k in m && k !in keys ==> m[k] + 1 < s || e + 1 < k)
    && (forall x: nat :: s <= x <= e ==> start <= x <= end || CoveredBy(m, keys, x))
  }

  lemma MergeGrown(m: map<nat, nat>, start: nat, end: nat, keys: seq<nat>, s: nat, e: nat, m1: map<nat, nat>)
    requires Canonical(m) && Grown(m, start, end, keys, s, e)
    requires m1 == (m - set k | k in keys)[s := e]
    ensures Canonical(m1)
    ensures forall x: nat :: Covers(m1, x) <==> Covers(m, x) || start <= x <= end
  {
    assert s in m1 && m1[s] == e;
    forall x: nat ensures Covers(m1, x) <==> Covers(m, x) || start <= x <= end {
      if k :| k in m && k <= x <= m[k] {
        assert k in keys || k in m1;
        assert Covers(m1, x);
      }
      if s <= x <= e {
        assert start <= x <= end || CoveredBy(m, keys, x);
      }
    }
  }

  /** The scan has dealt with every range that starts at or below `bound` and is not in `todo`. */
  ghost predicate Scanned(m: map<nat, nat>, start: nat, end: nat, todo: set<nat>, s: nat, e: nat, keys: seq<nat>) {
    && s <= start <= end <= e <= U64_MAX
    && (forall k :: k in todo ==> k in m)
    && (forall k :: k in keys ==> k in m && k <= end + 1 && k !in todo && s <= k && m[k] <= e)
    && (forall k :: k in m && k <= end + 1 && k !in todo && k !in keys ==> m[k] + 1 < s)
    && (forall j, k :: j in m && j <= end + 1 && j !in todo && k in todo ==> j < k)
    && (e == end || exists k :: k in keys && e == m[k])
    && (forall x: nat :: s <= x <= e ==> start <= x <= end || CoveredBy(m, keys, x))
  }

  lemma ScanMerge(m: map<nat, nat>, start: nat, end: nat, todo: set<nat>, s: nat, e: nat, keys: seq<nat>, rs: nat)
    requires Canonical(m) && Scanned(m, start, end, todo, s, e, keys)
    requires rs in todo && rs <= end + 1 && s <= m[rs] + 1 && forall k :: k in todo ==> rs <= k
    ensures Scanned(m, start, end, todo - {rs}, if s < rs then s else rs, if e < m[rs] then m[rs] else e, keys + [rs])
  {
    var s1, e1, keys1 := if s < rs then s else rs, if e < m[rs] then m[rs] else e, keys + [rs];
    assert forall k :: k in keys1 <==> k in keys || k == rs;
    forall x: nat | s1 <= x <= e1 ensures start <= x <= end || CoveredBy(m, keys1, x) {
      if s <= x <= e {
        assert start <= x <= end || CoveredBy(m, keys, x);
        if k :| k in keys && k in m && k <= x <= m[k] {
          assert k in keys1;
          assert CoveredBy(m, keys1, x);
        }
      } else {
        assert rs in keys1 && rs <= x <= m[rs];
        assert CoveredBy(m, keys1, x);
      }
    }
  }

  lemma ScanPass(m: map<nat, nat>, start: nat, end: nat, todo: set<nat>, s: nat, e: nat, keys: seq<nat>, rs: nat)
    requires Canonical(m) && Scanned(m, start, end, todo, s, e, keys)
    requires rs in todo && m[rs] + 1 < s && forall k :: k in todo ==> rs <= k
    ensures Scanned(m, start, end, todo - {rs}, s, e, keys)
  {
  }

  lemma ScanDone(m: map<nat, nat>, start: nat, end: nat, s: nat, e: nat, keys: seq<nat>)
    requires Canonical(m) && Scanned(m, start, end, {}, s, e, keys)
    ensures Grown(m, start, end, keys, s, e)
  {
    forall k | k in m && k !in keys ensures m[k] + 1 < s || e + 1 < k {
      if end + 1 < k && e != end {
        var j :| j in keys && e == m[j];
      }
    }
  }

  /** The scan of the map: all ranges that touch or adjoin [start, end], in increasing order of
      their starts, with the bound on starts fixed beforehand. */
  method ScanOverlaps(m: map<nat, nat>, start: nat, end: nat) returns (s: nat, e: nat, overlapped: seq<nat>)
    requires Canonical(m) && start <= end <= U64_MAX
    ensures Grown(m, start, end, overlapped, s, e)
  {
    s, e, overlapped := start, end, [];
    var bound := SatAdd(e, 1);
    var todo := set k | k in m && k <= bound;
    while todo != {}
      invariant forall k :: k in todo ==> k <= bound
      invariant Scanned(m, start, end, todo, s, e, overlapped)
    {
      ghost var l := LeastExists(todo);
      var rs :| rs in todo && forall k :: k in todo ==> rs <= k;
      var re := m[rs];
      if s <= SatAdd(re, 1) {
        ScanMerge(m, start, end, todo, s, e, overlapped, rs);
        s, e := if s < rs then s else rs, if e < re then re else e;
        overlapped := overlapped + [rs];
      } else {
        ScanPass(m, start, end, todo, s, e, overlapped, rs);
      }
      todo := todo - {rs};
    }
    ScanDone(m, start, end, s, e, overlapped);
  }

  method RemoveKeys(m: map<nat, nat>, keys: seq<nat>) returns (rest: map<nat, nat>)
    ensures rest == m - set k | k in keys
  {
    rest := m;
    for i := 0 to |keys|
      invariant rest == m - set k | k in keys[..i]
    {
      rest := rest - {keys[i]};
    }
    assert keys[..|keys|] == keys;
  }

  // ---- Number and length of the ranges ----

  /** The keys of a canonical map are the numbers at which its ranges start. */
  lemma KeysAreStarts(m: map<nat, nat>, x: nat)
    requires Canonical(m)
    ensures x in m <==> Covers(m, x) && (x == 0 || !Covers(m, x - 1))
  {
    if Covers(m, x) && x !in m {
      var k :| k in m && k <= x <= m[k];
      assert Covers(m, x - 1);
    }
  }

  lemma EndWithin(m: map<nat, nat>, m1: map<nat, nat>, k: nat)
    requires Canonical(m) && Canonical(m1) && k in m && k in m1 && forall x: nat :: Covers(m, x) ==> Covers(m1, x)
    ensures m[k] <= m1[k]
  {
    var next: nat := m1[k] + 1;
    assert !Covers(m1, next);
    assert next <= m[k] ==> Covers(m, next);
  }

  /** A canonical map is determined by the numbers it covers. */
  lemma CoverDetermines(m: map<nat, nat>, m1: map<nat, nat>)
    requires Canonical(m) && Canonical(m1) && forall x: nat :: Covers(m, x) <==> Covers(m1, x)
    ensures m == m1
  {
    forall k: nat ensures k in m <==> k in m1 {
      KeysAreStarts(m, k);
      KeysAreStarts(m1, k);
    }
    forall k | k in m ensures m[k] == m1[k] {
      EndWithin(m, m1, k);
      EndWithin(m1, m, k);
    }
  }

  ghost function CoveredUpTo(m: map<nat, nat>, hi: nat): set<nat> {
    set x | x in Interval(0, hi + 1) && Covers(m, x)
  }

  /** All ranges together, number by number. */
  ghost function TotalLength(m: map<nat, nat>): nat
    requires Canonical(m)
    decreases |m|
  {
    if m == map[] then 0
    else
      var k :| k in m;
      assert (m - {k}).Keys == m.Keys - {k};
      m[k] + 1 - k + TotalLength(m - {k})
  }

  lemma RemovedCoverAt(m: map<nat, nat>, k: nat, x: nat)
    requires Canonical(m) && k in m
    ensures Covers(m, x) <==> Covers(m - {k}, x) || k <= x <= m[k]
    ensures !(Covers(m - {k}, x) && k <= x <= m[k])
  {
    if j :| j in m && j <= x <= m[j] {
      assert j == k || j in m - {k};
    }
  }

  lemma DisjointSize(s: set<nat>, a: set<nat>, b: set<nat>)
    requires (forall x: nat :: x in s <==> x in a || x in b) && forall x: nat :: !(x in a && x in b)
    ensures |s| == |a| + |b|
  {
    assert s == a + b && a !! b;
  }

  lemma RemovedCover(m: map<nat, nat>, k: nat, hi: nat)
    requires Canonical(m) && k in m && m[k] <= hi
    ensures |CoveredUpTo(m, hi)| == m[k] + 1 - k + |CoveredUpTo(m - {k}, hi)|
  {
    var range, rest := Interval(k, m[k] + 1), CoveredUpTo(m - {k}, hi);
    forall x: nat ensures x in CoveredUpTo(m, hi) <==> x in rest || x in range {
      RemovedCoverAt(m, k, x);
    }
    forall x: nat ensures !(x in rest && x in range) {
      RemovedCoverAt(m, k, x);
    }
    DisjointSize(CoveredUpTo(m, hi), rest, range);
  }

  lemma {:induction false} LengthOfCover(m: map<nat, nat>, hi: nat)
    requires Canonical(m) && forall k :: k in m ==> m[k] <= hi
    ensures TotalLength(m) == |CoveredUpTo(m, hi)|
    decreases |m|
  {
    if m == map[] {
      assert CoveredUpTo(m, hi) == {};
    } else {
      var k :| k in m && TotalLength(m) == m[k] + 1 - k + TotalLength(m - {k});
      assert (m - {k}).Keys == m.Keys - {k};
      LengthOfCover(m - {k}, hi);
      RemovedCover(m, k, hi);
    }
  }
}
