/** Integer widths, saturating arithmetic and a few facts on finite sets and sequences. */
module Prelude {

  const U32_MAX: nat := 0xFFFF_FFFF
  const U64_MAX: nat := 0xFFFF_FFFF_FFFF_FFFF

  datatype Option<+T> = None | Some(value: T)

  datatype Result<+T, +E> = Ok(value: T) | Err(error: E)

  function Max(a: int, b: int): int {
    if a < b then b else a
  }

  /** `u64::saturating_add` and `u64::saturating_sub`. */
  function SatAdd(a: nat, b: nat): nat {
    if a + b <= U64_MAX then a + b else U64_MAX
  }

  function SatSub(a: nat, b: nat): nat {
    if b <= a then a - b else 0
  }

  /** `u32::saturating_add`. */
  function SatAdd32(a: nat, b: nat): nat {
    if a + b <= U32_MAX then a + b else U32_MAX
  }

  ghost predicate StrictlyIncreasing(s: seq<nat>) {
    forall i, j :: 0 <= i < j < |s| ==> s[i] < s[j]
  }

  /** The members of `s` at or above `c`. */
  ghost function From(s: set<nat>, c: nat): set<nat> {
    set x | x in s && c <= x
  }

  lemma FromStep(s: set<nat>, c: nat)
    ensures |From(s, c)| == |From(s, c + 1)| + (if c in s then 1 else 0)
  {
    if c in s {
      assert From(s, c) == From(s, c + 1) + {c};
    } else {
      assert From(s, c) == From(s, c + 1);
    }
  }

  ghost function Below(s: set<nat>, c: nat): set<nat> {
    set x | x in s && x < c
  }

  /** All n with lo <= n < hi. */
  ghost function Interval(lo: nat, hi: nat): (r: set<nat>)
    ensures forall x: nat :: x in r <==> lo <= x < hi
    ensures |r| == SatSub(hi, lo)
    decreases hi
  {
    if lo < hi then Interval(lo, hi - 1) + {hi - 1} else {}
  }

  lemma {:induction false} SubsetSize<T>(a: set<T>, b: set<T>)
    requires a <= b
    ensures |a| <= |b|
    ensures |a| == |b| ==> a == b
    decreases a
  {
    if a != {} {
      var x :| x in a;
      SubsetSize(a - {x}, b - {x});
      if |a| == |b| {
        assert a == (a - {x}) + {x} == (b - {x}) + {x} == b;
      }
    } else if |b| == 0 {
      assert b == {};
    }
  }

  lemma SplitSize(s: set<nat>, c: nat)
    ensures |s| == |Below(s, c)| + |From(s, c)|
  {
    assert s == Below(s, c) + From(s, c);
  }

  ghost function Elements(s: seq<nat>): set<nat> {
    set x | x in s
  }

  lemma {:induction false} IncreasingSize(s: seq<nat>)
    requires StrictlyIncreasing(s)
    ensures |Elements(s)| == |s|
  {
    if s != [] {
      var rest := s[..|s| - 1];
      IncreasingSize(rest);
      assert Elements(s) == Elements(rest) + {s[|s| - 1]};
    }
  }

  /** A strictly increasing list is determined by its members. */
  lemma {:induction false} IncreasingUnique(a: seq<nat>, b: seq<nat>)
    requires StrictlyIncreasing(a) && StrictlyIncreasing(b)
    requires forall x :: x in a <==> x in b
    ensures a == b
    decreases |a|
  {
    IncreasingSize(a);
    IncreasingSize(b);
    assert Elements(a) == Elements(b);
    if a != [] {
      assert a[0] in a;
      assert b[0] in b;
      assert a[0] == b[0];
      forall x ensures x in a[1..] <==> x in b[1..] {
        assert x in a[1..] <==> x in a && x != a[0];
        assert x in b[1..] <==> x in b && x != b[0];
      }
      IncreasingUnique(a[1..], b[1..]);
      assert a == [a[0]] + a[1..] && b == [b[0]] + b[1..];
    }
  }
}
