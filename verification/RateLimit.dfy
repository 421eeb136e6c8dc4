/** The limiter of failed authentications: one bucket per client and scope, at most MAX_BUCKETS. */
module RateLimit {
  import opened Prelude

  // Times are nanoseconds of a monotonic clock.
  const SECOND: int := 1_000_000_000
  const MAX_FAILURES: nat := 5
  const WINDOW: int := 60 * SECOND
  const BLOCK: int := 60 * SECOND
  const MAX_BUCKETS: nat := 10_000

  datatype Bucket = Bucket(failures: nat, firstFailureAt: int, blockedUntil: Option<int>)

  type Buckets = map<string, Bucket>

  // ---- One client: its bucket, if any ----

  predicate Expired(b: Bucket, now: int) {
    now - b.firstFailureAt > WINDOW
  }

  predicate Refused(lane: Option<Bucket>, now: int) {
    lane.Some? && !Expired(lane.value, now) && lane.value.blockedUntil.Some? && now < lane.value.blockedUntil.value
  }

  function Checked(lane: Option<Bucket>, now: int): Option<Bucket> {
    if lane.Some? && (Expired(lane.value, now) ||
      (lane.value.blockedUntil.Some? && lane.value.blockedUntil.value <= now))
    then None else lane
  }

  function Failed(lane: Option<Bucket>, now: int): Bucket {
    var b := if lane.None? || Expired(lane.value, now) then Bucket(0, now, None) else lane.value;
    var failures := SatAdd32(b.failures, 1);
    Bucket(failures, b.firstFailureAt, if MAX_FAILURES <= failures then Some(now + BLOCK) else b.blockedUntil)
  }

  // ---- All clients ----

  datatype Op = Check(key: string, now: int) | Fail(key: string, now: int) | Clear(key: string)

  function Lane(m: Buckets, key: string): Option<Bucket> {
    if key in m then Some(m[key]) else None
  }

  ghost predicate IsOldest(m: Buckets, key: string) {
    key in m && forall k :: k in m ==> m[key].firstFailureAt <= m[k].firstFailureAt
  }

  /** `m1` is `m` without one of its oldest buckets. */
  ghost predicate Evicted(m: Buckets, m1: Buckets) {
    exists oldest :: IsOldest(m, oldest) && m1 == m - {oldest}
  }

  /** Which of several equally old buckets goes is left open. */
  ghost predicate Steps(m: Buckets, op: Op, m1: Buckets) {
    match op
    case Check(key, now) => m1 == if Checked(Lane(m, key), now).None? then m - {key} else m
    case Fail(key, now) =>
      if key !in m && MAX_BUCKETS <= |m|
      then exists base :: Evicted(m, base) && m1 == base[key := Failed(None, now)]
      else m1 == m[key := Failed(Lane(m, key), now)]
    case Clear(key) => m1 == m - {key}
  }

  lemma RemovalSize(m: Buckets, key: string)
    ensures |m - {key}| == if key in m then |m| - 1 else |m|
  {
    assert (m - {key}).Keys == m.Keys - {key};
    assert key !in m ==> m - {key} == m;
  }

  lemma InsertionSize(m: Buckets, key: string, b: Bucket)
    ensures |m[key := b]| == if key in m then |m| else |m| + 1
  {
    assert m[key := b].Keys == m.Keys + {key};
  }

  class RateLimiter {
    var buckets: Buckets

    ghost predicate Valid()
      reads this
    {
      |buckets| <= MAX_BUCKETS
    }

    constructor ()
      ensures Valid() && buckets == map[]
    {
      buckets := map[];
    }

    /** The answer to a refused client is when to try again, in whole seconds and not at once. */
    method CheckRateLimit(key: string, now: int) returns (retryAfter: Option<int>)
      requires Valid()
      modifies this
      ensures Valid() && Steps(old(buckets), Check(key, now), buckets)
      ensures retryAfter.Some? <==> Refused(Lane(old(buckets), key), now)
      ensures retryAfter.Some? ==>
                var wait := old(buckets)[key].blockedUntil.value - now;
                1 <= retryAfter.value && retryAfter.value * 1_000_000_000 <= Max(wait, 1_000_000_000)
                  < (retryAfter.value + 1) * 1_000_000_000
      ensures retryAfter.Some? ==> buckets == old(buckets)
    {
      RemovalSize(buckets, key);
      if key !in buckets {
        assert buckets == buckets - {key};
        return None;
      }
      var bucket := buckets[key];
      if now - bucket.firstFailureAt > WINDOW {
        buckets := buckets - {key};
        return None;
      }
      if bucket.blockedUntil.Some? {
        if bucket.blockedUntil.value > now {
          var seconds := (bucket.blockedUntil.value - now) / SECOND;
          return Some(Max(seconds, 1));
        }
        buckets := buckets - {key};
      }
      retryAfter := None;
    }

    method EvictOldestBucket()
      requires buckets != map[]
      modifies this
      ensures Evicted(old(buckets), buckets) && |buckets| == |old(buckets)| - 1
      ensures forall k, rest :: k in old(buckets) && k !in buckets && rest in buckets ==>
                old(buckets)[k].firstFailureAt <= buckets[rest].firstFailureAt
    {
      var oldest :| oldest in buckets;
      var rest := buckets.Keys - {oldest};
      while rest != {}
        invariant oldest in buckets && rest <= buckets.Keys
        invariant forall k :: k in buckets && k !in rest ==> buckets[oldest].firstFailureAt <= buckets[k].firstFailureAt
        decreases |rest|
      {
        var k :| k in rest;
        if buckets[k].firstFailureAt < buckets[oldest].firstFailureAt {
          oldest := k;
        }
        rest := rest - {k};
      }
      assert IsOldest(buckets, oldest);
      RemovalSize(buckets, oldest);
      buckets := buckets - {oldest};
    }

    method RecordAuthFailure(key: string, now: int)
      requires Valid()
      modifies this
      ensures Valid() && Steps(old(buckets), Fail(key, now), buckets)
    {
      if key !in buckets && |buckets| >= MAX_BUCKETS {
        EvictOldestBucket();
      }
      var bucket := if key in buckets then buckets[key] else Bucket(0, now, None);
      if now - bucket.firstFailureAt > WINDOW {
        bucket := Bucket(0, now, None);
      }
      bucket := bucket.(failures := SatAdd32(bucket.failures, 1));
      if bucket.failures >= MAX_FAILURES {
        bucket := bucket.(blockedUntil := Some(now + BLOCK));
      }
      InsertionSize(buckets, key, bucket);
      buckets := buckets[key := bucket];
    }

    method ClearAuthFailures(key: string)
      requires Valid()
      modifies this
      ensures Valid() && Steps(old(buckets), Clear(key), buckets)
    {
      RemovalSize(buckets, key);
      buckets := buckets - {key};
    }
  }

  // ---- Whole runs ----

  ghost predicate Trace(ms: seq<Buckets>, ops: seq<Op>) {
    |ms| == |ops| + 1 && forall i :: 0 <= i < |ops| ==> Steps(ms[i], ops[i], ms[i + 1])
  }

  function LaneStep(lane: Option<Bucket>, op: Op): Option<Bucket> {
    match op
    case Check(_, now) => Checked(lane, now)
    case Fail(_, now) => Some(Failed(lane, now))
    case Clear(_) => None
  }

  /** One step seen from one client: its own operations work on its bucket alone, and those of others
      leave it alone, unless they evict it as an oldest one from a full map. The client whose failure
      is recorded is never the one evicted. */
  lemma StepOnLane(m: Buckets, op: Op, m1: Buckets, key: string)
    requires Steps(m, op, m1)
    ensures op.key == key ==> Lane(m1, key) == LaneStep(Lane(m, key), op)
    ensures op.key != key ==>
              || Lane(m1, key) == Lane(m, key)
              || (op.Fail? && 10_000 <= |m| && op.key !in m && key in m && key !in m1
                  && forall k :: k in m ==> m[key].firstFailureAt <= m[k].firstFailureAt)
  {
  }

  lemma StepBounded(m: Buckets, op: Op, m1: Buckets)
    requires Steps(m, op, m1) && |m| <= MAX_BUCKETS
    ensures |m1| <= MAX_BUCKETS
  {
    RemovalSize(m, op.key);
    if op.Fail? {
      InsertionSize(m, op.key, Failed(Lane(m, op.key), op.now));
      if op.key !in m && MAX_BUCKETS <= |m| {
        var base :| Evicted(m, base) && m1 == base[op.key := Failed(None, op.now)];
        var oldest :| IsOldest(m, oldest) && base == m - {oldest};
        RemovalSize(m, oldest);
        InsertionSize(base, op.key, Failed(None, op.now));
      }
    }
  }

  /** The map never outgrows its bound. */
  lemma {:induction false} MapBounded(ms: seq<Buckets>, ops: seq<Op>)
    requires Trace(ms, ops) && |ms[0]| <= 10_000
    ensures forall i :: 0 <= i < |ms| ==> |ms[i]| <= 10_000
    decreases |ops|
  {
    if ops != [] {
      var n := |ops| - 1;
      MapBounded(ms[..n + 1], ops[..n]);
      assert |ms[..n + 1][n]| <= MAX_BUCKETS;
      StepBounded(ms[n], ops[n], ms[n + 1]);
      forall i | 0 <= i < |ms| ensures |ms[i]| <= MAX_BUCKETS {
        assert i <= n ==> ms[..n + 1][i] == ms[i];
      }
    }
  }

  // ---- How fast one client can fail ----

  /** The client's bucket after its own operations. */
  function LaneAfter(ops: seq<Op>): Option<Bucket> {
    if ops == [] then None else LaneStep(LaneAfter(ops[..|ops| - 1]), ops[|ops| - 1])
  }

  /** A recorded failure, the window it falls in and its place there. */
  datatype Mark = Mark(at: int, start: int, window: nat, rank: nat)

  ghost function NextMark(marks: seq<Mark>, b: Bucket, at: int): Mark {
    var last := if marks == [] then 0 else marks[|marks| - 1].window + 1;
    Mark(at, b.firstFailureAt, if b.failures == 1 || last == 0 then last else last - 1, b.failures)
  }

  /** The failures recorded, in order. */
  ghost function Marks(ops: seq<Op>): seq<Mark> {
    if ops == [] then []
    else
      var marks := Marks(ops[..|ops| - 1]);
      if ops[|ops| - 1].Fail? then marks + [NextMark(marks, LaneAfter(ops).value, ops[|ops| - 1].now)] else marks
  }

  /** An operation that may follow: time does not run back, and a failure is recorded only by a request
      that was let in, right after its check. */
  ghost predicate Fits(ops: seq<Op>, op: Op) {
    && !op.Clear? && (ops == [] || (!ops[|ops| - 1].Clear? && ops[|ops| - 1].now <= op.now))
    && (op.Fail? ==> ops != [] && ops[|ops| - 1].Check? && !Refused(LaneAfter(ops[..|ops| - 1]), ops[|ops| - 1].now))
  }

  /** Requests of one client one after the other, and nothing cleared. */
  ghost predicate OneByOne(ops: seq<Op>) {
    ops == [] || (OneByOne(ops[..|ops| - 1]) && Fits(ops[..|ops| - 1], ops[|ops| - 1]))
  }

  ghost predicate Follows(m: Mark, n: Mark) {
    && m.at <= n.at
    && (|| (n.window == m.window && n.start == m.start && n.rank == m.rank + 1)
        || (n.window == m.window + 1 && m.start + WINDOW <= n.start && n.rank == 1))
  }

  ghost predicate WellMarked(marks: seq<Mark>) {
    && (forall i :: 0 <= i < |marks| ==>
         1 <= marks[i].rank <= MAX_FAILURES && marks[i].start <= marks[i].at <= marks[i].start + WINDOW
         && (marks[i].rank == 1 ==> marks[i].at == marks[i].start))
    && (forall i :: 0 < i < |marks| ==> Follows(marks[i - 1], marks[i]))
    && (marks != [] ==> marks[0].rank == 1)
  }

  /** The bucket is that of the last failure, unless its window is over. */
  ghost predicate InStep(lane: Option<Bucket>, marks: seq<Mark>, now: int) {
    if marks == [] then lane.None?
    else
      var last := marks[|marks| - 1];
      && last.at <= now
      && (lane.None? ==> last.start + WINDOW <= now)
      && (lane.Some? ==>
            lane.value == Bucket(last.rank, last.start,
              if last.rank == MAX_FAILURES then Some(last.at + BLOCK) else None))
  }

  lemma FailStep(lane: Option<Bucket>, marks: seq<Mark>, before: int, now: int)
    requires WellMarked(marks) && InStep(lane, marks, before) && before <= now
    requires lane.Some? ==> lane.value.blockedUntil.None?
    ensures var more := marks + [NextMark(marks, Failed(lane, now), now)];
            WellMarked(more) && InStep(Some(Failed(lane, now)), more, now)
  {
  }

  lemma {:induction false} MarksSound(ops: seq<Op>)
    requires OneByOne(ops)
    ensures WellMarked(Marks(ops))
    ensures ops != [] ==> InStep(LaneAfter(ops), Marks(ops), ops[|ops| - 1].now)
    ensures ops == [] ==> Marks(ops) == []
    ensures ops != [] && ops[|ops| - 1].Check? && !Refused(LaneAfter(ops[..|ops| - 1]), ops[|ops| - 1].now) ==>
              LaneAfter(ops).None? || LaneAfter(ops).value.blockedUntil.None?
  {
    if ops != [] {
      var n := |ops| - 1;
      MarksSound(ops[..n]);
      if ops[n].Fail? {
        assert ops[..n][..n - 1] == ops[..n - 1];
        FailStep(LaneAfter(ops[..n]), Marks(ops[..n]), ops[n - 1].now, ops[n].now);
      }
    }
  }

  /** Between two failures: as many windows apart, as many windows of time. */
  lemma {:induction false} Spread(marks: seq<Mark>, i: nat, j: nat)
    requires WellMarked(marks) && i <= j < |marks|
    ensures marks[i].at <= marks[j].at && marks[i].window <= marks[j].window
    ensures marks[i].start + WINDOW * (marks[j].window - marks[i].window) <= marks[j].start
    ensures MAX_FAILURES * marks[i].window + marks[i].rank + (j - i) <= MAX_FAILURES * marks[j].window + marks[j].rank
    decreases j
  {
    if i < j {
      Spread(marks, i, j - 1);
      assert Follows(marks[j - 1], marks[j]);
    }
  }

  lemma WholeWindows(d: int, t: int)
    requires WINDOW * d <= t
    ensures d <= t / WINDOW
  {
  }

  /** The rate bound. Within any time from one recorded failure to another there are at most five per
      whole window and nine more; from the first failure on, five per window begun. */
  lemma RateBound(ops: seq<Op>, i: nat, j: nat)
    requires OneByOne(ops) && i <= j < |Marks(ops)|
    ensures var t := Marks(ops)[j].at - Marks(ops)[i].at;
            && 0 <= t
            && j - i + 1 <= 5 * (t / 60_000_000_000) + 9
            && (i == 0 ==> j + 1 <= 5 * (t / 60_000_000_000 + 1))
  {
    MarksSound(ops);
    var m, n := Marks(ops)[i], Marks(ops)[j];
    Spread(Marks(ops), i, j);
    var d := n.window - m.window;
    WholeWindows(if m.rank == 1 then d else d - 1, n.at - m.at);
  }

  function Own(ops: seq<Op>, key: string): seq<Op> {
    if ops == [] then []
    else
      var own := Own(ops[..|ops| - 1], key);
      if ops[|ops| - 1].key == key then own + [ops[|ops| - 1]] else own
  }

  /** The bucket in the map is the one that the client's own operations leave, as long as no operation
      of another client evicts it. */
  lemma {:induction false} LaneFollows(ms: seq<Buckets>, ops: seq<Op>, key: string)
    requires Trace(ms, ops) && key !in ms[0]
    requires forall i :: 0 <= i < |ops| && ops[i].key != key && key in ms[i] ==> key in ms[i + 1]
    ensures Lane(ms[|ops|], key) == LaneAfter(Own(ops, key))
    decreases |ops|
  {
    if ops != [] {
      var n := |ops| - 1;
      LaneFollows(ms[..n + 1], ops[..n], key);
      StepOnLane(ms[n], ops[n], ms[n + 1], key);
      var own := Own(ops[..n], key);
      if ops[n].key == key {
        assert (own + [ops[n]])[..|own|] == own;
      }
    }
  }

  // ---- The bound on whole runs of the map ----

  /** Where the client's latest operation stands. */
  function LastOwn(ops: seq<Op>, key: string): (p: Option<nat>)
    ensures p.Some? ==> p.value < |ops|
  {
    if ops == [] then None
    else if ops[|ops| - 1].key == key then Some(|ops| - 1) else LastOwn(ops[..|ops| - 1], key)
  }

  /** As `OneByOne`, of the client's requests among those of all others: the map answers their checks. */
  ghost predicate OneByOneIn(ms: seq<Buckets>, ops: seq<Op>, key: string)
    requires |ms| == |ops| + 1
  {
    ops == [] || (
      var n := |ops| - 1;
      var p, op := LastOwn(ops[..n], key), ops[n];
      && OneByOneIn(ms[..n + 1], ops[..n], key)
      && (op.key == key ==>
           && !op.Clear? && (p.Some? ==> !ops[p.value].Clear? && ops[p.value].now <= op.now)
           && (op.Fail? ==> p.Some? && ops[p.value].Check? && !Refused(Lane(ms[p.value], key), ops[p.value].now))))
  }

  ghost predicate NeverEvicted(ms: seq<Buckets>, ops: seq<Op>, key: string)
    requires |ms| == |ops| + 1
  {
    forall i :: 0 <= i < |ops| && ops[i].key != key && key in ms[i] ==> key in ms[i + 1]
  }

  /** When the client's failures were recorded. */
  function FailTimes(ops: seq<Op>, key: string): seq<int> {
    if ops == [] then []
    else
      var op := ops[|ops| - 1];
      FailTimes(ops[..|ops| - 1], key) + (if op.key == key && op.Fail? then [op.now] else [])
  }

  lemma {:induction false} OwnLast(ops: seq<Op>, key: string)
    ensures var p := LastOwn(ops, key);
            if p.None? then Own(ops, key) == [] else Own(ops, key) == Own(ops[..p.value], key) + [ops[p.value]]
  {
    if ops != [] && ops[|ops| - 1].key != key {
      OwnLast(ops[..|ops| - 1], key);
      var p := LastOwn(ops, key);
      assert p.Some? ==> ops[..|ops| - 1][..p.value] == ops[..p.value];
    }
  }

  lemma {:induction false} OwnMarks(ops: seq<Op>, key: string)
    requires OneByOne(Own(ops, key))
    ensures |Marks(Own(ops, key))| == |FailTimes(ops, key)|
    ensures forall i :: 0 <= i < |FailTimes(ops, key)| ==> Marks(Own(ops, key))[i].at == FailTimes(ops, key)[i]
  {
    if ops != [] {
      var own := Own(ops[..|ops| - 1], key);
      if ops[|ops| - 1].key == key {
        assert (own + [ops[|ops| - 1]])[..|own|] == own;
      }
      OwnMarks(ops[..|ops| - 1], key);
    }
  }

  lemma LaneAt(ms: seq<Buckets>, ops: seq<Op>, key: string, p: nat)
    requires Trace(ms, ops) && key !in ms[0] && NeverEvicted(ms, ops, key) && p <= |ops|
    ensures Lane(ms[p], key) == LaneAfter(Own(ops[..p], key))
  {
    LaneFollows(ms[..p + 1], ops[..p], key);
  }

  lemma OwnFits(ms: seq<Buckets>, ops: seq<Op>, key: string)
    requires Trace(ms, ops) && key !in ms[0] && NeverEvicted(ms, ops, key) && OneByOneIn(ms, ops, key)
    requires ops != [] && ops[|ops| - 1].key == key
    ensures Fits(Own(ops[..|ops| - 1], key), ops[|ops| - 1])
  {
    var before := ops[..|ops| - 1];
    var p := LastOwn(before, key);
    OwnLast(before, key);
    if p.Some? {
      var q := p.value;
      assert before[..q] == ops[..q] && before[q] == ops[q];
      LaneAt(ms, ops, key, q);
      var own := Own(before, key);
      assert own[..|own| - 1] == Own(ops[..q], key);
    }
  }

  lemma {:induction false} OwnOneByOne(ms: seq<Buckets>, ops: seq<Op>, key: string)
    requires Trace(ms, ops) && key !in ms[0] && NeverEvicted(ms, ops, key) && OneByOneIn(ms, ops, key)
    ensures OneByOne(Own(ops, key))
    decreases |ops|
  {
    if ops != [] {
      var n := |ops| - 1;
      OwnOneByOne(ms[..n + 1], ops[..n], key);
      if ops[n].key == key {
        OwnFits(ms, ops, key);
        var own := Own(ops[..n], key);
        assert (own + [ops[n]])[..|own|] == own;
      }
    }
  }

  /** The rate bound on the map: in every run from the empty map, among any number of other clients, if the
      client is never evicted and its requests come one by one. */
  lemma RateBoundInRun(ms: seq<Buckets>, ops: seq<Op>, key: string, i: nat, j: nat)
    requires Trace(ms, ops) && ms[0] == map[] && NeverEvicted(ms, ops, key) && OneByOneIn(ms, ops, key)
    requires i <= j < |FailTimes(ops, key)|
    ensures var t := FailTimes(ops, key)[j] - FailTimes(ops, key)[i];
            && 0 <= t
            && j - i + 1 <= 5 * (t / 60_000_000_000) + 9
            && (i == 0 ==> j + 1 <= 5 * (t / 60_000_000_000 + 1))
  {
    OwnOneByOne(ms, ops, key);
    OwnMarks(ops, key);
    RateBound(Own(ops, key), i, j);
  }

  // ---- The bound is attained ----

  lemma Append(ops: seq<Op>, op: Op)
    requires OneByOne(ops) && Fits(ops, op)
    ensures OneByOne(ops + [op])
    ensures LaneAfter(ops + [op]) == LaneStep(LaneAfter(ops), op)
    ensures Marks(ops + [op]) ==
            if op.Fail? then Marks(ops) + [NextMark(Marks(ops), LaneAfter(ops + [op]).value, op.now)] else Marks(ops)
  {
    assert (ops + [op])[..|ops|] == ops;
  }

  ghost predicate Only(ops: seq<Op>, key: string) {
    forall i :: 0 <= i < |ops| ==> ops[i].key == key
  }

  /** `more` adds n failures of the client to `ops`, the last of them at `t`, and leaves the bucket `b`. */
  ghost predicate Adds(ops: seq<Op>, key: string, more: seq<Op>, n: nat, t: int, b: Bucket) {
    && Only(more, key) && OneByOne(more) && more != [] && more[|more| - 1].now == t && LaneAfter(more) == Some(b)
    && Marks(ops) <= Marks(more) && |Marks(more)| == |Marks(ops)| + n
    && Marks(more) != [] && Marks(more)[|Marks(more)| - 1].at == t
  }

  lemma Guess(ops: seq<Op>, key: string, t: int) returns (more: seq<Op>)
    requires Only(ops, key) && OneByOne(ops) && (ops == [] || ops[|ops| - 1].now <= t) && !Refused(LaneAfter(ops), t)
    ensures Adds(ops, key, more, 1, t, Failed(Checked(LaneAfter(ops), t), t))
  {
    Append(ops, Check(key, t));
    var mid := ops + [Check(key, t)];
    assert mid[..|mid| - 1] == ops;
    Append(mid, Fail(key, t));
    more := mid + [Fail(key, t)];
  }

  lemma {:induction false} Guesses(ops: seq<Op>, key: string, t: int, b: Bucket, n: nat) returns (more: seq<Op>)
    requires Only(ops, key) && OneByOne(ops) && ops != [] && ops[|ops| - 1].now <= t && LaneAfter(ops) == Some(b)
    requires !Expired(b, t) && b.blockedUntil.None? && 1 <= n && b.failures + n == MAX_FAILURES
    ensures Adds(ops, key, more, n, t, Bucket(MAX_FAILURES, b.firstFailureAt, Some(t + BLOCK)))
    decreases n
  {
    more := Guess(ops, key, t);
    if 1 < n {
      more := Guesses(more, key, t, b.(failures := b.failures + 1), n - 1);
    }
  }

  /** Five guesses at `t`, five more a window later, and so on, n times. */
  lemma {:induction false} Rounds(ops: seq<Op>, key: string, t: int, n: nat) returns (more: seq<Op>)
    requires Only(ops, key) && OneByOne(ops) && (ops == [] || ops[|ops| - 1].now <= t)
    requires 1 <= n && !Refused(LaneAfter(ops), t) && Checked(LaneAfter(ops), t).None?
    ensures var last := t + WINDOW * (n - 1);
            Adds(ops, key, more, MAX_FAILURES * n, last, Bucket(MAX_FAILURES, last, Some(last + BLOCK)))
    decreases n
  {
    more := Guess(ops, key, t);
    more := Guesses(more, key, t, Bucket(1, t, None), 4);
    if 1 < n {
      more := Rounds(more, key, t + WINDOW, n - 1);
    }
  }

  function Stepped(m: Buckets, op: Op): Buckets {
    match op
    case Check(key, now) => if Checked(Lane(m, key), now).None? then m - {key} else m
    case Fail(key, now) => m[key := Failed(Lane(m, key), now)]
    case Clear(key) => m - {key}
  }

  lemma StepsAlone(m: Buckets, op: Op)
    requires m.Keys <= {op.key}
    ensures Steps(m, op, Stepped(m, op)) && Stepped(m, op).Keys <= {op.key}
  {
    assert |m| == |m.Keys|;
    assert op.key !in m ==> m.Keys == {};
  }

  lemma {:induction false} OwnAlone(ops: seq<Op>, key: string)
    requires Only(ops, key)
    ensures Own(ops, key) == ops
  {
    if ops != [] {
      var n := |ops| - 1;
      assert ops[n].key == key && ops == ops[..n] + [ops[n]];
      assert Only(ops[..n], key);
      OwnAlone(ops[..n], key);
    }
  }

  lemma AloneFits(before: seq<Buckets>, ops: seq<Op>, key: string)
    requires ops != [] && OneByOne(ops) && Only(ops, key)
    requires Trace(before, ops[..|ops| - 1]) && before[0] == map[] && NeverEvicted(before, ops[..|ops| - 1], key)
    ensures var n := |ops| - 1; var p := LastOwn(ops[..n], key);
            && (p.None? ==> n == 0) && (p.Some? ==> p.value == n - 1)
            && (ops[n].Fail? ==> 0 < n && !Refused(Lane(before[n - 1], key), ops[n - 1].now))
  {
    var n := |ops| - 1;
    if 0 < n {
      LaneAt(before, ops[..n], key, n - 1);
      assert ops[..n][..n - 1] == ops[..n - 1];
      OwnAlone(ops[..n - 1], key);
    }
  }

  /** What one client can do on its own happens in a run of the whole map. */
  lemma {:induction false} RunAlone(ops: seq<Op>, key: string) returns (ms: seq<Buckets>)
    requires OneByOne(ops) && Only(ops, key)
    ensures Trace(ms, ops) && ms[0] == map[] && ms[|ops|].Keys <= {key}
    ensures NeverEvicted(ms, ops, key) && OneByOneIn(ms, ops, key)
    decreases |ops|
  {
    if ops == [] {
      ms := [map[]];
    } else {
      var n := |ops| - 1;
      var before := RunAlone(ops[..n], key);
      ms := before + [Stepped(before[n], ops[n])];
      StepsAlone(before[n], ops[n]);
      assert ms[..n + 1] == before;
      AloneFits(before, ops, key);
      forall i | 0 <= i < |ops| ensures Steps(ms[i], ops[i], ms[i + 1]) {
        if i < n {
          assert Steps(before[i], ops[..n][i], before[i + 1]);
        }
      }
    }
  }

  lemma AloneInRun(ops: seq<Op>, key: string) returns (ms: seq<Buckets>)
    requires OneByOne(ops) && Only(ops, key)
    ensures Trace(ms, ops) && ms[0] == map[] && NeverEvicted(ms, ops, key) && OneByOneIn(ms, ops, key)
    ensures |FailTimes(ops, key)| == |Marks(ops)|
    ensures forall i :: 0 <= i < |Marks(ops)| ==> FailTimes(ops, key)[i] == Marks(ops)[i].at
  {
    ms := RunAlone(ops, key);
    OwnAlone(ops, key);
    OwnMarks(ops, key);
  }

  lemma FivePerWindow(key: string, n: nat) returns (ops: seq<Op>)
    ensures Only(ops, key) && OneByOne(ops) && |Marks(ops)| == MAX_FAILURES * (n + 1)
    ensures Marks(ops)[|Marks(ops)| - 1].at - Marks(ops)[0].at == WINDOW * n
  {
    var one := Guess([], key, 0);
    ops := Guesses(one, key, 0, Bucket(1, 0, None), 4);
    if 0 < n {
      ops := Rounds(ops, key, WINDOW, n);
    }
    assert Marks(ops)[0] == Marks(one)[0];
  }

  /** One guess, four when its window ends, and five right after that. */
  lemma NineMore(key: string, n: nat) returns (ops: seq<Op>)
    ensures Only(ops, key) && OneByOne(ops) && |Marks(ops)| == 1 + MAX_FAILURES * n + 9
    ensures Marks(ops)[|Marks(ops)| - 1].at - Marks(ops)[1].at == WINDOW * n + 1
  {
    var one := Guess([], key, 0);
    var two := Guess(one, key, WINDOW);
    ops := Guesses(two, key, WINDOW, Bucket(2, 0, None), 3);
    ops := Rounds(ops, key, WINDOW + 1, n + 1);
    assert Marks(ops)[1] == Marks(two)[1];
  }

  /** Neither bound can be lowered. However many windows: there is a run of the map with five failures per
      window begun after the first one, */
  lemma FirstBoundAttained(key: string, n: nat) returns (ms: seq<Buckets>, ops: seq<Op>)
    ensures Trace(ms, ops) && ms[0] == map[] && NeverEvicted(ms, ops, key) && OneByOneIn(ms, ops, key)
    ensures var times := FailTimes(ops, key);
            |times| == 5 * (n + 1) && times[|times| - 1] - times[0] == 60_000_000_000 * n
  {
    ops := FivePerWindow(key, n);
    ms := AloneInRun(ops, key);
  }

  /** and one with five per window and nine more after a later one. */
  lemma AnyBoundAttained(key: string, n: nat) returns (ms: seq<Buckets>, ops: seq<Op>)
    ensures Trace(ms, ops) && ms[0] == map[] && NeverEvicted(ms, ops, key) && OneByOneIn(ms, ops, key)
    ensures var times := FailTimes(ops, key);
            |times| == 1 + 5 * n + 9 && (times[|times| - 1] - times[1]) / 60_000_000_000 == n
  {
    ops := NineMore(key, n);
    ms := AloneInRun(ops, key);
  }

  /** How long the block set by a failure lasts: while the window of the first failure does. It lasts
      the whole block time exactly when the failures came all at once. */
  lemma BlockLastsExactly(lane: Option<Bucket>, at: int)
    requires Failed(lane, at).failures >= 5
    ensures var b := Failed(lane, at);
            && (forall now :: at <= now ==>
                 (Refused(Some(b), now) <==> now < at + 60_000_000_000 && now <= b.firstFailureAt + 60_000_000_000))
            && ((forall now :: at <= now < at + 60_000_000_000 ==> Refused(Some(b), now)) <==>
                 at - b.firstFailureAt <= 1)
  {
    var b := Failed(lane, at);
    assert Refused(Some(b), at + BLOCK - 1) <==> at + BLOCK - 1 <= b.firstFailureAt + WINDOW;
  }
}
