/** Several processes updating one store file under a lock, each of which may fail or crash at any
    point: the file is always the result of whole updates, one after the other. */
module CrashStore {
  import opened Prelude
  import A = AdminStore
  import E = EnrollmentTheory

  /** What a mutation of the loaded snapshot comes to: save the result, or refuse and save nothing. */
  datatype Effect<S> = Save(s: S) | Refuse

  /** The contents of a fresh store, and what each update does. */
  datatype Updates<!S, !X> = Updates(fresh0: S, effect: (X, S) -> Effect<S>)

  datatype Content<S> = Partial | Complete(s: S)

  datatype Phase<S, X> =
    | Idle
    | Waiting(x: X)
    | Locked(x: X)
    | Loaded(x: X, seen: S)
    | Mutated(x: X, result: S)
    | Opened(x: X, result: S, temp: string)
    | Written(x: X, result: S, temp: string)
    | Renamed(x: X)

  /** The store file (absent at first), the temporary files beside it, the lock, the processes; and,
      for the record, the updates as they got the lock, as they were renamed into place, and those answered
      with success. */
  datatype System<S, X> = System(file: Option<Content<S>>, temps: map<string, Content<S>>, lock: Option<nat>,
                                 procs: map<nat, Phase<S, X>>, acquired: seq<X>, log: seq<X>,
                                 answered: multiset<X>)

  datatype Action<X> =
    | Begin(p: nat, x: X)
    | Acquire(p: nat)
    | Load(p: nat)
    | Mutate(p: nat)
    | Open(p: nat, temp: string)
    | Write(p: nat)
    | Rename(p: nat)
    | Finish(p: nat)
    | Fail(p: nat)
    | Crash(p: nat)

  ghost predicate HoldsLock<S, X>(ph: Phase<S, X>) {
    !ph.Idle? && !ph.Waiting?
  }

  ghost function PhaseOf<S, X>(sys: System<S, X>, p: nat): Phase<S, X> {
    if p in sys.procs then sys.procs[p] else Idle
  }

  ghost function To<S, X>(sys: System<S, X>, p: nat, ph: Phase<S, X>): System<S, X> {
    sys.(procs := sys.procs[p := ph])
  }

  /** The process leaves the critical section, or dies and has its lock taken away. */
  ghost function Leave<S, X>(sys: System<S, X>, p: nat): System<S, X> {
    To(sys, p, Idle).(lock := if sys.lock == Some(p) then None else sys.lock)
  }

  ghost function Drop<S, X>(sys: System<S, X>, temp: string): System<S, X> {
    sys.(temps := sys.temps - {temp})
  }

  /** One step; an action that is not possible in the state changes nothing. */
  ghost function Act<S, X>(u: Updates<S, X>, sys: System<S, X>, a: Action<X>): System<S, X> {
    var ph := PhaseOf(sys, a.p);
    match a
    case Begin(p, x) => if ph.Idle? then To(sys, p, Waiting(x)) else sys
    case Acquire(p) =>
      if ph.Waiting? && sys.lock.None? then
        To(sys, p, Locked(ph.x)).(lock := Some(p), acquired := sys.acquired + [ph.x])
      else sys
    case Load(p) =>
      if !ph.Locked? then sys
      else if sys.file.None? then To(sys, p, Loaded(ph.x, u.fresh0))
      else if sys.file.value.Partial? then Leave(sys, p)
      else To(sys, p, Loaded(ph.x, sys.file.value.s))
    case Mutate(p) =>
      if !ph.Loaded? then sys
      else (match u.effect(ph.x, ph.seen)
            case Save(s) => To(sys, p, Mutated(ph.x, s))
            case Refuse => Leave(sys, p))
    case Open(p, temp) =>
      if !ph.Mutated? then sys
      else if temp in sys.temps then Drop(Leave(sys, p), temp)
      else To(sys, p, Opened(ph.x, ph.result, temp)).(temps := sys.temps[temp := Partial])
    case Write(p) =>
      if !ph.Opened? then sys
      else To(sys, p, Written(ph.x, ph.result, ph.temp)).(temps := sys.temps[ph.temp := Complete(ph.result)])
    case Rename(p) =>
      if !ph.Written? then sys
      else if ph.temp !in sys.temps then Leave(sys, p)
      else Drop(To(sys, p, Renamed(ph.x)), ph.temp).(file := Some(sys.temps[ph.temp]), log := sys.log + [ph.x])
    case Finish(p) =>
      if !ph.Renamed? then sys else Leave(sys, p).(answered := sys.answered + multiset{ph.x})
    case Fail(p) =>
      if ph.Opened? then Drop(Leave(sys, p), ph.temp)
      else if ph.Written? then Drop(Leave(sys, p), ph.temp)
      else Leave(sys, p)
    case Crash(p) => Leave(sys, p)
  }

  ghost function Run<S, X>(u: Updates<S, X>, acts: seq<Action<X>>): System<S, X> {
    if acts == [] then System(None, map[], None, map[], [], [], multiset{})
    else Act(u, Run(u, acts[..|acts| - 1]), acts[|acts| - 1])
  }

  /** The updates one after the other, each on the result of the one before. */
  ghost function Sequential<S, X>(u: Updates<S, X>, xs: seq<X>): S {
    if xs == [] then u.fresh0
    else
      var before := Sequential(u, xs[..|xs| - 1]);
      match u.effect(xs[|xs| - 1], before)
      case Save(s) => s
      case Refuse => before
  }

  /** None of them is refused in its turn. */
  ghost predicate AllSave<S, X>(u: Updates<S, X>, xs: seq<X>) {
    xs == [] || (AllSave(u, xs[..|xs| - 1]) && u.effect(xs[|xs| - 1], Sequential(u, xs[..|xs| - 1])).Save?)
  }

  /** What the lock holder has in hand fits the file as it is, whose content is `current`. */
  ghost predicate InHand<S, X>(u: Updates<S, X>, temps: map<string, Content<S>>, current: S, ph: Phase<S, X>) {
    match ph
    case Loaded(x, seen) => seen == current
    case Mutated(x, result) => u.effect(x, current) == Save(result)
    case Opened(x, result, temp) => u.effect(x, current) == Save(result)
    case Written(x, result, temp) =>
      u.effect(x, current) == Save(result) && temp in temps && temps[temp] == Complete(result)
    case _ => true
  }

  ghost function Unanswered<S, X>(ph: Phase<S, X>): multiset<X> {
    if ph.Renamed? then multiset{ph.x} else multiset{}
  }

  ghost function Holder<S, X>(sys: System<S, X>): Phase<S, X> {
    if sys.lock.Some? then PhaseOf(sys, sys.lock.value) else Idle
  }

  /** Whoever is at work has the lock, and nobody else has it. */
  ghost predicate Exclusive<S, X>(sys: System<S, X>) {
    forall p: nat :: HoldsLock(PhaseOf(sys, p)) <==> sys.lock == Some(p)
  }

  ghost predicate FileIs<S, X>(u: Updates<S, X>, sys: System<S, X>, current: S) {
    if sys.log == [] then sys.file.None? && current == u.fresh0 else sys.file == Some(Complete(current))
  }

  ghost predicate Consistent<S, X>(u: Updates<S, X>, sys: System<S, X>) {
    var current := Sequential(u, sys.log);
    && Exclusive(sys)
    && InHand(u, sys.temps, current, Holder(sys))
    && FileIs(u, sys, current)
    && AllSave(u, sys.log)
  }

  lemma LeaveConsistent<S, X>(u: Updates<S, X>, sys: System<S, X>, p: nat, temp: string)
    requires Consistent(u, sys)
    ensures Consistent(u, Leave(sys, p))
    ensures sys.lock == Some(p) ==> Consistent(u, Drop(Leave(sys, p), temp))
  {
  }

  /** A step inside the critical section that does not touch the file. */
  lemma InsideConsistent<S, X>(u: Updates<S, X>, sys: System<S, X>, p: nat, ph: Phase<S, X>,
    temps: map<string, Content<S>>)
    requires Consistent(u, sys) && HoldsLock(PhaseOf(sys, p)) && HoldsLock(ph) && !ph.Renamed?
    requires InHand(u, temps, Sequential(u, sys.log), ph)
    ensures Consistent(u, To(sys, p, ph).(temps := temps))
  {
  }

  lemma RenameConsistent<S, X>(u: Updates<S, X>, sys: System<S, X>, p: nat)
    requires Consistent(u, sys) && PhaseOf(sys, p).Written?
    ensures Consistent(u, Act(u, sys, Rename(p)))
  {
    var x, result := PhaseOf(sys, p).x, PhaseOf(sys, p).result;
    assert (sys.log + [x])[..|sys.log|] == sys.log;
    var next := Act(u, sys, Rename(p));
    assert next.procs == sys.procs[p := Renamed(x)] && next.lock == sys.lock == Some(p);
    assert next.log == sys.log + [x] && next.file == Some(Complete(result));
    assert Exclusive(next);
  }

  /** Steps that leave the file, the temporary files, the history and the lock holder's work alone. */
  lemma AsideConsistent<S, X>(u: Updates<S, X>, sys: System<S, X>, next: System<S, X>)
    requires Consistent(u, sys) && Exclusive(next)
    requires next.file == sys.file && next.temps == sys.temps && next.log == sys.log
    requires Holder(next) == Holder(sys) || (!HoldsLock(Holder(sys)) && (Holder(next).Waiting? || Holder(next).Locked?))
    ensures Consistent(u, next)
  {
  }

  lemma EntryConsistent<S, X>(u: Updates<S, X>, sys: System<S, X>, a: Action<X>)
    requires Consistent(u, sys) && (a.Begin? || a.Acquire?)
    ensures Consistent(u, Act(u, sys, a))
  {
    AsideConsistent(u, sys, Act(u, sys, a));
  }

  lemma LoadConsistent<S, X>(u: Updates<S, X>, sys: System<S, X>, p: nat)
    requires Consistent(u, sys)
    ensures Consistent(u, Act(u, sys, Load(p)))
  {
    var ph := PhaseOf(sys, p);
    if ph.Locked? {
      InsideConsistent(u, sys, p, Loaded(ph.x, Sequential(u, sys.log)), sys.temps);
    }
  }

  lemma MutateConsistent<S, X>(u: Updates<S, X>, sys: System<S, X>, p: nat)
    requires Consistent(u, sys)
    ensures Consistent(u, Act(u, sys, Mutate(p)))
  {
    LeaveConsistent(u, sys, p, "");
    var ph := PhaseOf(sys, p);
    if ph.Loaded? && u.effect(ph.x, ph.seen).Save? {
      InsideConsistent(u, sys, p, Mutated(ph.x, u.effect(ph.x, ph.seen).s), sys.temps);
    }
  }

  lemma OpenConsistent<S, X>(u: Updates<S, X>, sys: System<S, X>, p: nat, temp: string)
    requires Consistent(u, sys)
    ensures Consistent(u, Act(u, sys, Open(p, temp)))
  {
    LeaveConsistent(u, sys, p, temp);
    var ph := PhaseOf(sys, p);
    if ph.Mutated? {
      InsideConsistent(u, sys, p, Opened(ph.x, ph.result, temp), sys.temps[temp := Partial]);
    }
  }

  lemma WriteConsistent<S, X>(u: Updates<S, X>, sys: System<S, X>, p: nat)
    requires Consistent(u, sys)
    ensures Consistent(u, Act(u, sys, Write(p)))
  {
    var ph := PhaseOf(sys, p);
    if ph.Opened? {
      InsideConsistent(u, sys, p, Written(ph.x, ph.result, ph.temp), sys.temps[ph.temp := Complete(ph.result)]);
    }
  }

  lemma FinishConsistent<S, X>(u: Updates<S, X>, sys: System<S, X>, p: nat)
    requires Consistent(u, sys)
    ensures Consistent(u, Act(u, sys, Finish(p)))
  {
  }

  lemma FailConsistent<S, X>(u: Updates<S, X>, sys: System<S, X>, p: nat)
    requires Consistent(u, sys)
    ensures Consistent(u, Act(u, sys, Fail(p)))
  {
    var ph := PhaseOf(sys, p);
    LeaveConsistent(u, sys, p, if ph.Opened? || ph.Written? then ph.temp else "");
  }

  lemma ActConsistent<S, X>(u: Updates<S, X>, sys: System<S, X>, a: Action<X>)
    requires Consistent(u, sys)
    ensures Consistent(u, Act(u, sys, a))
  {
    match a {
      case Begin(p, x) => EntryConsistent(u, sys, a);
      case Acquire(p) => EntryConsistent(u, sys, a);
      case Load(p) => LoadConsistent(u, sys, p);
      case Mutate(p) => MutateConsistent(u, sys, p);
      case Open(p, temp) => OpenConsistent(u, sys, p, temp);
      case Write(p) => WriteConsistent(u, sys, p);
      case Rename(p) =>
        if PhaseOf(sys, p).Written? {
          RenameConsistent(u, sys, p);
        }
      case Finish(p) => FinishConsistent(u, sys, p);
      case Fail(p) => FailConsistent(u, sys, p);
      case Crash(p) => LeaveConsistent(u, sys, p, "");
    }
  }

  // ---- The order of the updates ----

  /** `a` comes from `b` by leaving out elements. */
  ghost predicate Subsequence<X>(a: seq<X>, b: seq<X>) {
    a == [] || (b != [] && (
      || (a[|a| - 1] == b[|b| - 1] && Subsequence(a[..|a| - 1], b[..|b| - 1]))
      || Subsequence(a, b[..|b| - 1])))
  }

  ghost predicate Working<S, X>(ph: Phase<S, X>) {
    HoldsLock(ph) && !ph.Renamed?
  }

  /** What was renamed comes in the order of the lock, and the update at work got the lock last. */
  ghost predicate InLockOrder<S, X>(sys: System<S, X>) {
    var n := |sys.acquired|;
    && Subsequence(sys.log, sys.acquired)
    && (Working(Holder(sys)) ==>
         0 < n && sys.acquired[n - 1] == Holder(sys).x && Subsequence(sys.log, sys.acquired[..n - 1]))
  }

  lemma SubsequenceGrows<X>(a: seq<X>, b: seq<X>, x: X)
    requires Subsequence(a, b)
    ensures Subsequence(a, b + [x]) && Subsequence(a + [x], b + [x])
  {
    assert (b + [x])[..|b|] == b && (a + [x])[..|a|] == a;
  }

  lemma AcquireInOrder<S, X>(u: Updates<S, X>, sys: System<S, X>, p: nat)
    requires Consistent(u, sys) && InLockOrder(sys)
    ensures InLockOrder(Act(u, sys, Acquire(p)))
  {
    var ph := PhaseOf(sys, p);
    if ph.Waiting? && sys.lock.None? {
      SubsequenceGrows(sys.log, sys.acquired, ph.x);
      assert (sys.acquired + [ph.x])[..|sys.acquired|] == sys.acquired;
    }
  }

  lemma RenameInOrder<S, X>(u: Updates<S, X>, sys: System<S, X>, p: nat)
    requires Consistent(u, sys) && InLockOrder(sys)
    ensures InLockOrder(Act(u, sys, Rename(p)))
  {
    var ph := PhaseOf(sys, p);
    if ph.Written? {
      var n := |sys.acquired|;
      SubsequenceGrows(sys.log, sys.acquired[..n - 1], ph.x);
      assert sys.acquired == sys.acquired[..n - 1] + [ph.x];
    }
  }

  lemma LeavingAtWork<S, X>(u: Updates<S, X>, sys: System<S, X>, a: Action<X>)
    requires Exclusive(sys) && (a.Finish? || a.Fail? || a.Crash?)
    ensures var next := Act(u, sys, a);
            && next.acquired == sys.acquired && next.log == sys.log
            && (Working(Holder(next)) ==> Holder(next) == Holder(sys))
  {
  }

  lemma StayingAtWork<S, X>(u: Updates<S, X>, sys: System<S, X>, a: Action<X>)
    requires Exclusive(sys) && (a.Load? || a.Mutate? || a.Open? || a.Write?)
    ensures var next := Act(u, sys, a);
            && next.acquired == sys.acquired && next.log == sys.log
            && (Working(Holder(next)) ==> Working(Holder(sys)) && Holder(next).x == Holder(sys).x)
  {
  }

  /** All other steps touch neither record, and nobody starts to work on the update of another. */
  lemma ActInOrder<S, X>(u: Updates<S, X>, sys: System<S, X>, a: Action<X>)
    requires Consistent(u, sys) && InLockOrder(sys)
    ensures InLockOrder(Act(u, sys, a))
  {
    if a.Acquire? {
      AcquireInOrder(u, sys, a.p);
    } else if a.Rename? {
      RenameInOrder(u, sys, a.p);
    } else if a.Finish? || a.Fail? || a.Crash? {
      LeavingAtWork(u, sys, a);
    } else if !a.Begin? {
      StayingAtWork(u, sys, a);
    }
  }

  // ---- Answers ----

  /** Answered updates, and the one about to be answered, are in the file. */
  ghost predicate AnswersKept<S, X>(sys: System<S, X>) {
    sys.answered + Unanswered(Holder(sys)) <= multiset(sys.log)
  }

  lemma RenameAnswers<S, X>(u: Updates<S, X>, sys: System<S, X>, p: nat)
    requires Exclusive(sys) && AnswersKept(sys) && PhaseOf(sys, p).Written?
    ensures AnswersKept(Act(u, sys, Rename(p)))
  {
    var x := PhaseOf(sys, p).x;
    assert multiset(sys.log + [x]) == multiset(sys.log) + multiset{x};
  }

  lemma FinishAnswers<S, X>(u: Updates<S, X>, sys: System<S, X>, p: nat)
    requires Exclusive(sys) && AnswersKept(sys) && PhaseOf(sys, p).Renamed?
    ensures AnswersKept(Act(u, sys, Finish(p)))
  {
    assert Holder(Act(u, sys, Finish(p))).Idle?;
  }

  lemma OthersUnanswered<S, X>(u: Updates<S, X>, sys: System<S, X>, a: Action<X>)
    requires Exclusive(sys) && !a.Rename? && !a.Finish?
    ensures var next := Act(u, sys, a);
            && next.log == sys.log && next.answered == sys.answered
            && (Holder(next).Renamed? ==> Holder(next) == Holder(sys))
  {
  }

  lemma ActAnswers<S, X>(u: Updates<S, X>, sys: System<S, X>, a: Action<X>)
    requires Exclusive(sys) && AnswersKept(sys)
    ensures AnswersKept(Act(u, sys, a))
  {
    if a.Rename? {
      if PhaseOf(sys, a.p).Written? {
        RenameAnswers(u, sys, a.p);
      }
    } else if a.Finish? {
      if PhaseOf(sys, a.p).Renamed? {
        FinishAnswers(u, sys, a.p);
      }
    } else {
      OthersUnanswered(u, sys, a);
    }
  }

  /** Whatever the interleaving, failures and crashes: the file is absent or whole, and holds exactly the
      updates renamed into place, in the order in which they got the lock, each applied to the result of the
      one before and none of them refused there; every update answered with success is among them, once per
      answer. */
  lemma {:induction false} NoLostUpdate<S, X>(u: Updates<S, X>, acts: seq<Action<X>>)
    ensures var sys := Run(u, acts);
            && Consistent(u, sys)
            && FileIs(u, sys, Sequential(u, sys.log)) && AllSave(u, sys.log)
            && sys.answered <= multiset(sys.log)
            && AnswersKept(sys) && InLockOrder(sys) && Subsequence(sys.log, sys.acquired)
  {
    if acts != [] {
      NoLostUpdate(u, acts[..|acts| - 1]);
      ActConsistent(u, Run(u, acts[..|acts| - 1]), acts[|acts| - 1]);
      ActAnswers(u, Run(u, acts[..|acts| - 1]), acts[|acts| - 1]);
      ActInOrder(u, Run(u, acts[..|acts| - 1]), acts[|acts| - 1]);
    }
  }

  lemma WholeFile<S, X>(u: Updates<S, X>, sys: System<S, X>, a: Action<X>)
    requires Consistent(u, sys)
    ensures !(a.Rename? && PhaseOf(sys, a.p).Written?) ==> Act(u, sys, a).file == sys.file
    ensures a.Rename? && PhaseOf(sys, a.p).Written? ==>
      && u.effect(PhaseOf(sys, a.p).x, Sequential(u, sys.log)).Save?
      && Act(u, sys, a).file == Some(Complete(u.effect(PhaseOf(sys, a.p).x, Sequential(u, sys.log)).s))
  {
  }

  /** The file changes by a rename only, from one whole update to the next; a refused mutation, an error
      before the rename, or a crash leaves it alone. */
  lemma FileChangesByRenameOnly<S, X>(u: Updates<S, X>, acts: seq<Action<X>>, a: Action<X>)
    ensures var sys := Run(u, acts); var ph := PhaseOf(sys, a.p);
            && (!(a.Rename? && ph.Written?) ==> Act(u, sys, a).file == sys.file)
            && (a.Rename? && ph.Written? ==>
                 && u.effect(ph.x, Sequential(u, sys.log)).Save?
                 && Act(u, sys, a).file == Some(Complete(u.effect(ph.x, Sequential(u, sys.log)).s)))
  {
    NoLostUpdate(u, acts);
    WholeFile(u, Run(u, acts), a);
  }

  // ---- The lock comes back ----

  lemma RunAppend<S, X>(u: Updates<S, X>, acts: seq<Action<X>>, a: Action<X>)
    ensures Run(u, acts + [a]) == Act(u, Run(u, acts), a)
  {
    assert (acts + [a])[..|acts|] == acts;
  }

  lemma RunTwice<S, X>(u: Updates<S, X>, acts: seq<Action<X>>, a: Action<X>, b: Action<X>)
    ensures Run(u, acts + [a] + [b]) == Act(u, Act(u, Run(u, acts), a), b)
  {
    RunAppend(u, acts, a);
    RunAppend(u, acts + [a], b);
  }

  lemma ExclusiveRun<S, X>(u: Updates<S, X>, acts: seq<Action<X>>)
    ensures Exclusive(Run(u, acts))
  {
    NoLostUpdate(u, acts);
  }

  lemma AloneLeaves<S, X>(sys: System<S, X>, p: nat)
    requires sys.lock == Some(p)
    ensures Leave(sys, p) == sys.(procs := sys.procs[p := Idle], lock := None)
  {
  }

  /** A process that has the lock and fails or dies no longer has it, and nobody else has. Failing, it takes
      its temporary file along; dying, it leaves that behind. */
  lemma HolderGone<S, X>(u: Updates<S, X>, acts: seq<Action<X>>, p: nat)
    requires Run(u, acts).lock == Some(p)
    ensures var sys := Run(u, acts); var ph := PhaseOf(sys, p);
            && HoldsLock(ph)
            && Run(u, acts + [Crash(p)]) == sys.(procs := sys.procs[p := Idle], lock := None)
            && Run(u, acts + [Fail(p)]) == sys.(procs := sys.procs[p := Idle], lock := None, temps :=
                 if ph.Opened? || ph.Written? then sys.temps - {ph.temp} else sys.temps)
  {
    ExclusiveRun(u, acts);
    RunAppend(u, acts, Crash(p));
    RunAppend(u, acts, Fail(p));
    AloneLeaves(Run(u, acts), p);
  }

  function Entering<X>(p: nat, x: X): seq<Action<X>> {
    [Begin(p, x), Acquire(p), Load(p), Mutate(p)]
  }

  function Saving<X>(p: nat, temp: string): seq<Action<X>> {
    [Open(p, temp), Write(p), Rename(p), Finish(p)]
  }

  lemma RunFour<S, X>(u: Updates<S, X>, acts: seq<Action<X>>, a: Action<X>, b: Action<X>, c: Action<X>, d: Action<X>)
    ensures Run(u, acts + [a, b, c, d]) == Act(u, Act(u, Act(u, Act(u, Run(u, acts), a), b), c), d)
  {
    assert acts + [a, b, c, d] == acts + [a] + [b] + [c] + [d];
    RunTwice(u, acts, a, b);
    RunTwice(u, acts + [a] + [b], c, d);
  }

  lemma Enters<S, X>(u: Updates<S, X>, sys: System<S, X>, p: nat, x: X)
    requires sys.lock.None? && PhaseOf(sys, p).Idle?
    ensures Act(u, Act(u, sys, Begin(p, x)), Acquire(p)) ==
            sys.(procs := sys.procs[p := Locked(x)], lock := Some(p), acquired := sys.acquired + [x])
  {
    assert Act(u, sys, Begin(p, x)) == sys.(procs := sys.procs[p := Waiting(x)]);
  }

  lemma Loads<S, X>(u: Updates<S, X>, sys: System<S, X>, p: nat, x: X, current: S)
    requires sys.lock == Some(p) && PhaseOf(sys, p) == Locked(x) && FileIs(u, sys, current)
    ensures Act(u, Act(u, sys, Load(p)), Mutate(p)) ==
            match u.effect(x, current)
            case Save(s) => sys.(procs := sys.procs[p := Mutated(x, s)])
            case Refuse => sys.(procs := sys.procs[p := Idle], lock := None)
  {
    assert Act(u, sys, Load(p)) == sys.(procs := sys.procs[p := Loaded(x, current)]);
  }

  /** Up to the mutation. */
  lemma EntersAndLoads<S, X>(u: Updates<S, X>, sys: System<S, X>, p: nat, x: X, current: S)
    requires sys.lock.None? && PhaseOf(sys, p).Idle? && FileIs(u, sys, current)
    ensures Act(u, Act(u, Act(u, Act(u, sys, Begin(p, x)), Acquire(p)), Load(p)), Mutate(p)) ==
            match u.effect(x, current)
            case Save(s) =>
              sys.(procs := sys.procs[p := Mutated(x, s)], lock := Some(p), acquired := sys.acquired + [x])
            case Refuse => sys.(procs := sys.procs[p := Idle], acquired := sys.acquired + [x])
  {
    Enters(u, sys, p, x);
    var locked := sys.(procs := sys.procs[p := Locked(x)], lock := Some(p), acquired := sys.acquired + [x]);
    Loads(u, locked, p, x, current);
  }

  lemma FileOfRun<S, X>(u: Updates<S, X>, acts: seq<Action<X>>)
    ensures FileIs(u, Run(u, acts), Sequential(u, Run(u, acts).log))
  {
    NoLostUpdate(u, acts);
  }

  lemma Saves<S, X>(u: Updates<S, X>, sys: System<S, X>, p: nat, x: X, s: S, temp: string)
    requires sys.lock == Some(p) && PhaseOf(sys, p) == Mutated(x, s) && temp !in sys.temps
    ensures Act(u, Act(u, Act(u, Act(u, sys, Open(p, temp)), Write(p)), Rename(p)), Finish(p)) ==
            sys.(file := Some(Complete(s)), procs := sys.procs[p := Idle], lock := None, log := sys.log + [x],
                 answered := sys.answered + multiset{x})
  {
    var partial := Act(u, sys, Open(p, temp));
    assert partial == sys.(procs := sys.procs[p := Opened(x, s, temp)], temps := sys.temps[temp := Partial]);
    var written := Act(u, partial, Write(p));
    assert written == sys.(procs := sys.procs[p := Written(x, s, temp)], temps := sys.temps[temp := Complete(s)]);
    var renamed := Act(u, written, Rename(p));
    assert sys.temps[temp := Complete(s)] - {temp} == sys.temps;
    assert renamed == sys.(procs := sys.procs[p := Renamed(x)], file := Some(Complete(s)), log := sys.log + [x]);
  }

  lemma EntersRun<S, X>(u: Updates<S, X>, acts: seq<Action<X>>, p: nat, x: X)
    requires Run(u, acts).lock.None? && PhaseOf(Run(u, acts), p).Idle?
    ensures var sys := Run(u, acts);
            Run(u, acts + Entering(p, x)) ==
            match u.effect(x, Sequential(u, sys.log))
            case Save(s) =>
              sys.(procs := sys.procs[p := Mutated(x, s)], lock := Some(p), acquired := sys.acquired + [x])
            case Refuse => sys.(procs := sys.procs[p := Idle], acquired := sys.acquired + [x])
  {
    FileOfRun(u, acts);
    RunFour(u, acts, Begin(p, x), Acquire(p), Load(p), Mutate(p));
    EntersAndLoads(u, Run(u, acts), p, x, Sequential(u, Run(u, acts).log));
  }

  lemma SavesRun<S, X>(u: Updates<S, X>, acts: seq<Action<X>>, sys: System<S, X>, p: nat, x: X, s: S, temp: string)
    requires sys == Run(u, acts) && sys.lock == Some(p) && PhaseOf(sys, p) == Mutated(x, s) && temp !in sys.temps
    ensures Run(u, acts + Saving(p, temp)) ==
            sys.(file := Some(Complete(s)), procs := sys.procs[p := Idle], lock := None, log := sys.log + [x],
                 answered := sys.answered + multiset{x})
  {
    RunFour(u, acts, Open(p, temp), Write(p), Rename(p), Finish(p));
    Saves(u, sys, p, x, s, temp);
  }

  /** After any run whatever, a process that finds the lock free gets its update through: saved on top of what
      the file holds, and answered, or refused with the file as it was. Either way nothing else changes, and the
      lock is free again. */
  lemma UpdateGoesThrough<S, X>(u: Updates<S, X>, acts: seq<Action<X>>, p: nat, x: X, temp: string)
    requires var sys := Run(u, acts); sys.lock.None? && PhaseOf(sys, p).Idle? && temp !in sys.temps
    ensures var sys := Run(u, acts);
            var next := sys.(procs := sys.procs[p := Idle], lock := None, acquired := sys.acquired + [x]);
            match u.effect(x, Sequential(u, sys.log))
            case Save(s) =>
              Run(u, acts + Entering(p, x) + Saving(p, temp)) ==
              next.(file := Some(Complete(s)), log := sys.log + [x], answered := sys.answered + multiset{x})
            case Refuse => Run(u, acts + Entering(p, x)) == next
  {
    var sys := Run(u, acts);
    EntersRun(u, acts, p, x);
    match u.effect(x, Sequential(u, sys.log)) {
      case Save(s) =>
        var busy := sys.(procs := sys.procs[p := Mutated(x, s)], lock := Some(p), acquired := sys.acquired + [x]);
        SavesRun(u, acts + Entering(p, x), busy, p, x, s, temp);
        assert busy.procs[p := Idle] == sys.procs[p := Idle];
      case Refuse =>
    }
  }

  /** So whoever dies with the lock blocks nobody. */
  lemma CrashBlocksNobody<S, X>(u: Updates<S, X>, acts: seq<Action<X>>, q: nat, p: nat, x: X, temp: string)
    requires var sys := Run(u, acts); sys.lock == Some(q) && (p == q || PhaseOf(sys, p).Idle?) && temp !in sys.temps
    requires u.effect(x, Sequential(u, Run(u, acts).log)).Save?
    ensures var log := Run(u, acts).log;
            var next := Run(u, acts + [Crash(q)] + Entering(p, x) + Saving(p, temp));
            next.file == Some(Complete(Sequential(u, log + [x]))) && next.log == log + [x] && next.lock.None?
  {
    HolderGone(u, acts, q);
    UpdateGoesThrough(u, acts + [Crash(q)], p, x, temp);
    assert (Run(u, acts).log + [x])[..|Run(u, acts).log|] == Run(u, acts).log;
  }

  /** A temporary name that is taken is not written over: the update fails, the file stays as it was, and the
      lock is free again. */
  lemma TakenNameFails<S, X>(u: Updates<S, X>, acts: seq<Action<X>>, p: nat, temp: string)
    requires var sys := Run(u, acts); PhaseOf(sys, p).Mutated? && temp in sys.temps
    ensures var sys := Run(u, acts);
            Run(u, acts + [Open(p, temp)]) ==
            sys.(procs := sys.procs[p := Idle], lock := None, temps := sys.temps - {temp})
  {
    ExclusiveRun(u, acts);
    RunAppend(u, acts, Open(p, temp));
  }

  // ---- What is left lying about ----

  ghost function AtHandOf<S, X>(ph: Phase<S, X>): set<string> {
    if ph.Opened? || ph.Written? then {ph.temp} else {}
  }

  lemma TidyStep<S, X>(u: Updates<S, X>, sys: System<S, X>, a: Action<X>)
    requires Exclusive(sys) && sys.temps.Keys == AtHandOf(Holder(sys)) && !a.Crash?
    ensures Act(u, sys, a).temps.Keys == AtHandOf(Holder(Act(u, sys, a)))
  {
  }

  /** Errors leave no temporary file behind, only crashes do. */
  lemma {:induction false} OnlyCrashesLitter<S, X>(u: Updates<S, X>, acts: seq<Action<X>>)
    requires forall i :: 0 <= i < |acts| ==> !acts[i].Crash?
    ensures Run(u, acts).temps.Keys == AtHandOf(Holder(Run(u, acts)))
  {
    if acts != [] {
      OnlyCrashesLitter(u, acts[..|acts| - 1]);
      NoLostUpdate(u, acts[..|acts| - 1]);
      TidyStep(u, Run(u, acts[..|acts| - 1]), acts[|acts| - 1]);
    }
  }

  // ---- The gateway's transactions as updates ----

  /** Reservation and commit save nothing when they answer with an error; the others always save. */
  ghost function Transaction(x: A.Txn, s: A.Snapshot): Effect<A.Snapshot> {
    if (x.Reserve? || x.Commit?) && !A.Allowed(s, x) then Refuse else Save(A.Execute(s, x))
  }

  ghost function Transactions(): Updates<A.Snapshot, A.Txn> {
    Updates(A.Snapshot(map[], map[]), Transaction)
  }

  lemma {:induction false} SequentialIsSchedule(xs: seq<A.Txn>)
    ensures E.After(E.Empty(), xs).s == Sequential(Transactions(), xs)
  {
    if xs != [] {
      SequentialIsSchedule(xs[..|xs| - 1]);
    }
  }

  lemma {:induction false} SavedInTurn<S, X>(u: Updates<S, X>, xs: seq<X>, i: nat)
    requires AllSave(u, xs) && i < |xs|
    ensures u.effect(xs[i], Sequential(u, xs[..i])).Save?
    decreases |xs|
  {
    if i < |xs| - 1 {
      SavedInTurn(u, xs[..|xs| - 1], i);
      assert xs[..|xs| - 1][..i] == xs[..i];
    }
  }

  /** A reservation or commit that is refused never gets as far as the file: those in its history were granted. */
  lemma LoggedWereGranted(acts: seq<Action<A.Txn>>, i: nat)
    requires var log := Run(Transactions(), acts).log; i < |log| && (log[i].Reserve? || log[i].Commit?)
    ensures var log := Run(Transactions(), acts).log; A.Allowed(E.After(E.Empty(), log[..i]).s, log[i])
  {
    var log := Run(Transactions(), acts).log;
    NoLostUpdate(Transactions(), acts);
    SavedInTurn(Transactions(), log, i);
    SequentialIsSchedule(log[..i]);
  }

  /** All other transactions are saved even when they achieve nothing. */
  lemma OthersAlwaysSave(acts: seq<Action<A.Txn>>, p: nat, x: A.Txn, temp: string)
    requires var sys := Run(Transactions(), acts); sys.lock.None? && PhaseOf(sys, p).Idle? && temp !in sys.temps
    requires !x.Reserve? && !x.Commit?
    ensures var log := Run(Transactions(), acts).log;
            var next := Run(Transactions(), acts + Entering(p, x) + Saving(p, temp));
            next.file == Some(Complete(A.Execute(E.After(E.Empty(), log).s, x))) && next.log == log + [x]
  {
    UpdateGoesThrough(Transactions(), acts, p, x, temp);
    SequentialIsSchedule(Run(Transactions(), acts).log);
  }

  /** So every guarantee on schedules is one on the file: however processes interleave, fail and crash,
      the file never shows an install code with more registrations than it allows. */
  lemma FileBoundsTokenUse(acts: seq<Action<A.Txn>>, h: string)
    requires E.FreshTokens(E.Empty(), Run(Transactions(), acts).log)
    ensures var sys := Run(Transactions(), acts);
            sys.file.Some? ==>
              && sys.file.value.Complete?
              && (h in sys.file.value.s.tokens ==>
                   var t := sys.file.value.s.tokens[h];
                   var uses := E.Uses(E.After(E.Empty(), sys.log).log, h);
                   uses <= t.maxUses && E.Counted(t, uses))
  {
    var log := Run(Transactions(), acts).log;
    NoLostUpdate(Transactions(), acts);
    SequentialIsSchedule(log);
    E.AlwaysSound(E.Empty(), log);
  }
}
