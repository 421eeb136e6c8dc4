/** Enrollment tokens under every schedule of transactions, by any number of clients that stall, crash
    or have their reservation taken over. A reservation does not say whose it is. */
module EnrollmentTheory {
  import opened Prelude
  import opened AdminStore

  datatype Registration = Registration(hash: string, agentId: string)

  /** The store with the history of successful registrations and of all tokens ever issued. */
  datatype World = World(s: Snapshot, log: seq<Registration>, issued: set<string>)

  ghost function Step(w: World, x: Txn): World {
    World(Execute(w.s, x),
          if x.Commit? && Allowed(w.s, x) then w.log + [Registration(x.hash, x.agentId)] else w.log,
          if x.Issue? then w.issued + {x.hash} else w.issued)
  }

  ghost function After(w: World, xs: seq<Txn>): World {
    if xs == [] then w else Step(After(w, xs[..|xs| - 1]), xs[|xs| - 1])
  }

  /** Tokens are random: no two are alike. */
  ghost predicate FreshTokens(w: World, xs: seq<Txn>) {
    forall i :: 0 <= i < |xs| && xs[i].Issue? ==> xs[i].hash !in After(w, xs[..i]).issued
  }

  ghost function Uses(log: seq<Registration>, hash: string): nat {
    if log == [] then 0
    else Uses(log[..|log| - 1], hash) + (if log[|log| - 1].hash == hash then 1 else 0)
  }

  /** The use count of a token, by status, against the registrations made through it. */
  ghost predicate Counted(t: Token, uses: nat) {
    && t.maxUses <= U32_MAX
    && match t.status
       case Active => t.usedCount == uses < t.maxUses && t.reservedAt == None
       case Reserved => t.usedCount == uses + 1 <= t.maxUses
       case Used => t.usedCount == uses == t.maxUses
       case _ => uses <= t.usedCount <= uses + 1 && uses <= t.maxUses
  }

  ghost predicate Sound(w: World) {
    && (forall h :: h in w.s.tokens ==>
         h in w.issued && w.s.tokens[h].tokenHash == h && Counted(w.s.tokens[h], Uses(w.log, h)))
    && (forall h :: h !in w.issued ==> Uses(w.log, h) == 0)
    && (forall i :: 0 <= i < |w.log| ==> w.log[i].agentId in w.s.agents)
    && (forall i, j :: 0 <= i < j < |w.log| ==> w.log[i].agentId != w.log[j].agentId)
  }

  lemma UsesAppend(log: seq<Registration>, r: Registration, h: string)
    ensures Uses(log + [r], h) == Uses(log, h) + (if r.hash == h then 1 else 0)
  {
    assert (log + [r])[..|log|] == log;
  }

  lemma CommitSound(w: World, hash: string, agentId: string, agent: Agent)
    requires Sound(w)
    ensures Sound(Step(w, Commit(hash, agentId, agent)))
  {
    forall h ensures Uses(w.log + [Registration(hash, agentId)], h) == Uses(w.log, h) + (if h == hash then 1 else 0) {
      UsesAppend(w.log, Registration(hash, agentId), h);
    }
  }

  lemma StepSound(w: World, x: Txn)
    requires Sound(w) && (x.Issue? ==> x.hash !in w.issued)
    ensures Sound(Step(w, x))
  {
    if x.Commit? {
      CommitSound(w, x.hash, x.agentId, x.agent);
    }
  }

  lemma PrefixFresh(w: World, xs: seq<Txn>)
    requires xs != [] && FreshTokens(w, xs)
    ensures FreshTokens(w, xs[..|xs| - 1])
  {
    var before := xs[..|xs| - 1];
    forall i | 0 <= i < |before| && before[i].Issue? ensures before[i].hash !in After(w, before[..i]).issued {
      assert before[..i] == xs[..i];
    }
  }

  lemma {:induction false} AlwaysSound(w: World, xs: seq<Txn>)
    requires Sound(w) && FreshTokens(w, xs)
    ensures Sound(After(w, xs))
  {
    if xs != [] {
      var before := xs[..|xs| - 1];
      PrefixFresh(w, xs);
      AlwaysSound(w, before);
      StepSound(After(w, before), xs[|xs| - 1]);
    }
  }

  ghost function Empty(): World {
    World(Snapshot(map[], map[]), [], {})
  }

  /** No schedule registers more agents through a token than the token allows; the count in the store
      is exact, and the saturating arithmetic on it never saturates. */
  lemma TokenUseBounded(w: World, xs: seq<Txn>, h: string)
    requires Sound(w) && FreshTokens(w, xs) && h in After(w, xs).s.tokens
    ensures var r := After(w, xs); var t := r.s.tokens[h];
            && Uses(r.log, h) <= t.maxUses
            && (t.status == Active ==> t.usedCount == Uses(r.log, h) < t.maxUses)
            && (t.status == Reserved ==> 1 <= t.usedCount == Uses(r.log, h) + 1 <= t.maxUses <= U32_MAX)
            && (t.status == Used ==> t.usedCount == Uses(r.log, h) == t.maxUses)
  {
    AlwaysSound(w, xs);
  }

  lemma {:induction false} MaxUsesOne(xs: seq<Txn>)
    ensures forall h :: h in After(Empty(), xs).s.tokens ==> After(Empty(), xs).s.tokens[h].maxUses == 1
  {
    if xs != [] {
      MaxUsesOne(xs[..|xs| - 1]);
    }
  }

  lemma {:induction false} IssuedStored(xs: seq<Txn>)
    ensures After(Empty(), xs).issued <= After(Empty(), xs).s.tokens.Keys
  {
    if xs != [] {
      IssuedStored(xs[..|xs| - 1]);
    }
  }

  /** From the empty store, a token admits one agent. */
  lemma {:induction false} OneAgentPerInstallCode(xs: seq<Txn>, h: string)
    requires FreshTokens(Empty(), xs)
    ensures Uses(After(Empty(), xs).log, h) <= 1
  {
    AlwaysSound(Empty(), xs);
    MaxUsesOne(xs);
    IssuedStored(xs);
  }

  ghost function AgentsIn(log: seq<Registration>): set<string> {
    if log == [] then {} else AgentsIn(log[..|log| - 1]) + {log[|log| - 1].agentId}
  }

  lemma AgentsInAppend(log: seq<Registration>, r: Registration)
    ensures AgentsIn(log + [r]) == AgentsIn(log) + {r.agentId}
  {
    assert (log + [r])[..|log|] == log;
  }

  lemma OneMore(agents: map<string, Agent>, id: string, agent: Agent)
    requires id !in agents
    ensures agents[id := agent].Keys == agents.Keys + {id} && |agents[id := agent]| == |agents| + 1
  {
  }

  lemma OthersRegisterNobody(s: Snapshot, x: Txn)
    requires !x.Commit? || !Allowed(s, x)
    ensures Execute(s, x).agents.Keys == s.agents.Keys && |Execute(s, x).agents| == |s.agents|
  {
    var t := Execute(s, x).agents;
    assert t.Keys == s.agents.Keys;
    assert |t| == |t.Keys| && |s.agents| == |s.agents.Keys|;
  }

  lemma StepRegisters(v: World, x: Txn)
    requires v.s.agents.Keys == AgentsIn(v.log) && |v.s.agents| == |v.log|
    ensures var w := Step(v, x); w.s.agents.Keys == AgentsIn(w.log) && |w.s.agents| == |w.log|
  {
    if x.Commit? && Allowed(v.s, x) {
      AgentsInAppend(v.log, Registration(x.hash, x.agentId));
      OneMore(v.s.agents, x.agentId, x.agent);
    } else {
      OthersRegisterNobody(v.s, x);
    }
  }

  /** The registered agents are those of the history, each registered once. */
  lemma {:induction false} AgentsRegisteredOnce(xs: seq<Txn>)
    ensures var w := After(Empty(), xs); w.s.agents.Keys == AgentsIn(w.log) && |w.s.agents| == |w.log|
  {
    if xs != [] {
      AgentsRegisteredOnce(xs[..|xs| - 1]);
      StepRegisters(After(Empty(), xs[..|xs| - 1]), xs[|xs| - 1]);
    }
  }

  /** Free for a reservation: active, or with a reservation that is 60 seconds old, undated or unreadable. */
  ghost predicate Free(t: Token, now: int) {
    || t.status == Active
    || (t.status == Reserved &&
         (t.reservedAt.None? || t.reservedAt.value.Unparsable? || t.reservedAt.value.time + 60 * 1_000_000_000 <= now))
  }

  /** When a reservation is granted, in any reachable store; refused, it changes nothing. A lapsed reservation,
      whoever left it, never keeps an unregistered agent out. */
  lemma ReserveGrantedExactly(w: World, config: Config, h: string, agentId: string, now: int, later: int)
    requires Sound(w)
    ensures Allowed(w.s, Reserve(config, h, agentId, now, later)) <==>
            && h in w.s.tokens
            && w.s.tokens[h].tenantId == config.tenantId && w.s.tokens[h].environmentId == config.environmentId
            && Free(w.s.tokens[h], now)
            && w.s.tokens[h].expiresAt.At? && later < w.s.tokens[h].expiresAt.time
            && agentId !in w.s.agents
    ensures !Allowed(w.s, Reserve(config, h, agentId, now, later)) ==>
              Execute(w.s, Reserve(config, h, agentId, now, later)) == w.s
  {
  }

  /** What validation does, whatever it answers: a token whose time is up is marked, a lapsed reservation is
      released, and nothing else happens. A token of another tenant or environment is not even touched. */
  lemma ValidateLeaves(w: World, config: Config, h: string, now: int)
    requires Sound(w)
    ensures var s := Execute(w.s, Validate(config, h, now));
            if h !in w.s.tokens || w.s.tokens[h].tenantId != config.tenantId
               || w.s.tokens[h].environmentId != config.environmentId || w.s.tokens[h].expiresAt.Unparsable?
              then s == w.s
            else
              var t := w.s.tokens[h];
              s == w.s.(tokens := w.s.tokens[h :=
                if t.expiresAt.time <= now then t.(status := Expired)
                else if t.status == Reserved && Free(t, now)
                  then t.(status := Active, reservedAt := None, usedCount := t.usedCount - 1)
                else t])
  {
    assert h in w.s.tokens ==> w.s.tokens[h := w.s.tokens[h]] == w.s.tokens;
  }

  /** When validation answers yes. */
  lemma ValidateGrantedExactly(w: World, config: Config, h: string, now: int)
    requires Sound(w)
    ensures Allowed(w.s, Validate(config, h, now)) <==>
            && h in w.s.tokens
            && w.s.tokens[h].tenantId == config.tenantId && w.s.tokens[h].environmentId == config.environmentId
            && Free(w.s.tokens[h], now)
            && w.s.tokens[h].expiresAt.At? && now < w.s.tokens[h].expiresAt.time
  {
  }

  /** A token that validation accepts can be reserved at that time, by any unregistered agent. */
  lemma ValidatedCanReserve(w: World, config: Config, h: string, agentId: string, now: int)
    requires Sound(w) && Allowed(w.s, Validate(config, h, now)) && agentId !in w.s.agents
    ensures Allowed(Execute(w.s, Validate(config, h, now)), Reserve(config, h, agentId, now, now))
  {
  }

  ghost predicate Spent(s: Snapshot, h: string) {
    h in s.tokens && (s.tokens[h].status == Used || s.tokens[h].status == Expired || s.tokens[h].status == Revoked)
  }

  lemma SpentToken(s: Snapshot, x: Txn, h: string)
    requires Spent(s, h) && !(x.Issue? && x.hash == h)
    ensures Spent(Execute(s, x), h) && !(x.Commit? && x.hash == h && Allowed(s, x))
  {
    match x {
      case Validate(config, hash, now) => assert hash == h ==> !Lapsed(s.tokens[h], now);
      case _ =>
    }
  }

  lemma SpentStep(w: World, x: Txn, h: string)
    requires Sound(w) && Spent(w.s, h) && (x.Issue? ==> x.hash !in w.issued)
    ensures Spent(Step(w, x).s, h) && Uses(Step(w, x).log, h) == Uses(w.log, h)
  {
    SpentToken(w.s, x, h);
    if x.Commit? {
      UsesAppend(w.log, Registration(x.hash, x.agentId), h);
    }
  }

  /** A used, expired or revoked token stays so, and registers nobody any more, whatever follows. */
  lemma {:induction false} SpentForever(w: World, xs: seq<Txn>, h: string)
    requires Sound(w) && FreshTokens(w, xs) && Spent(w.s, h)
    ensures Spent(After(w, xs).s, h) && Uses(After(w, xs).log, h) == Uses(w.log, h)
  {
    if xs != [] {
      var before := xs[..|xs| - 1];
      PrefixFresh(w, xs);
      SpentForever(w, before, h);
      AlwaysSound(w, before);
      SpentStep(After(w, before), xs[|xs| - 1], h);
    }
  }

  /** Rolling back a reservation undoes it. */
  lemma RollbackUndoesReserve(w: World, config: Config, h: string, agentId: string, now: int, later: int)
    requires Sound(w) && h in w.s.tokens && w.s.tokens[h].status == Active
    ensures Execute(Execute(w.s, Reserve(config, h, agentId, now, later)), Rollback(h)) == w.s
  {
    var s1 := Execute(w.s, Reserve(config, h, agentId, now, later));
    var s2 := Execute(s1, Rollback(h));
    assert s2.tokens[h] == w.s.tokens[h];
    assert s2.tokens == w.s.tokens;
  }

  // ---- What may come between a reservation and its commit ----

  /** Leaves the token unreserved: a rollback, a commit that goes through, a validation that finds it expired
      or its reservation lapsed. */
  ghost predicate Releases(s: Snapshot, x: Txn, h: string) {
    match x
    case Rollback(hash) => hash == h
    case Commit(hash, _, _) => hash == h && Allowed(s, x)
    case Validate(config, hash, now) =>
      && hash == h && h in s.tokens && s.tokens[h].expiresAt.At?
      && s.tokens[h].tenantId == config.tenantId && s.tokens[h].environmentId == config.environmentId
      && (s.tokens[h].expiresAt.time <= now || (s.tokens[h].status == Reserved && Free(s.tokens[h], now)))
    case _ => false
  }

  ghost predicate Reserves(s: Snapshot, x: Txn, h: string) {
    x.Reserve? && x.hash == h && Allowed(s, x)
  }

  ghost predicate Registers(s: Snapshot, x: Txn, a: string) {
    x.Commit? && x.agentId == a && Allowed(s, x)
  }

  /** Where in the schedule the token is released, and where a reservation of it is granted. */
  ghost function ReleasePoints(w: World, xs: seq<Txn>, h: string): (r: set<nat>)
    ensures forall i :: i in r ==> i < |xs|
  {
    if xs == [] then {}
    else
      var n := |xs| - 1;
      ReleasePoints(w, xs[..n], h) + if Releases(After(w, xs[..n]).s, xs[n], h) then {n} else {}
  }

  ghost function ReservePoints(w: World, xs: seq<Txn>, h: string): (r: set<nat>)
    ensures forall i :: i in r ==> i < |xs|
  {
    if xs == [] then {}
    else
      var n := |xs| - 1;
      ReservePoints(w, xs[..n], h) + if Reserves(After(w, xs[..n]).s, xs[n], h) then {n} else {}
  }

  ghost predicate Followed(i: nat, points: set<nat>) {
    exists j :: j in points && i < j
  }

  /** Every release in the schedule is followed by a granted reservation, whoever made it. */
  ghost predicate ReservedAgain(w: World, xs: seq<Txn>, h: string) {
    forall i :: i in ReleasePoints(w, xs, h) ==> Followed(i, ReservePoints(w, xs, h))
  }

  ghost predicate NeverRegistered(w: World, xs: seq<Txn>, a: string) {
    forall i :: 0 <= i < |xs| ==> !Registers(After(w, xs[..i]).s, xs[i], a)
  }

  lemma ReservedStep(w: World, x: Txn, h: string)
    requires Sound(w) && h in w.s.tokens && (x.Issue? ==> x.hash !in w.issued)
    ensures h in Step(w, x).s.tokens
    ensures Step(w, x).s.tokens[h].status == Reserved <==>
            Reserves(w.s, x, h) || (w.s.tokens[h].status == Reserved && !Releases(w.s, x, h))
  {
  }

  lemma RegisteredStep(w: World, x: Txn, a: string)
    ensures a in Step(w, x).s.agents <==> a in w.s.agents || Registers(w.s, x, a)
  {
  }

  lemma ReservedAgainLast(w: World, xs: seq<Txn>, h: string)
    requires xs != []
    ensures var before, x := xs[..|xs| - 1], xs[|xs| - 1];
            var s := After(w, before).s;
            ReservedAgain(w, xs, h) <==> Reserves(s, x, h) || (ReservedAgain(w, before, h) && !Releases(s, x, h))
  {
    var n := |xs| - 1;
    var released, reserved := ReleasePoints(w, xs[..n], h), ReservePoints(w, xs[..n], h);
    if Reserves(After(w, xs[..n]).s, xs[n], h) {
      assert !Releases(After(w, xs[..n]).s, xs[n], h);
      assert n in ReservePoints(w, xs, h);
      assert forall i :: i in released ==> Followed(i, ReservePoints(w, xs, h));
    } else {
      assert ReservePoints(w, xs, h) == reserved && !Followed(n, reserved);
    }
  }

  lemma NeverRegisteredLast(w: World, xs: seq<Txn>, a: string)
    requires xs != []
    ensures var before, x := xs[..|xs| - 1], xs[|xs| - 1];
            NeverRegistered(w, xs, a) <==> NeverRegistered(w, before, a) && !Registers(After(w, before).s, x, a)
  {
    var n := |xs| - 1;
    assert forall i :: 0 <= i < n ==> xs[i] == xs[..n][i];
    assert forall i :: 0 <= i <= n ==> xs[..n][..i] == xs[..i];
  }

  /** Through any schedule: a token is still reserved if and only if every release was followed by another
      reservation, and an agent still unregistered if and only if nothing registered it. */
  lemma {:induction false} ReservedThrough(w: World, xs: seq<Txn>, h: string, a: string)
    requires Sound(w) && FreshTokens(w, xs) && h in w.s.tokens && w.s.tokens[h].status == Reserved && a !in w.s.agents
    ensures h in After(w, xs).s.tokens
    ensures After(w, xs).s.tokens[h].status == Reserved <==> ReservedAgain(w, xs, h)
    ensures a !in After(w, xs).s.agents <==> NeverRegistered(w, xs, a)
  {
    if xs != [] {
      var before := xs[..|xs| - 1];
      PrefixFresh(w, xs);
      ReservedThrough(w, before, h, a);
      AlwaysSound(w, before);
      ReservedStep(After(w, before), xs[|xs| - 1], h);
      RegisteredStep(After(w, before), xs[|xs| - 1], a);
      ReservedAgainLast(w, xs, h);
      NeverRegisteredLast(w, xs, a);
    }
  }

  /** Exactly when the commit after a granted reservation goes through, whatever other clients do in
      between: the agent was not registered, and every release of the token was followed by another
      granted reservation. Whose reservation it is does not matter. */
  lemma CommitAfterReserve(w: World, config: Config, h: string, a: string, now: int, later: int,
    xs: seq<Txn>, agent: Agent)
    requires Sound(w) && Allowed(w.s, Reserve(config, h, a, now, later))
    requires FreshTokens(Step(w, Reserve(config, h, a, now, later)), xs)
    ensures var w1 := Step(w, Reserve(config, h, a, now, later));
            Allowed(After(w1, xs).s, Commit(h, a, agent)) <==> NeverRegistered(w1, xs, a) && ReservedAgain(w1, xs, h)
  {
    var x := Reserve(config, h, a, now, later);
    StepSound(w, x);
    ReservedThrough(Step(w, x), xs, h, a);
    AlwaysSound(Step(w, x), xs);
  }

  /** What a client can know beforehand: nobody rolls the token back or commits on it, everybody who looks at
      it does so before the reservation lapses and the token expires, and nobody registers the agent. */
  ghost predicate Undisturbed(x: Txn, h: string, a: string, lapses: int, expires: int) {
    match x
    case Rollback(hash) => hash != h
    case Commit(hash, agentId, _) => hash != h && agentId != a
    case Validate(_, hash, now) => hash == h ==> now < lapses && now < expires
    case Reserve(_, hash, _, now, _) => hash == h ==> now < lapses
    case _ => true
  }

  lemma UndisturbedStep(w: World, x: Txn, h: string, a: string, reservedAt: int, expires: int)
    requires Sound(w) && (x.Issue? ==> x.hash !in w.issued)
    requires h in w.s.tokens && w.s.tokens[h].status == Reserved && w.s.tokens[h].reservedAt == Some(At(reservedAt))
    requires w.s.tokens[h].expiresAt == At(expires) && Undisturbed(x, h, a, reservedAt + RESERVATION_TTL, expires)
    ensures h in Step(w, x).s.tokens && Step(w, x).s.tokens[h] == w.s.tokens[h]
    ensures a in Step(w, x).s.agents <==> a in w.s.agents
  {
  }

  lemma {:induction false} UndisturbedThrough(w: World, xs: seq<Txn>, h: string, a: string,
    reservedAt: int, expires: int)
    requires Sound(w) && FreshTokens(w, xs)
    requires h in w.s.tokens && w.s.tokens[h].status == Reserved && w.s.tokens[h].reservedAt == Some(At(reservedAt))
    requires w.s.tokens[h].expiresAt == At(expires)
    requires forall i :: 0 <= i < |xs| ==> Undisturbed(xs[i], h, a, reservedAt + RESERVATION_TTL, expires)
    ensures h in After(w, xs).s.tokens && After(w, xs).s.tokens[h] == w.s.tokens[h]
    ensures a in After(w, xs).s.agents <==> a in w.s.agents
  {
    if xs != [] {
      var before := xs[..|xs| - 1];
      PrefixFresh(w, xs);
      UndisturbedThrough(w, before, h, a, reservedAt, expires);
      AlwaysSound(w, before);
      UndisturbedStep(After(w, before), xs[|xs| - 1], h, a, reservedAt, expires);
    }
  }

  /** Then the commit goes through, however much else happens in between. */
  lemma UndisturbedCommit(w: World, config: Config, h: string, a: string, now: int, later: int,
    xs: seq<Txn>, agent: Agent)
    requires Sound(w) && Allowed(w.s, Reserve(config, h, a, now, later))
    requires FreshTokens(Step(w, Reserve(config, h, a, now, later)), xs)
    requires forall i :: 0 <= i < |xs| ==>
      Undisturbed(xs[i], h, a, now + RESERVATION_TTL, w.s.tokens[h].expiresAt.time)
    ensures Allowed(After(Step(w, Reserve(config, h, a, now, later)), xs).s, Commit(h, a, agent))
  {
    var w1 := Step(w, Reserve(config, h, a, now, later));
    StepSound(w, Reserve(config, h, a, now, later));
    UndisturbedThrough(w1, xs, h, a, now, w.s.tokens[h].expiresAt.time);
    AlwaysSound(w1, xs);
  }

  /** Nobody uses up or expires the token, nobody registers the agent, and no reservation of the token is
      younger than `latest`. */
  ghost predicate LeavesTokenOpen(x: Txn, h: string, b: string, latest: int, expires: int) {
    match x
    case Commit(hash, agentId, _) => hash != h && agentId != b
    case Validate(_, hash, now) => hash == h ==> now < expires
    case Reserve(_, hash, _, now, _) => hash == h ==> now <= latest
    case _ => true
  }

  ghost predicate OpenUntil(t: Token, scope: Token, latest: int) {
    && t.tenantId == scope.tenantId && t.environmentId == scope.environmentId && t.expiresAt == scope.expiresAt
    && (t.status == Active || (t.status == Reserved && t.reservedAt.Some? && t.reservedAt.value.At?
                               && t.reservedAt.value.time <= latest))
  }

  lemma OpenStep(w: World, x: Txn, h: string, b: string, scope: Token, latest: int, expires: int)
    requires Sound(w) && (x.Issue? ==> x.hash !in w.issued)
    requires h in w.s.tokens && OpenUntil(w.s.tokens[h], scope, latest) && scope.expiresAt == At(expires)
    requires LeavesTokenOpen(x, h, b, latest, expires)
    ensures h in Step(w, x).s.tokens && OpenUntil(Step(w, x).s.tokens[h], scope, latest)
    ensures b in Step(w, x).s.agents <==> b in w.s.agents
  {
  }

  lemma {:induction false} OpenThrough(w: World, xs: seq<Txn>, h: string, b: string, scope: Token,
    latest: int, expires: int)
    requires Sound(w) && FreshTokens(w, xs)
    requires h in w.s.tokens && OpenUntil(w.s.tokens[h], scope, latest) && scope.expiresAt == At(expires)
    requires forall i :: 0 <= i < |xs| ==> LeavesTokenOpen(xs[i], h, b, latest, expires)
    ensures h in After(w, xs).s.tokens && OpenUntil(After(w, xs).s.tokens[h], scope, latest)
    ensures b in After(w, xs).s.agents <==> b in w.s.agents
  {
    if xs != [] {
      var before := xs[..|xs| - 1];
      PrefixFresh(w, xs);
      OpenThrough(w, before, h, b, scope, latest, expires);
      AlwaysSound(w, before);
      OpenStep(After(w, before), xs[|xs| - 1], h, b, scope, latest, expires);
    }
  }

  lemma ReservedIsOpen(w: World, config: Config, h: string, a: string, now: int, later: int, latest: int)
    requires Sound(w) && Allowed(w.s, Reserve(config, h, a, now, later)) && now <= latest
    ensures var w1 := Step(w, Reserve(config, h, a, now, later));
            h in w1.s.tokens && OpenUntil(w1.s.tokens[h], w.s.tokens[h], latest) && w1.s.agents == w.s.agents
  {
  }

  lemma OpenGrants(w: World, config: Config, h: string, b: string, scope: Token, now: int, later: int)
    requires Sound(w) && h in w.s.tokens && OpenUntil(w.s.tokens[h], scope, now - RESERVATION_TTL)
    requires InScope(config, scope) && scope.expiresAt.At? && later < scope.expiresAt.time && b !in w.s.agents
    ensures Allowed(w.s, Reserve(config, h, b, now, later))
  {
  }

  lemma OpenAfterwards(w: World, config: Config, h: string, scope: Token, xs: seq<Txn>, b: string, now: int, later: int)
    requires Sound(w) && FreshTokens(w, xs) && b !in w.s.agents
    requires h in w.s.tokens && OpenUntil(w.s.tokens[h], scope, now - RESERVATION_TTL)
    requires InScope(config, scope) && scope.expiresAt.At? && later < scope.expiresAt.time
    requires forall i :: 0 <= i < |xs| ==> LeavesTokenOpen(xs[i], h, b, now - RESERVATION_TTL, scope.expiresAt.time)
    ensures Allowed(After(w, xs).s, Reserve(config, h, b, now, later))
  {
    OpenThrough(w, xs, h, b, scope, now - RESERVATION_TTL, scope.expiresAt.time);
    AlwaysSound(w, xs);
    OpenGrants(After(w, xs), config, h, b, scope, now, later);
  }

  /** Reservations that are never committed, because their clients stopped or could not save, keep nobody
      out: after any schedule that leaves the token open, with any number of reservations, rollbacks and
      validations in it, whoever comes 60 seconds after the last reservation gets the token. */
  lemma AbandonedReservationLapses(w: World, config: Config, h: string, a: string, now: int, later: int,
                                   xs: seq<Txn>, b: string, now2: int, later2: int)
    requires Sound(w) && Allowed(w.s, Reserve(config, h, a, now, later))
    requires FreshTokens(Step(w, Reserve(config, h, a, now, later)), xs)
    requires forall i :: 0 <= i < |xs| ==>
      LeavesTokenOpen(xs[i], h, b, now2 - RESERVATION_TTL, w.s.tokens[h].expiresAt.time)
    requires now + RESERVATION_TTL <= now2 && later2 < w.s.tokens[h].expiresAt.time && b !in w.s.agents
    ensures Allowed(After(Step(w, Reserve(config, h, a, now, later)), xs).s, Reserve(config, h, b, now2, later2))
  {
    var scope, latest := w.s.tokens[h], now2 - RESERVATION_TTL;
    StepSound(w, Reserve(config, h, a, now, later));
    ReservedIsOpen(w, config, h, a, now, later, latest);
    OpenAfterwards(Step(w, Reserve(config, h, a, now, later)), config, h, scope, xs, b, now2, later2);
  }

  /** Reservations are not exclusive to their holder: when a stalled client gives up after another one
      has taken over, its rollback withdraws the other's reservation, whose commit is then refused. */
  lemma LateRollbackWithdraws(w: World, config: Config, h: string, a: string, b: string, now: int, agent: Agent)
    requires Sound(w) && Allowed(w.s, Reserve(config, h, a, now, now)) && b !in w.s.agents
    requires now + RESERVATION_TTL < w.s.tokens[h].expiresAt.time
    ensures var w1 := Step(w, Reserve(config, h, a, now, now));
            var takeover := Reserve(config, h, b, now + RESERVATION_TTL, now + RESERVATION_TTL);
            && Allowed(w1.s, takeover)
            && !Allowed(Step(Step(w1, takeover), Rollback(h)).s, Commit(h, b, agent))
  {
  }
}
