/** Agent credentials under every schedule of registrations, renewals, status reports and checks. */
module CredentialTheory {
  import opened Prelude
  import opened AdminStore

  datatype Rotation = Rotation(agentId: string, oldHash: string, issued: Credential)

  /** The store with all credentials ever installed, each agent as it was registered, all successful renewals,
      in order, and what each agent reported last. */
  datatype History = History(s: Snapshot, installed: set<string>, registered: map<string, Agent>,
                             rotations: seq<Rotation>, reported: map<string, StatusReport>)

  ghost function Empty(): History {
    History(Snapshot(map[], map[]), {}, map[], [], map[])
  }

  ghost function Step(w: History, x: Txn): History {
    var w1 := w.(s := Execute(w.s, x));
    match x
    case Commit(_, agentId, agent) =>
      if !Allowed(w.s, x) then w1
      else w1.(installed := w.installed + {agent.credential.tokenHash}, registered := w.registered[agentId := agent])
    case Renew(agentId, _, currentHash, issued) =>
      if !Allowed(w.s, x) then w1
      else w1.(installed := w.installed + {issued.tokenHash},
               rotations := w.rotations + [Rotation(agentId, currentHash, issued)])
    case Submit(agentId, report) =>
      if agentId in w.registered then w1.(reported := w.reported[agentId := report]) else w1
    case _ => w1
  }

  ghost function After(w: History, xs: seq<Txn>): History {
    if xs == [] then w else Step(After(w, xs[..|xs| - 1]), xs[|xs| - 1])
  }

  ghost predicate BringsFresh(w: History, x: Txn) {
    && (x.Commit? ==> x.agent.credential.tokenHash !in w.installed)
    && (x.Renew? ==> x.issued.tokenHash !in w.installed)
  }

  /** Bearer tokens are random: none has been installed before. */
  ghost predicate FreshCredentials(w: History, xs: seq<Txn>) {
    xs == [] || (FreshCredentials(w, xs[..|xs| - 1]) && BringsFresh(After(w, xs[..|xs| - 1]), xs[|xs| - 1]))
  }

  ghost function LastOf(rotations: seq<Rotation>, a: string): Option<Rotation> {
    if rotations == [] then None
    else
      var n := |rotations| - 1;
      if rotations[n].agentId == a then Some(rotations[n]) else LastOf(rotations[..n], a)
  }

  ghost predicate Superseded(w: History, hash: string) {
    exists i :: 0 <= i < |w.rotations| && w.rotations[i].oldHash == hash
  }

  /** What the agent holds after the renewals: the last one's, or else what its registration installed. */
  ghost function Holds(registered: map<string, Agent>, rotations: seq<Rotation>, a: string): Option<Credential> {
    var last := LastOf(rotations, a);
    if last.Some? then Some(last.value.issued)
    else if a in registered then Some(registered[a].credential)
    else None
  }

  /** Each renewal takes over what the previous renewal of the same agent issued, the first one what the
      agent's registration installed. */
  ghost predicate Chain(registered: map<string, Agent>, rotations: seq<Rotation>) {
    rotations == [] || (
      var n := |rotations| - 1;
      var held := Holds(registered, rotations[..n], rotations[n].agentId);
      Chain(registered, rotations[..n]) && held.Some? && held.value.tokenHash == rotations[n].oldHash)
  }

  /** No credential is held twice, or held and superseded, or superseded twice. */
  ghost predicate Unshared(w: History) {
    && (forall a :: a in w.s.agents ==>
         var hash := w.s.agents[a].credential.tokenHash; hash in w.installed && !Superseded(w, hash))
    && (forall a, b :: a in w.s.agents && b in w.s.agents && a != b ==>
         w.s.agents[a].credential.tokenHash != w.s.agents[b].credential.tokenHash)
    && (forall hash :: Superseded(w, hash) ==> hash in w.installed)
    && (forall i, j :: 0 <= i < j < |w.rotations| ==> w.rotations[i].oldHash != w.rotations[j].oldHash)
  }

  /** The stored agent is the registered one but for the credential it holds and what it reported last. */
  ghost predicate IsAgent(w: History, a: string)
    requires a in w.s.agents
  {
    && a in w.registered && Holds(w.registered, w.rotations, a).Some?
    && w.s.agents[a] == w.registered[a].(
         credential := Holds(w.registered, w.rotations, a).value,
         report := if a in w.reported then w.reported[a] else w.registered[a].report)
  }

  /** The renewals lead from what was registered to what is held. */
  ghost predicate Linked(w: History) {
    && w.registered.Keys == w.s.agents.Keys && w.reported.Keys <= w.registered.Keys
    && Chain(w.registered, w.rotations)
    && (forall a :: a in w.s.agents ==> IsAgent(w, a))
    && (forall i :: 0 <= i < |w.rotations| ==> w.rotations[i].agentId in w.registered)
  }

  ghost predicate Sound(w: History) {
    Unshared(w) && Linked(w)
  }

  lemma {:induction false} ChainGrows(registered: map<string, Agent>, more: map<string, Agent>,
    rotations: seq<Rotation>)
    requires Chain(registered, rotations) && forall a :: a in registered ==> a in more && more[a] == registered[a]
    ensures Chain(more, rotations)
  {
    if rotations != [] {
      ChainGrows(registered, more, rotations[..|rotations| - 1]);
    }
  }

  lemma {:induction false} NotRotated(rotations: seq<Rotation>, a: string)
    requires forall i :: 0 <= i < |rotations| ==> rotations[i].agentId != a
    ensures LastOf(rotations, a).None?
  {
    if rotations != [] {
      NotRotated(rotations[..|rotations| - 1], a);
    }
  }

  lemma EmptySound()
    ensures Sound(Empty())
  {
  }

  lemma CommitUnshared(w: History, hash: string, a: string, agent: Agent)
    requires Unshared(w) && Allowed(w.s, Commit(hash, a, agent)) && agent.credential.tokenHash !in w.installed
    ensures Unshared(Step(w, Commit(hash, a, agent)))
  {
    var w1 := Step(w, Commit(hash, a, agent));
    assert forall h :: Superseded(w1, h) <==> Superseded(w, h);
  }

  lemma CommitLinked(w: History, hash: string, a: string, agent: Agent)
    requires Linked(w) && Allowed(w.s, Commit(hash, a, agent))
    ensures Linked(Step(w, Commit(hash, a, agent)))
  {
    ChainGrows(w.registered, Step(w, Commit(hash, a, agent)).registered, w.rotations);
    NotRotated(w.rotations, a);
  }

  lemma RenewUnshared(w: History, x: Txn)
    requires Unshared(w) && x.Renew? && Allowed(w.s, x) && x.issued.tokenHash !in w.installed
    ensures Unshared(Step(w, x))
  {
    var w1 := Step(w, x);
    var n := |w.rotations|;
    forall h ensures Superseded(w1, h) <==> Superseded(w, h) || h == x.currentHash {
      assert w1.rotations[n].oldHash == x.currentHash;
      assert forall i :: 0 <= i < n ==> w1.rotations[i] == w.rotations[i];
    }
    assert forall i :: 0 <= i < n ==> Superseded(w, w.rotations[i].oldHash);
  }

  lemma LastOfAppend(rotations: seq<Rotation>, last: Rotation, b: string)
    ensures LastOf(rotations + [last], b) == if b == last.agentId then Some(last) else LastOf(rotations, b)
  {
    assert (rotations + [last])[..|rotations|] == rotations;
  }

  lemma ChainAppend(registered: map<string, Agent>, rotations: seq<Rotation>, last: Rotation)
    requires Chain(registered, rotations) && Holds(registered, rotations, last.agentId).Some?
    requires Holds(registered, rotations, last.agentId).value.tokenHash == last.oldHash
    ensures Chain(registered, rotations + [last])
  {
    assert (rotations + [last])[..|rotations|] == rotations;
  }

  lemma RenewLinked(w: History, x: Txn)
    requires Linked(w) && x.Renew? && Allowed(w.s, x)
    ensures Linked(Step(w, x))
  {
    var last := Rotation(x.agentId, x.currentHash, x.issued);
    ChainAppend(w.registered, w.rotations, last);
    forall b
      ensures LastOf(w.rotations + [last], b) == if b == last.agentId then Some(last) else LastOf(w.rotations, b)
    {
      LastOfAppend(w.rotations, last, b);
    }
  }

  /** Nothing but a registration or a successful renewal touches a credential; a status report replaces the
      report of its agent and nothing else. */
  lemma OthersKeepCredentials(s: Snapshot, x: Txn)
    requires !(x.Commit? || x.Renew?) || !Allowed(s, x)
    ensures Execute(s, x).agents.Keys == s.agents.Keys
    ensures forall a :: a in s.agents ==>
      Execute(s, x).agents[a] ==
      if x.Submit? && x.agentId == a then s.agents[a].(report := x.report) else s.agents[a]
  {
  }

  lemma SameHashes(w: History, w1: History)
    requires Unshared(w) && w1.installed == w.installed && w1.rotations == w.rotations
    requires w1.s.agents.Keys == w.s.agents.Keys
    requires forall a :: a in w.s.agents ==> w1.s.agents[a].credential.tokenHash == w.s.agents[a].credential.tokenHash
    ensures Unshared(w1)
  {
    assert forall h :: Superseded(w1, h) <==> Superseded(w, h);
  }

  lemma OthersUnshared(w: History, x: Txn)
    requires Unshared(w) && (!(x.Commit? || x.Renew?) || !Allowed(w.s, x))
    ensures Unshared(Step(w, x))
  {
    OthersKeepCredentials(w.s, x);
    SameHashes(w, Step(w, x));
  }

  lemma OthersLinked(w: History, x: Txn)
    requires Linked(w) && (!(x.Commit? || x.Renew?) || !Allowed(w.s, x))
    ensures Linked(Step(w, x))
  {
    OthersKeepCredentials(w.s, x);
    var w1 := Step(w, x);
    assert w1.rotations == w.rotations && w1.registered == w.registered;
    assert w1.reported ==
      if x.Submit? && x.agentId in w.registered then w.reported[x.agentId := x.report] else w.reported;
    forall a | a in w1.s.agents ensures IsAgent(w1, a) {
      assert IsAgent(w, a);
    }
  }

  lemma StepSound(w: History, x: Txn)
    requires Sound(w) && BringsFresh(w, x)
    ensures Sound(Step(w, x))
  {
    if x.Commit? && Allowed(w.s, x) {
      CommitUnshared(w, x.hash, x.agentId, x.agent);
      CommitLinked(w, x.hash, x.agentId, x.agent);
    } else if x.Renew? && Allowed(w.s, x) {
      RenewUnshared(w, x);
      RenewLinked(w, x);
    } else {
      OthersUnshared(w, x);
      OthersLinked(w, x);
    }
  }

  lemma {:induction false} AlwaysSound(w: History, xs: seq<Txn>)
    requires Sound(w) && FreshCredentials(w, xs)
    ensures Sound(After(w, xs))
  {
    if xs != [] {
      AlwaysSound(w, xs[..|xs| - 1]);
      StepSound(After(w, xs[..|xs| - 1]), xs[|xs| - 1]);
    }
  }

  /** In every schedule, the successful renewals of an agent form a chain, each taking over exactly the
      credential the previous one issued, the first one that of the agent's registration; what the agent
      holds in the end is the last of the chain, with its expiry; and no credential is ever renewed twice. Else
      the agent is as it was registered, but for what it reported last. */
  lemma RotationIsChain(w: History, xs: seq<Txn>)
    requires Sound(w) && FreshCredentials(w, xs)
    ensures var r := After(w, xs);
            && Chain(r.registered, r.rotations)
            && (forall a :: a in r.s.agents ==> IsAgent(r, a))
            && forall i, j :: 0 <= i < j < |r.rotations| ==> r.rotations[i].oldHash != r.rotations[j].oldHash
  {
    AlwaysSound(w, xs);
  }

  lemma RegisteredOnce(w: History, x: Txn, a: string)
    requires Linked(w) && a in w.registered
    ensures a in Step(w, x).registered && Step(w, x).registered[a] == w.registered[a]
  {
    assert a in w.s.agents;
  }

  lemma {:induction false} RegisteredThrough(w: History, xs: seq<Txn>, i: nat, a: string)
    requires Sound(w) && FreshCredentials(w, xs) && i <= |xs| && a in After(w, xs[..i]).registered
    ensures a in After(w, xs).registered && After(w, xs).registered[a] == After(w, xs[..i]).registered[a]
    decreases |xs|
  {
    if i == |xs| {
      assert xs[..i] == xs;
    } else {
      var before := xs[..|xs| - 1];
      assert before[..i] == xs[..i];
      RegisteredThrough(w, before, i, a);
      AlwaysSound(w, before);
      RegisteredOnce(After(w, before), xs[|xs| - 1], a);
    }
  }

  /** What was registered is never rewritten. */
  lemma RegisteredStays(w: History, xs: seq<Txn>, a: string)
    requires Sound(w) && FreshCredentials(w, xs) && a in w.registered
    ensures a in After(w, xs).registered && After(w, xs).registered[a] == w.registered[a]
  {
    RegisteredThrough(w, xs, 0, a);
  }

  lemma {:induction false} RotationsGrow(w: History, xs: seq<Txn>, i: nat)
    requires i <= |xs|
    ensures After(w, xs[..i]).rotations <= After(w, xs).rotations
    decreases |xs|
  {
    if i == |xs| {
      assert xs[..i] == xs;
    } else {
      RotationsGrow(w, xs[..|xs| - 1], i);
      assert xs[..|xs| - 1][..i] == xs[..i];
    }
  }

  lemma {:induction false} PrefixFresh(w: History, xs: seq<Txn>, i: nat)
    requires i <= |xs| && FreshCredentials(w, xs)
    ensures FreshCredentials(w, xs[..i])
    decreases |xs|
  {
    if i == |xs| {
      assert xs[..i] == xs;
    } else {
      PrefixFresh(w, xs[..|xs| - 1], i);
      assert xs[..|xs| - 1][..i] == xs[..i];
    }
  }

  /** Who is let in, after any schedule: the bearer of the credential that the agent was issued last, from the
      instance that was registered, until that credential expires. */
  lemma AuthenticExactly(w: History, xs: seq<Txn>, a: string, instanceId: string, hash: string, now: int)
    requires Sound(w) && FreshCredentials(w, xs)
    ensures var r := After(w, xs);
            Authentic(r.s, a, instanceId, hash, now) <==>
            && a in r.registered && instanceId == r.registered[a].instanceId
            && r.registered[a].credentialStatus == CredentialActive
            && Holds(r.registered, r.rotations, a).Some?
            && var held := Holds(r.registered, r.rotations, a).value;
               hash == held.tokenHash && held.expiresAt.At? && now < held.expiresAt.time
  {
    AlwaysSound(w, xs);
    assert a in After(w, xs).s.agents ==> IsAgent(After(w, xs), a);
  }

  /** And which renewal succeeds: that of this credential from this instance. */
  lemma RenewGrantedExactly(w: History, xs: seq<Txn>, a: string, instanceId: string, hash: string, issued: Credential)
    requires Sound(w) && FreshCredentials(w, xs)
    ensures var r := After(w, xs);
            Allowed(r.s, Renew(a, instanceId, hash, issued)) <==>
            && a in r.registered && instanceId == r.registered[a].instanceId
            && r.registered[a].credentialStatus == CredentialActive
            && Holds(r.registered, r.rotations, a).Some?
            && hash == Holds(r.registered, r.rotations, a).value.tokenHash
  {
    AlwaysSound(w, xs);
    assert a in After(w, xs).s.agents ==> IsAgent(After(w, xs), a);
  }

  lemma {:induction false} OthersRotate(w: History, xs: seq<Txn>, i: nat, a: string)
    requires i <= |xs| && forall j :: i <= j < |xs| ==> !(xs[j].Renew? && xs[j].agentId == a)
    ensures LastOf(After(w, xs).rotations, a) == LastOf(After(w, xs[..i]).rotations, a)
    decreases |xs|
  {
    if i == |xs| {
      assert xs[..i] == xs;
    } else {
      var before, x := xs[..|xs| - 1], xs[|xs| - 1];
      OthersRotate(w, before, i, a);
      assert before[..i] == xs[..i];
      if x.Renew? {
        LastOfAppend(After(w, before).rotations, Rotation(x.agentId, x.currentHash, x.issued), a);
      }
    }
  }

  /** So whoever renewed is let in with the new credential from then on, until it expires or is renewed. */
  lemma RenewedIsLetIn(w: History, xs: seq<Txn>, i: nat, now: int)
    requires Sound(w) && FreshCredentials(w, xs) && i < |xs| && xs[i].Renew? && Allowed(After(w, xs[..i]).s, xs[i])
    requires forall j :: i < j < |xs| ==> !(xs[j].Renew? && xs[j].agentId == xs[i].agentId)
    ensures var x := xs[i];
            Authentic(After(w, xs).s, x.agentId, x.instanceId, x.issued.tokenHash, now) <==>
            x.issued.expiresAt.At? && now < x.issued.expiresAt.time
  {
    var x := xs[i];
    assert xs[..i + 1][..i] == xs[..i];
    LastOfAppend(After(w, xs[..i]).rotations, Rotation(x.agentId, x.currentHash, x.issued), x.agentId);
    OthersRotate(w, xs, i + 1, x.agentId);
    PrefixFresh(w, xs, i);
    RenewGrantedExactly(w, xs[..i], x.agentId, x.instanceId, x.currentHash, x.issued);
    RegisteredThrough(w, xs, i, x.agentId);
    AuthenticExactly(w, xs, x.agentId, x.instanceId, x.issued.tokenHash, now);
  }

  lemma UselessNow(w: History, hash: string, a: string, instanceId: string, now: int, issued: Credential)
    requires Unshared(w) && Superseded(w, hash)
    ensures !Authentic(w.s, a, instanceId, hash, now) && !Allowed(w.s, Renew(a, instanceId, hash, issued))
  {
  }

  /** A credential that has been renewed authenticates nobody and renews nothing, ever after. */
  lemma SupersededIsUseless(w: History, xs: seq<Txn>, i: nat, a: string, instanceId: string, now: int,
    issued: Credential)
    requires Sound(w) && FreshCredentials(w, xs) && i < |xs| && xs[i].Renew? && Allowed(After(w, xs[..i]).s, xs[i])
    ensures !Authentic(After(w, xs).s, a, instanceId, xs[i].currentHash, now)
    ensures !Allowed(After(w, xs).s, Renew(a, instanceId, xs[i].currentHash, issued))
  {
    var q := After(w, xs[..i + 1]);
    assert xs[..i + 1][..i] == xs[..i];
    assert q.rotations[|q.rotations| - 1].oldHash == xs[i].currentHash;
    RotationsGrow(w, xs, i + 1);
    assert After(w, xs).rotations[|q.rotations| - 1].oldHash == xs[i].currentHash;
    AlwaysSound(w, xs);
    UselessNow(After(w, xs), xs[i].currentHash, a, instanceId, now, issued);
  }

  /** Of all renewals that authenticated with one credential, however they interleave with anything
      else, at most one succeeds. */
  lemma OneWinner(w: History, xs: seq<Txn>, i: nat, j: nat)
    requires Sound(w) && FreshCredentials(w, xs) && i < j < |xs| && xs[i].Renew? && xs[j].Renew?
    requires xs[i].currentHash == xs[j].currentHash && Allowed(After(w, xs[..i]).s, xs[i])
    ensures !Allowed(After(w, xs[..j]).s, xs[j])
  {
    PrefixFresh(w, xs, j);
    assert xs[..j][..i] == xs[..i];
    var x := xs[j];
    SupersededIsUseless(w, xs[..j], i, x.agentId, x.instanceId, 0, x.issued);
  }
}
