/** The gateway's store of enrollment tokens and agents, and the transactions on it. Each transaction
    is one critical section: load, mutate, save. */
module AdminStore {
  import opened Prelude

  // Times are nanoseconds; a stored time that does not parse is Unparsable.
  datatype Stamp = At(time: int) | Unparsable

  const NANOS_PER_SECOND: int := 1_000_000_000
  const RESERVATION_TTL: int := 60 * NANOS_PER_SECOND

  datatype TokenStatus = Active | Reserved | Used | Expired | Revoked

  datatype CredentialStatus = CredentialActive | CredentialExpired | CredentialRevoked

  datatype Token = Token(tokenHash: string, tenantId: string, environmentId: string, maxUses: nat, usedCount: nat,
                         issuedAt: Stamp, expiresAt: Stamp, reservedAt: Option<Stamp>, status: TokenStatus)

  datatype Credential = Credential(credentialId: string, tokenHash: string, issuedAt: Stamp, expiresAt: Stamp)

  datatype StatusReport = StatusReport(version: string, lastSeenAt: Stamp, memoryBytes: Option<nat>,
                                       cpuPercent: Option<real>, latencyMs: Option<nat>,
                                       workStates: Option<seq<string>>)

  datatype Agent = Agent(instanceId: string, tenantId: string, environmentId: string, credential: Credential,
                         credentialStatus: CredentialStatus, registeredAt: Stamp, report: StatusReport)

  datatype Snapshot = Snapshot(tokens: map<string, Token>, agents: map<string, Agent>)

  datatype Config = Config(tenantId: string, environmentId: string, bootstrapTtl: int, credentialTtl: int)

  // ---- Specification of the transactions ----

  /** A reservation that nobody has to respect any more: its time is missing, unreadable or 60 s past. */
  predicate Lapsed(t: Token, now: int) {
    && t.status == Reserved
    && (t.reservedAt.None? || t.reservedAt.value.Unparsable? || RESERVATION_TTL <= now - t.reservedAt.value.time)
  }

  function Released(t: Token): Token {
    t.(usedCount := SatSub(t.usedCount, 1), reservedAt := None, status := Active)
  }

  function Recovered(t: Token, now: int): Token {
    if Lapsed(t, now) then Released(t) else t
  }

  predicate InScope(config: Config, t: Token) {
    t.tenantId == config.tenantId && t.environmentId == config.environmentId
  }

  function NewToken(config: Config, hash: string, now: int): Token {
    Token(hash, config.tenantId, config.environmentId, 1, 0, At(now), At(now + config.bootstrapTtl), None, Active)
  }

  datatype Txn =
    | Issue(config: Config, hash: string, now: int)
    | Validate(config: Config, hash: string, now: int)
    | Reserve(config: Config, hash: string, agentId: string, now: int, later: int)
    | Commit(hash: string, agentId: string, agent: Agent)
    | Rollback(hash: string)
    | Renew(agentId: string, instanceId: string, currentHash: string, issued: Credential)
    | Submit(agentId: string, report: StatusReport)

  /** Whether the transaction reports success. */
  ghost predicate Allowed(s: Snapshot, x: Txn) {
    match x
    case Issue(_, _, _) => true
    case Validate(config, hash, now) =>
      && hash in s.tokens && InScope(config, s.tokens[hash]) && s.tokens[hash].tokenHash == hash
      && s.tokens[hash].expiresAt.At? && now < s.tokens[hash].expiresAt.time
      && var t := Recovered(s.tokens[hash], now); t.status == Active && t.usedCount < t.maxUses
    case Reserve(config, hash, agentId, now, later) =>
      && hash in s.tokens && InScope(config, s.tokens[hash])
      && (var t := Recovered(s.tokens[hash], now); t.status == Active && t.usedCount < t.maxUses && t.tokenHash == hash)
      && s.tokens[hash].expiresAt.At? && later < s.tokens[hash].expiresAt.time
      && agentId !in s.agents
    case Commit(hash, agentId, agent) =>
      hash in s.tokens && s.tokens[hash].status == Reserved && s.tokens[hash].tokenHash == hash && agentId !in s.agents
    case Rollback(_) => true
    case Renew(agentId, instanceId, currentHash, _) =>
      && agentId in s.agents && s.agents[agentId].instanceId == instanceId
      && s.agents[agentId].credential.tokenHash == currentHash && s.agents[agentId].credentialStatus == CredentialActive
    case Submit(_, _) => true
  }

  /** What validation leaves of a token: expiry is noted and a lapsed reservation released, whatever the answer. */
  ghost function Validated(config: Config, hash: string, t: Token, now: int): Token {
    if !InScope(config, t) || t.tokenHash != hash || t.expiresAt.Unparsable? then t
    else if t.expiresAt.time <= now then t.(status := Expired)
    else Recovered(t, now)
  }

  ghost function Committed(t: Token): Token {
    t.(status := if t.maxUses <= t.usedCount then Used else Active, reservedAt := None)
  }

  /** The snapshot the transaction leaves. */
  ghost function Execute(s: Snapshot, x: Txn): Snapshot {
    match x
    case Issue(config, hash, now) => s.(tokens := s.tokens[hash := NewToken(config, hash, now)])
    case Validate(config, hash, now) =>
      if hash in s.tokens then s.(tokens := s.tokens[hash := Validated(config, hash, s.tokens[hash], now)]) else s
    case Reserve(config, hash, agentId, now, later) =>
      if !Allowed(s, x) then s
      else
        var t := Recovered(s.tokens[hash], now);
        var taken := t.(usedCount := SatAdd32(t.usedCount, 1), reservedAt := Some(At(now)), status := Reserved);
        s.(tokens := s.tokens[hash := taken])
    case Commit(hash, agentId, agent) =>
      if !Allowed(s, x) then s
      else Snapshot(s.tokens[hash := Committed(s.tokens[hash])], s.agents[agentId := agent])
    case Rollback(hash) =>
      if hash in s.tokens && s.tokens[hash].status == Reserved
      then s.(tokens := s.tokens[hash := Released(s.tokens[hash])]) else s
    case Renew(agentId, instanceId, currentHash, issued) =>
      if !Allowed(s, x) then s
      else s.(agents := s.agents[agentId := s.agents[agentId].(credential := issued)])
    case Submit(agentId, report) =>
      if agentId in s.agents then s.(agents := s.agents[agentId := s.agents[agentId].(report := report)]) else s
  }

  /** The read-only check of a bearer. */
  ghost predicate Authentic(s: Snapshot, agentId: string, instanceId: string, hash: string, now: int) {
    && agentId in s.agents && s.agents[agentId].instanceId == instanceId
    && s.agents[agentId].credential.tokenHash == hash && s.agents[agentId].credentialStatus == CredentialActive
    && s.agents[agentId].credential.expiresAt.At? && now < s.agents[agentId].credential.expiresAt.time
  }

  // ---- The store ----

  /** Which of an enrollment's saves the file system lets through. */
  datatype Saves = Saves(reserve: bool, commit: bool, rollback: bool)

  /** Compares in full whatever the first difference; the answer is equality. */
  method ConstantTimeEq(left: string, right: string) returns (equal: bool)
    ensures equal <==> left == right
  {
    var differs := |left| != |right|;
    var n := if |left| < |right| then |right| else |left|;
    for i := 0 to n
      invariant |left| != |right| ==> differs
      invariant |left| == |right| ==> (differs <==> left[..i] != right[..i])
    {
      var l := if i < |left| then left[i] else '\0';
      var r := if i < |right| then right[i] else '\0';
      differs := differs || l != r;
    }
    assert |left| == |right| ==> left[..n] == left && right[..n] == right;
    equal := !differs;
  }

  class AdminStore {
    var persisted: Snapshot

    constructor ()
      ensures persisted == Snapshot(map[], map[])
    {
      persisted := Snapshot(map[], map[]);
    }

    method IssueInstallCode(config: Config, hash: string, now: int)
      modifies this
      ensures persisted == Execute(old(persisted), Issue(config, hash, now))
    {
      var expiresAt := now + config.bootstrapTtl;
      var stored := Token(hash, config.tenantId, config.environmentId, 1, 0, At(now), At(expiresAt), None, Active);
      persisted := persisted.(tokens := persisted.tokens[hash := stored]);
    }

    static method RecoverExpiredReservation(token: Token, now: int) returns (t: Token)
      ensures t == Recovered(token, now)
    {
      t := token;
      if t.status != Reserved {
        return;
      }
      match t.reservedAt {
        case Some(At(reservedAt)) =>
          if now - reservedAt < RESERVATION_TTL {
            return;
          }
        case _ =>
      }
      t := t.(usedCount := SatSub(t.usedCount, 1));
      t := t.(reservedAt := None);
      t := t.(status := Active);
    }

    /** Saves the mutated snapshot whatever the answer. */
    method ValidateBootstrapToken(config: Config, hash: string, now: int) returns (r: Result<(), string>)
      modifies this
      ensures r.Ok? <==> Allowed(old(persisted), Validate(config, hash, now))
      ensures r.Ok? ==> old(persisted).tokens[hash].tokenHash == hash
      ensures persisted == Execute(old(persisted), Validate(config, hash, now))
      ensures r.Err? ==>
                r.error ==
                if hash !in old(persisted).tokens then "unknown enrollment token"
                else
                  var t := old(persisted).tokens[hash];
                  if (t.tenantId, t.environmentId) != (config.tenantId, config.environmentId)
                    then "enrollment token environment mismatch"
                  else if t.tokenHash != hash then "enrollment token hash mismatch"
                  else if t.expiresAt == Unparsable then "enrollment token has invalid expiration"
                  else if t.expiresAt.time <= now then "enrollment token is expired"
                  else if t.status != Active && !Lapsed(t, now) then "enrollment token is not active"
                  else "enrollment token is exhausted"
    {
      if hash !in persisted.tokens {
        return Err("unknown enrollment token");
      }
      var stored := persisted.tokens[hash];
      r := Ok(());
      if stored.tenantId != config.tenantId || stored.environmentId != config.environmentId {
        r := Err("enrollment token environment mismatch");
      } else if stored.tokenHash != hash {
        r := Err("enrollment token hash mismatch");
      } else if stored.expiresAt.Unparsable? {
        r := Err("enrollment token has invalid expiration");
      } else if now >= stored.expiresAt.time {
        stored := stored.(status := Expired);
        r := Err("enrollment token is expired");
      } else {
        stored := RecoverExpiredReservation(stored, now);
        if stored.status != Active {
          r := Err("enrollment token is not active");
        } else if stored.usedCount >= stored.maxUses {
          r := Err("enrollment token is exhausted");
        }
      }
      persisted := persisted.(tokens := persisted.tokens[hash := stored]);
    }

    /** Saves only on success: a refused reservation does not even keep the recovery. `saves` says whether
        the file could be written; if not, the transaction has no effect. */
    method ReserveEnrollmentToken(config: Config, hash: string, agentId: string, now: int, later: int, saves: bool)
      returns (r: Result<(), string>)
      modifies this
      ensures r.Ok? <==> saves && Allowed(old(persisted), Reserve(config, hash, agentId, now, later))
      ensures r.Ok? ==> old(persisted).tokens[hash].tokenHash == hash
      ensures persisted ==
              if saves then Execute(old(persisted), Reserve(config, hash, agentId, now, later)) else old(persisted)
      ensures r == Err("duplicate_agent_registration") <==>
              agentId in old(persisted).agents
              && Allowed(old(persisted).(agents := map[]), Reserve(config, hash, agentId, now, later))
      ensures r.Err? && r.error != "duplicate_agent_registration" ==>
                r.error ==
                if Allowed(old(persisted), Reserve(config, hash, agentId, now, later))
                then "store io error" else "invalid_enrollment_token"
    {
      if hash !in persisted.tokens {
        return Err("invalid_enrollment_token");
      }
      var token := persisted.tokens[hash];
      if token.tenantId != config.tenantId || token.environmentId != config.environmentId {
        return Err("invalid_enrollment_token");
      }
      token := RecoverExpiredReservation(token, now);
      if token.status != Active || token.usedCount >= token.maxUses || token.tokenHash != hash {
        return Err("invalid_enrollment_token");
      }
      if token.expiresAt.Unparsable? || later >= token.expiresAt.time {
        return Err("invalid_enrollment_token");
      }
      if agentId in persisted.agents {
        return Err("duplicate_agent_registration");
      }
      token := token.(usedCount := SatAdd32(token.usedCount, 1));
      token := token.(reservedAt := Some(At(now)));
      token := token.(status := Reserved);
      if !saves {
        return Err("store io error");
      }
      persisted := persisted.(tokens := persisted.tokens[hash := token]);
      r := Ok(());
    }

    method CommitReservedRegistration(hash: string, agentId: string, agent: Agent, saves: bool)
      returns (r: Result<(), string>)
      modifies this
      ensures r.Ok? <==> saves && Allowed(old(persisted), Commit(hash, agentId, agent))
      ensures r.Ok? ==> old(persisted).tokens[hash].tokenHash == hash
      ensures persisted == if saves then Execute(old(persisted), Commit(hash, agentId, agent)) else old(persisted)
      ensures r == Err("duplicate_agent_registration") <==>
              agentId in old(persisted).agents &&
              Allowed(old(persisted).(agents := map[]), Commit(hash, agentId, agent))
      ensures r.Err? && r.error != "duplicate_agent_registration" ==>
                r.error ==
                if Allowed(old(persisted), Commit(hash, agentId, agent))
                then "store io error" else "invalid_enrollment_token"
    {
      if hash !in persisted.tokens {
        return Err("invalid_enrollment_token");
      }
      var token := persisted.tokens[hash];
      if token.status != Reserved || token.tokenHash != hash {
        return Err("invalid_enrollment_token");
      }
      if agentId in persisted.agents {
        return Err("duplicate_agent_registration");
      }
      token := token.(status := if token.usedCount >= token.maxUses then Used else Active);
      token := token.(reservedAt := None);
      if !saves {
        return Err("store io error");
      }
      persisted := Snapshot(persisted.tokens[hash := token], persisted.agents[agentId := agent]);
      r := Ok(());
    }

    method RollbackReservation(hash: string, saves: bool) returns (r: Result<(), string>)
      modifies this
      ensures r.Ok? <==> saves
      ensures persisted == if saves then Execute(old(persisted), Rollback(hash)) else old(persisted)
    {
      var tokens := persisted.tokens;
      if hash in tokens {
        var token := tokens[hash];
        if token.status == Reserved {
          token := token.(usedCount := SatSub(token.usedCount, 1));
          token := token.(reservedAt := None);
          token := token.(status := Active);
          tokens := tokens[hash := token];
        }
      }
      if !saves {
        return Err("store io error");
      }
      persisted := persisted.(tokens := tokens);
      r := Ok(());
    }

    /** A whole enrollment with nobody else at work, where any of the saves may fail. An accepted one is a
        reservation and its commit. A rejected one registers no agent: it takes its reservation back and
        thereby at most releases a lapsed one, or, if the rollback could not be saved, leaves the token
        reserved. The failure of a rollback goes unnoticed. */
    method EnrollAgent(config: Config, apiVersion: string, kind: string, hash: string, agentId: string, agent: Agent,
                       issued: Option<Credential>, now: int, later: int, saves: Saves) returns (accepted: bool)
      requires forall h :: h in persisted.tokens ==> persisted.tokens[h].maxUses <= U32_MAX
      requires hash in persisted.tokens && persisted.tokens[hash].status == Active ==>
                 persisted.tokens[hash].reservedAt == None
      modifies this
      ensures var reserves := apiVersion == "v1" && kind == "submit_enrollment_request" && saves.reserve
                              && Allowed(old(persisted), Reserve(config, hash, agentId, now, later));
              var reserved := Execute(old(persisted), Reserve(config, hash, agentId, now, later));
              && (accepted <==> reserves && issued.Some? && saves.commit)
              && (accepted ==>
                   && persisted == Execute(reserved, Commit(hash, agentId, agent.(credential := issued.value)))
                   && persisted.agents == old(persisted).agents[agentId := agent.(credential := issued.value)])
              && (!accepted ==>
                   persisted ==
                   if !reserves then old(persisted)
                   else if !saves.rollback then reserved
                   else old(persisted).(tokens :=
                     old(persisted).tokens[hash := Recovered(old(persisted).tokens[hash], now)]))
    {
      if apiVersion != "v1" || kind != "submit_enrollment_request" {
        return false;
      }
      var reservation := ReserveEnrollmentToken(config, hash, agentId, now, later, saves.reserve);
      if reservation.Err? {
        return false;
      }
      if issued.None? {
        var _ := RollbackReservation(hash, saves.rollback);
        return false;
      }
      var commit := CommitReservedRegistration(hash, agentId, agent.(credential := issued.value), saves.commit);
      if commit.Err? {
        var _ := RollbackReservation(hash, saves.rollback);
        return false;
      }
      return true;
    }

    /** Replaces the credential only if it is still the one the caller authenticated with. */
    method RenewCredential(agentId: string, instanceId: string, currentHash: string, issued: Credential)
      returns (renewed: bool)
      modifies this
      ensures renewed <==> Allowed(old(persisted), Renew(agentId, instanceId, currentHash, issued))
      ensures persisted == Execute(old(persisted), Renew(agentId, instanceId, currentHash, issued))
    {
      if agentId !in persisted.agents {
        return false;
      }
      var stored := persisted.agents[agentId];
      if stored.instanceId != instanceId || stored.credential.tokenHash != currentHash
         || stored.credentialStatus != CredentialActive
      {
        return false;
      }
      stored := stored.(credential := issued);
      persisted := persisted.(agents := persisted.agents[agentId := stored]);
      return true;
    }

    method SubmitStatus(agentId: string, report: StatusReport)
      modifies this
      ensures persisted == Execute(old(persisted), Submit(agentId, report))
    {
      if agentId in persisted.agents {
        var stored := persisted.agents[agentId];
        stored := stored.(report := report);
        persisted := persisted.(agents := persisted.agents[agentId := stored]);
      }
    }

    method AuthenticateAgent(agentId: string, instanceId: string, hash: string, now: int)
      returns (r: Result<Agent, string>)
      ensures r.Ok? <==> Authentic(persisted, agentId, instanceId, hash, now)
      ensures r.Ok? ==> r.value == persisted.agents[agentId]
      ensures r.Err? ==>
                r.error ==
                if agentId !in persisted.agents then "unknown agent credential"
                else
                  var agent := persisted.agents[agentId];
                  if (agent.instanceId, agent.credential.tokenHash) != (instanceId, hash)
                    then "invalid agent credential"
                  else if agent.credentialStatus != CredentialActive then "agent credential is not active"
                  else "agent credential is expired"
    {
      if agentId !in persisted.agents {
        return Err("unknown agent credential");
      }
      var agent := persisted.agents[agentId];
      var same := ConstantTimeEq(agent.credential.tokenHash, hash);
      if agent.instanceId != instanceId || !same {
        return Err("invalid agent credential");
      }
      if agent.credentialStatus != CredentialActive {
        return Err("agent credential is not active");
      }
      if agent.credential.expiresAt.Unparsable? || now >= agent.credential.expiresAt.time {
        return Err("agent credential is expired");
      }
      return Ok(agent);
    }
  }
}
