/** What an install token is after any schedule from the empty store, told from the schedule alone: by whom it
    was issued, whether it was found expired, how often it was used and since when it is held. */
module TokenHistory {
  import opened Prelude
  import opened AdminStore
  import opened EnrollmentTheory

  /** The transaction that issued the token. */
  ghost function IssueOf(xs: seq<Txn>, h: string): (r: Option<Txn>)
    ensures r.Some? ==> r.value.Issue? && r.value.hash == h && r.value in xs
  {
    if xs == [] then None
    else
      var x := xs[|xs| - 1];
      if x.Issue? && x.hash == h then Some(x) else IssueOf(xs[..|xs| - 1], h)
  }

  ghost function Expiry(issue: Txn): int
    requires issue.Issue?
  {
    issue.now + issue.config.bootstrapTtl
  }

  ghost predicate SameScope(config: Config, issue: Txn)
    requires issue.Issue?
  {
    config.tenantId == issue.config.tenantId && config.environmentId == issue.config.environmentId
  }

  /** Some validation on behalf of the token's tenant and environment came too late. */
  ghost predicate FoundExpired(xs: seq<Txn>, h: string) {
    xs != [] && (
      var before, x := xs[..|xs| - 1], xs[|xs| - 1];
      var issue := IssueOf(before, h);
      || FoundExpired(before, h)
      || (issue.Some? && x.Validate? && x.hash == h && SameScope(x.config, issue.value) &&
          Expiry(issue.value) <= x.now))
  }

  /** The time of the last granted reservation, unless the token was released since. */
  ghost function HeldSince(xs: seq<Txn>, h: string): Option<int> {
    if xs == [] then None
    else
      var before, x := xs[..|xs| - 1], xs[|xs| - 1];
      var s := After(Empty(), before).s;
      if Reserves(s, x, h) then Some(x.now)
      else if Releases(s, x, h) then None
      else HeldSince(before, h)
  }

  ghost predicate StatusIs(t: Token, expired: bool, uses: nat, held: Option<int>) {
    if expired then t.status == Expired
    else if 1 <= uses then t.status == Used && uses == 1 && t.usedCount == 1 && t.reservedAt == None
    else if held.Some? then t.status == Reserved && t.usedCount == 1 && t.reservedAt == Some(At(held.value))
    else t.status == Active && t.usedCount == 0 && t.reservedAt == None
  }

  ghost predicate Told(w: World, h: string, issue: Option<Txn>, expired: bool, held: Option<int>) {
    && (h in w.s.tokens <==> issue.Some?)
    && (issue.None? ==> !expired && held.None?)
    && (issue.Some? ==>
         && issue.value.Issue?
         && w.s.tokens[h].tenantId == issue.value.config.tenantId
         && w.s.tokens[h].environmentId == issue.value.config.environmentId
         && w.s.tokens[h].issuedAt == At(issue.value.now) && w.s.tokens[h].expiresAt == At(Expiry(issue.value))
         && w.s.tokens[h].maxUses == 1
         && StatusIs(w.s.tokens[h], expired, Uses(w.log, h), held))
  }

  lemma IssueTold(w: World, x: Txn, h: string)
    requires Sound(w) && x.Issue? && x.hash == h && h !in w.issued
    ensures Told(Step(w, x), h, Some(x), false, None)
  {
  }

  lemma CommitTold(w: World, x: Txn, h: string, issue: Txn, expired: bool, held: Option<int>)
    requires Sound(w) && Told(w, h, Some(issue), expired, held) && x.Commit?
    ensures Told(Step(w, x), h, Some(issue), expired, if Releases(w.s, x, h) then None else held)
  {
    UsesAppend(w.log, Registration(x.hash, x.agentId), h);
  }

  lemma OtherTold(w: World, x: Txn, h: string, issue: Txn, expired: bool, held: Option<int>)
    requires Sound(w) && Told(w, h, Some(issue), expired, held) && !x.Commit? && !(x.Issue? && x.hash == h)
    ensures Told(Step(w, x), h, Some(issue),
      expired || (x.Validate? && x.hash == h && SameScope(x.config, issue) && Expiry(issue) <= x.now),
      if Reserves(w.s, x, h) then Some(x.now) else if Releases(w.s, x, h) then None else held)
  {
  }

  lemma UnknownTold(w: World, x: Txn, h: string)
    requires Sound(w) && Told(w, h, None, false, None) && !(x.Issue? && x.hash == h)
    ensures Told(Step(w, x), h, None, false, None) && !Reserves(w.s, x, h)
  {
  }

  /** After every schedule with fresh tokens, the token's fields are those of its issue, and its status is
      decided by the schedule: expired if a validation found it so, or else used if it registered an agent, or
      else reserved since the last granted reservation that was not released, or else active. */
  lemma {:induction false} TokenOfSchedule(xs: seq<Txn>, h: string)
    requires FreshTokens(Empty(), xs)
    ensures Told(After(Empty(), xs), h, IssueOf(xs, h), FoundExpired(xs, h), HeldSince(xs, h))
  {
    if xs != [] {
      var before, x := xs[..|xs| - 1], xs[|xs| - 1];
      var w := After(Empty(), before);
      PrefixFresh(Empty(), xs);
      TokenOfSchedule(before, h);
      AlwaysSound(Empty(), before);
      if x.Issue? && x.hash == h {
        IssueTold(w, x, h);
      } else if IssueOf(before, h).None? {
        UnknownTold(w, x, h);
      } else if x.Commit? {
        CommitTold(w, x, h, IssueOf(before, h).value, FoundExpired(before, h), HeldSince(before, h));
      } else {
        OtherTold(w, x, h, IssueOf(before, h).value, FoundExpired(before, h), HeldSince(before, h));
      }
    }
  }

  /** Issued, never found expired, never used, and not held for less than 60 seconds. */
  ghost predicate Available(xs: seq<Txn>, h: string, now: int) {
    && IssueOf(xs, h).Some? && !FoundExpired(xs, h) && Uses(After(Empty(), xs).log, h) == 0
    && (HeldSince(xs, h).Some? ==> HeldSince(xs, h).value + 60 * 1_000_000_000 <= now)
  }

  /** Whether a reservation is granted is decided by the schedule. For another tenant or environment than the
      token was issued for it never is, and a refused one changes nothing. */
  lemma ReserveBySchedule(xs: seq<Txn>, config: Config, h: string, a: string, now: int, later: int)
    requires FreshTokens(Empty(), xs)
    ensures var s := After(Empty(), xs).s; var x := Reserve(config, h, a, now, later);
            && (Allowed(s, x) <==>
                 && Available(xs, h, now) && SameScope(config, IssueOf(xs, h).value)
                 && later < Expiry(IssueOf(xs, h).value) && a !in s.agents)
            && (!Allowed(s, x) ==> Execute(s, x) == s)
  {
    TokenOfSchedule(xs, h);
    AlwaysSound(Empty(), xs);
    ReserveGrantedExactly(After(Empty(), xs), config, h, a, now, later);
  }

  /** So is what validation answers. */
  lemma ValidateBySchedule(xs: seq<Txn>, config: Config, h: string, now: int)
    requires FreshTokens(Empty(), xs)
    ensures Allowed(After(Empty(), xs).s, Validate(config, h, now)) <==>
            && Available(xs, h, now) && SameScope(config, IssueOf(xs, h).value) && now < Expiry(IssueOf(xs, h).value)
  {
    TokenOfSchedule(xs, h);
    AlwaysSound(Empty(), xs);
    ValidateGrantedExactly(After(Empty(), xs), config, h, now);
  }

  /** From any reachable store, a fresh install code validates for its own tenant and environment until its
      lifetime is over, and for nobody else. */
  lemma FreshCodeValidates(w: World, config: Config, h: string, now: int, other: Config, later: int)
    requires Sound(w) && h !in w.issued
    ensures Allowed(Step(w, Issue(config, h, now)).s, Validate(other, h, later)) <==>
            && other.tenantId == config.tenantId && other.environmentId == config.environmentId
            && later < now + config.bootstrapTtl
  {
    StepSound(w, Issue(config, h, now));
    ValidateGrantedExactly(Step(w, Issue(config, h, now)), other, h, later);
  }
}
