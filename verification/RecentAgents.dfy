/** The overview's list of recently enrolled agents, kept in place, against the full history. */
module RecentAgents {

  const LIMIT: nat := 6

  datatype Entry = Entry(agentId: string, instanceId: string, version: string, registeredAt: int)

  /** The entries whose agent is not among `seen` and does not occur earlier. */
  function FirstOnly(s: seq<Entry>, seen: set<string>): seq<Entry> {
    if s == [] then []
    else if s[0].agentId in seen then FirstOnly(s[1..], seen)
    else [s[0]] + FirstOnly(s[1..], seen + {s[0].agentId})
  }

  function Take(s: seq<Entry>, n: nat): seq<Entry> {
    if |s| <= n then s else s[..n]
  }

  function Without(s: seq<Entry>, id: string): seq<Entry> {
    if s == [] then []
    else if s[0].agentId == id then Without(s[1..], id) else [s[0]] + Without(s[1..], id)
  }

  function Ids(s: seq<Entry>): set<string> {
    if s == [] then {} else {s[0].agentId} + Ids(s[1..])
  }

  ghost predicate Distinct(s: seq<Entry>) {
    s == [] || (s[0].agentId !in Ids(s[1..]) && Distinct(s[1..]))
  }

  /** What the list should be: of all enrollments, newest first, the first six of different agents. */
  ghost function Expected(history: seq<Entry>): seq<Entry> {
    Take(FirstOnly(history, {}), LIMIT)
  }

  method Retain(agents: seq<Entry>, id: string) returns (kept: seq<Entry>)
    ensures kept == Without(agents, id)
  {
    kept := [];
    for i := 0 to |agents|
      invariant kept + Without(agents[i..], id) == Without(agents, id)
    {
      assert agents[i..][1..] == agents[i + 1..];
      if agents[i].agentId != id {
        kept := kept + [agents[i]];
      }
    }
  }

  lemma {:induction false} WithoutMore(s: seq<Entry>, seen: set<string>, id: string)
    ensures FirstOnly(s, seen + {id}) == Without(FirstOnly(s, seen), id)
  {
    if s != [] {
      var next := s[0].agentId;
      WithoutMore(s[1..], seen, id);
      WithoutMore(s[1..], seen + {next}, id);
      assert seen + {id} + {next} == seen + {next} + {id};
      if next == id && id !in seen {
        assert seen + {id} + {id} == seen + {id};
        var rest := FirstOnly(s[1..], seen + {id});
        assert ([s[0]] + rest)[1..] == rest;
      }
    }
  }

  lemma {:induction false} FirstOnlyDistinct(s: seq<Entry>, seen: set<string>)
    ensures Distinct(FirstOnly(s, seen)) && Ids(FirstOnly(s, seen)) == Ids(s) - seen
  {
    if s != [] {
      var next := s[0].agentId;
      if next in seen {
        FirstOnlyDistinct(s[1..], seen);
      } else {
        FirstOnlyDistinct(s[1..], seen + {next});
        assert ([s[0]] + FirstOnly(s[1..], seen + {next}))[1..] == FirstOnly(s[1..], seen + {next});
      }
    }
  }

  lemma {:induction false} WithoutAbsent(s: seq<Entry>, id: string)
    requires id !in Ids(s)
    ensures Without(s, id) == s
  {
    if s != [] {
      WithoutAbsent(s[1..], id);
    }
  }

  lemma TailOfCut(s: seq<Entry>, n: nat)
    requires n < |s|
    ensures s[..n + 1][1..] == s[1..][..n]
  {
  }

  lemma {:induction false} IdsConcat(a: seq<Entry>, b: seq<Entry>)
    ensures Ids(a + b) == Ids(a) + Ids(b)
  {
    if a == [] {
      assert a + b == b;
    } else {
      IdsConcat(a[1..], b);
      assert (a + b)[1..] == a[1..] + b;
    }
  }

  lemma IdsOfCut(s: seq<Entry>, n: nat)
    requires n <= |s|
    ensures Ids(s[..n]) <= Ids(s)
  {
    IdsConcat(s[..n], s[n..]);
    assert s == s[..n] + s[n..];
  }

  lemma TakePush(x: Entry, s: seq<Entry>, n: nat)
    ensures Take([x] + s, n + 1) == [x] + Take(s, n)
  {
  }

  /** Cutting the list before removing an agent loses nothing, for at most one entry is removed. */
  lemma {:induction false} CutFirst(s: seq<Entry>, id: string, n: nat)
    requires Distinct(s)
    ensures Take(Without(Take(s, n + 1), id), n) == Take(Without(s, id), n)
    decreases |s|
  {
    if n + 1 < |s| {
      TailOfCut(s, n);
      if s[0].agentId == id {
        IdsOfCut(s[1..], n);
        WithoutAbsent(s[1..], id);
        WithoutAbsent(s[1..][..n], id);
      } else if n > 0 {
        CutFirst(s[1..], id, n - 1);
        TakePush(s[0], Without(s[1..][..n], id), n - 1);
        TakePush(s[0], Without(s[1..], id), n - 1);
      }
    }
  }

  lemma ExpectedPush(history: seq<Entry>, agent: Entry)
    ensures Expected([agent] + history) == Take([agent] + Without(Expected(history), agent.agentId), LIMIT)
  {
    assert ([agent] + history)[1..] == history;
    WithoutMore(history, {}, agent.agentId);
    FirstOnlyDistinct(history, {});
    CutFirst(FirstOnly(history, {}), agent.agentId, LIMIT - 1);
  }

  class RecentList {
    var agents: seq<Entry>
    /** Every enrollment ever recorded, newest first. */
    ghost var history: seq<Entry>

    ghost predicate Valid()
      reads this
    {
      agents == Expected(history)
    }

    constructor ()
      ensures Valid() && history == []
    {
      agents, history := [], [];
    }

    method RecordRecentOnlineAgent(agent: Entry)
      requires Valid()
      modifies this
      ensures Valid() && history == [agent] + old(history)
    {
      var kept := Retain(agents, agent.agentId);
      agents := [agent] + kept;
      if |agents| > LIMIT {
        agents := agents[..LIMIT];
      }
      ExpectedPush(history, agent);
      history := [agent] + history;
    }
  }

  lemma {:induction false} CutDistinct(s: seq<Entry>, n: nat)
    requires Distinct(s)
    ensures Distinct(Take(s, n))
    decreases |s|
  {
    if 0 < n < |s| {
      CutDistinct(s[1..], n - 1);
      TailOfCut(s, n - 1);
      IdsOfCut(s[1..], n - 1);
    }
  }

  /** The list names each agent once. */
  lemma ListedOnce(history: seq<Entry>)
    ensures Distinct(Expected(history)) && |Expected(history)| <= 6
  {
    FirstOnlyDistinct(history, {});
    CutDistinct(FirstOnly(history, {}), LIMIT);
  }

  lemma {:induction false} FirstOnlySplit(a: seq<Entry>, b: seq<Entry>, seen: set<string>)
    ensures FirstOnly(a + b, seen) == FirstOnly(a, seen) + FirstOnly(b, seen + Ids(a))
  {
    if a == [] {
      assert a + b == b && seen + Ids(a) == seen;
    } else {
      var id := a[0].agentId;
      assert (a + b)[1..] == a[1..] + b;
      var more := if id in seen then seen else seen + {id};
      FirstOnlySplit(a[1..], b, more);
      assert more + Ids(a[1..]) == seen + Ids(a);
      if id !in seen {
        assert [a[0]] + (FirstOnly(a[1..], more) + FirstOnly(b, seen + Ids(a)))
            == [a[0]] + FirstOnly(a[1..], more) + FirstOnly(b, seen + Ids(a));
      }
    }
  }

  lemma {:induction false} DistinctSize(s: seq<Entry>)
    requires Distinct(s)
    ensures |Ids(s)| == |s|
  {
    if s != [] {
      DistinctSize(s[1..]);
    }
  }

  lemma FrontOf(history: seq<Entry>, k: nat) returns (front: seq<Entry>)
    requires k < |history| && history[k].agentId !in Ids(history[..k])
    ensures front + [history[k]] <= FirstOnly(history, {})
    ensures |front| == |Ids(history[..k])| && Ids(front) == Ids(history[..k])
  {
    front := FirstOnly(history[..k], {});
    assert history == history[..k] + history[k..];
    FirstOnlySplit(history[..k], history[k..], {});
    FirstOnlyDistinct(history[..k], {});
    DistinctSize(front);
    assert {} + Ids(history[..k]) == Ids(history[..k]);
  }

  lemma {:induction false} InIds(s: seq<Entry>, i: nat)
    requires i < |s|
    ensures s[i].agentId in Ids(s)
  {
    if 0 < i {
      InIds(s[1..], i - 1);
    }
  }

  /** Who is listed: the agent whose latest enrollment is preceded, in that order, by enrollments of fewer
      than six other agents; and it is that enrollment which is listed. */
  lemma ListedExactly(history: seq<Entry>, k: nat)
    requires k < |history| && history[k].agentId !in Ids(history[..k])
    ensures history[k].agentId in Ids(Expected(history)) <==> |Ids(history[..k])| < 6
    ensures |Ids(history[..k])| < 6 ==> history[k] in Expected(history)
  {
    var front := FrontOf(history, k);
    if |front| < LIMIT {
      assert Expected(history)[|front|] == history[k];
      InIds(Expected(history), |front|);
    } else {
      assert Expected(history) == front[..LIMIT];
      IdsOfCut(front, LIMIT);
    }
  }
}
