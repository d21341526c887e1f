/** How many servers can believe they lead at the same moment. */
module Leaders {
  import opened RaftTypes
  import opened RaftCluster
  import opened ServerInvariant
  import opened ClusterInvariant
  import opened Elections

  ghost function LeadersOf(c: Cluster): set<Id> {
    set i | i in c.servers && c.servers[i].role.Leader?
  }

  /** The most leaders n servers can have at once. */
  function LeaderBound(n: nat): nat {
    n - n / 2 + 1
  }

  lemma {:induction false} NewestOf(c: Cluster, s: set<Id>) returns (k: Id)
    requires s != {} && s <= c.servers.Keys
    ensures k in s
    ensures forall i :: i in s ==> c.servers[i].term <= c.servers[k].term
    decreases |s|
  {
    k :| k in s;
    if s != {k} {
      var r := NewestOf(c, s - {k});
      if c.servers[k].term < c.servers[r].term {
        k := r;
      }
    }
  }

  lemma LeadersDiffer(cfg: Config, c: Cluster, i: Id, j: Id)
    requires Inv(cfg, c) && i in LeadersOf(c) && j in LeadersOf(c) && c.servers[i].term == c.servers[j].term
    ensures i == j
  {
    LeadersCall(i, c.servers[i]);
    LeadersCall(j, c.servers[j]);
    OneLeaderPerTerm(cfg, c, i, j, c.servers[i].term);
  }

  lemma AtMostOne<T>(s: set<T>)
    requires forall x, y :: x in s && y in s ==> x == y
    ensures |s| <= 1
  {
    if s != {} {
      var x :| x in s;
      assert s == {x};
    }
  }

  ghost function LeadersIn(c: Cluster, t: int): set<Id> {
    set i | i in LeadersOf(c) && c.servers[i].term == t
  }

  lemma OneLeaderIn(cfg: Config, c: Cluster, t: int)
    requires Inv(cfg, c)
    ensures |LeadersIn(c, t)| <= 1
  {
    forall i, j | i in LeadersIn(c, t) && j in LeadersIn(c, t)
      ensures i == j
    {
      LeadersDiffer(cfg, c, i, j);
    }
    AtMostOne(LeadersIn(c, t));
  }

  ghost predicate Newest(c: Cluster, k: Id) {
    k in LeadersOf(c) && forall j :: j in LeadersOf(c) ==> c.servers[j].term <= c.servers[k].term
  }

  lemma LeaderWasElected(cfg: Config, c: Cluster, k: Id)
    requires Inv(cfg, c) && k in LeadersOf(c)
    ensures c.servers[k].term >= 1
    ensures |Supporters(c, k, c.servers[k].term - 1)| >= Majority(cfg.members)
  {
    LeadersCall(k, c.servers[k]);
  }

  /** A server that voted in the newest leader's election and still leads is that leader, or
      leads the term of the election itself. */
  lemma LeadersAmongVoters(cfg: Config, c: Cluster, k: Id, i: Id)
    requires Inv(cfg, c) && Newest(c, k) && c.servers[k].term >= 1
    requires i in LeadersOf(c) && i in Supporters(c, k, c.servers[k].term - 1)
    ensures i == k || i in LeadersIn(c, c.servers[k].term - 1)
  {
    assert VoterOk(c.servers[i]);
    if c.servers[i].term == c.servers[k].term {
      LeadersDiffer(cfg, c, i, k);
    }
  }

  lemma LeadersCovered(cfg: Config, c: Cluster, k: Id)
    requires Inv(cfg, c) && Newest(c, k) && c.servers[k].term >= 1
    ensures LeadersOf(c) <= {k} + LeadersIn(c, c.servers[k].term - 1)
                            + (cfg.Servers() - Supporters(c, k, c.servers[k].term - 1))
  {
    forall i | i in LeadersOf(c) && i in Supporters(c, k, c.servers[k].term - 1)
      ensures i == k || i in LeadersIn(c, c.servers[k].term - 1)
    {
      LeadersAmongVoters(cfg, c, k, i);
    }
  }

  lemma CountOutsiders(all: set<Id>, voters: set<Id>, leaders: set<Id>, k: Id, former: set<Id>)
    requires voters <= all && |former| <= 1 && |voters| >= |all| / 2 + 1
    requires leaders <= {k} + former + (all - voters)
    ensures |leaders| <= LeaderBound(|all|)
  {
    CardinalityGrows(leaders, {k} + former + (all - voters));
    assert all == voters + (all - voters);
  }

  lemma NewestElection(cfg: Config, c: Cluster, k: Id, t: Term)
    requires cfg.Valid() && Reachable(cfg, c) && Newest(c, k) && c.servers[k].term == t + 1
    ensures |LeadersOf(c)| <= LeaderBound(|cfg.members|)
  {
    var voters, former := Supporters(c, k, t), LeadersIn(c, t);
    assert voters <= cfg.Servers() && |voters| >= Majority(cfg.members) by {
      ReachableInv(cfg, c);
      LeaderWasElected(cfg, c, k);
    }
    assert |former| <= 1 by {
      ReachableInv(cfg, c);
      OneLeaderIn(cfg, c, t);
    }
    assert LeadersOf(c) <= {k} + former + (cfg.Servers() - voters) by {
      ReachableInv(cfg, c);
      LeadersCovered(cfg, c, k);
    }
    ServerCount(cfg.members);
    CountOutsiders(cfg.Servers(), voters, LeadersOf(c), k, former);
  }

  /** Coexisting leaders: in no reachable state do more than n - n/2 + 1 of n servers lead,
      and no two of them lead the same term. */
  lemma LeaderCount(cfg: Config, c: Cluster)
    requires cfg.Valid() && Reachable(cfg, c)
    ensures |LeadersOf(c)| <= LeaderBound(|cfg.members|)
    ensures forall i, j :: i in LeadersOf(c) && j in LeadersOf(c) ==>
              (c.servers[i].term == c.servers[j].term ==> i == j)
  {
    if LeadersOf(c) != {} {
      var k := NewestOf(c, LeadersOf(c));
      assert c.servers[k].term >= 1 by {
        ReachableInv(cfg, c);
        LeaderWasElected(cfg, c, k);
      }
      NewestElection(cfg, c, k, c.servers[k].term - 1);
    }
    forall i, j | i in LeadersOf(c) && j in LeadersOf(c) && c.servers[i].term == c.servers[j].term
      ensures i == j
    {
      ReachableInv(cfg, c);
      LeadersDiffer(cfg, c, i, j);
    }
  }
}
