/** Safety of elections over every run: one leader per term, one vote per term, and heartbeats
    only from the leader of their term. */
module Elections {
  import opened RaftTypes
  import opened RaftCluster
  import opened ServerInvariant
  import opened ClusterInvariant
  import RaftStep

  lemma {:induction false} ServerCount(s: seq<Id>)
    requires Distinct(s)
    ensures |Elements(s)| == |s|
  {
    if s != [] {
      var n := |s| - 1;
      ServerCount(s[..n]);
      assert Elements(s) == Elements(s[..n]) + {s[n]};
    }
  }

  /** Any two majorities of one cluster share a server. */
  lemma QuorumsMeet(cfg: Config, a: set<Id>, b: set<Id>)
    requires cfg.Valid() && a <= cfg.Servers() && b <= cfg.Servers()
    requires |a| >= Majority(cfg.members) && |b| >= Majority(cfg.members)
    ensures a * b != {}
  {
    ServerCount(cfg.members);
    CardinalityGrows(a + b, cfg.Servers());
    assert |a + b| + |a * b| == |a| + |b|;
  }

  lemma OneLeaderPerTerm(cfg: Config, c: Cluster, i: Id, j: Id, t: Term)
    requires Inv(cfg, c) && i in c.servers && j in c.servers
    requires BecomeLeader(t) in c.servers[i].calls && BecomeLeader(t) in c.servers[j].calls
    ensures i == j
  {
    var a, b := Supporters(c, i, t - 1), Supporters(c, j, t - 1);
    QuorumsMeet(cfg, a, b);
    var v :| v in a * b;
    assert VoterOk(c.servers[v]);
  }

  /** Election safety: over any run, all become-leader callbacks of one term are a single
      callback at a single server, and that server was voted in by a majority of the term before. */
  lemma ElectionSafety(cfg: Config, c: Cluster)
    requires cfg.Valid() && Reachable(cfg, c)
    ensures forall i, j, a, b :: i in c.servers && j in c.servers &&
              0 <= a < |c.servers[i].calls| && 0 <= b < |c.servers[j].calls| &&
              c.servers[i].calls[a].BecomeLeader? && c.servers[i].calls[a] == c.servers[j].calls[b]
              ==> i == j && a == b
    ensures forall i, t: Term :: i in c.servers && BecomeLeader(t) in c.servers[i].calls ==>
              t >= 1 && |Supporters(c, i, t - 1)| > |cfg.members| / 2
  {
    ReachableInv(cfg, c);
    forall i, j, a, b | i in c.servers && j in c.servers &&
      0 <= a < |c.servers[i].calls| && 0 <= b < |c.servers[j].calls| &&
      c.servers[i].calls[a].BecomeLeader? && c.servers[i].calls[a] == c.servers[j].calls[b]
      ensures i == j && a == b
    {
      OneLeaderPerTerm(cfg, c, i, j, c.servers[i].calls[a].term);
      assert CallsOk(c.servers[i]);
    }
  }

  /** Vote history: at most one candidate per server and term, self-votes included; a candidate's
      collected votes are real; and no server ever refuses its own next vote. */
  lemma VoteHistory(cfg: Config, c: Cluster)
    requires cfg.Valid() && Reachable(cfg, c)
    ensures forall v, a, b :: v in c.servers && a in c.servers[v].grants && b in c.servers[v].grants ==>
              (a.term == b.term ==> a.candidate == b.candidate)
    ensures forall i, v :: i in c.servers && v in c.servers[i].votes ==>
              v in c.servers && Ballot(c.servers[i].term, i) in c.servers[v].grants
    ensures forall i :: i in c.servers ==>
              c.servers[i].voter.lastVotedTerm <= c.servers[i].term &&
              RaftStep.Accepts(c.servers[i].voter, i, c.servers[i].term + 1)
  {
    hide Backed, ReignsBacked, CallsOk, TimersOk;
    ReachableInv(cfg, c);
    forall v | v in c.servers
      ensures VoterOk(c.servers[v]) && VotesOk(v, c.servers[v])
    {
    }
  }

  /** Heartbeat provenance: a heartbeat of term t comes from the one leader of t, so no leader
      has one of its own term waiting, and whoever yields to it yields to that leader. */
  lemma HeartbeatProvenance(cfg: Config, c: Cluster, m: Envelope)
    requires cfg.Valid() && Reachable(cfg, c) && m in c.sent && m.event.Heartbeat?
    ensures m.to in c.servers && m.event.sender in c.servers
    ensures BecomeLeader(m.event.term) in c.servers[m.event.sender].calls
    ensures forall j :: j in c.servers && BecomeLeader(m.event.term) in c.servers[j].calls ==> j == m.event.sender
    ensures c.servers[m.to].role.Leader? ==> c.servers[m.to].term != m.event.term
  {
    ReachableInv(cfg, c);
    assert Backed(c, m);
    forall j | j in c.servers && BecomeLeader(m.event.term) in c.servers[j].calls
      ensures j == m.event.sender
    {
      OneLeaderPerTerm(cfg, c, j, m.event.sender, m.event.term);
    }
    LeadersCall(m.to, c.servers[m.to]);
  }

  /** A leader's last callback announced the term it leads. */
  lemma LeadersCall(i: Id, s: State)
    requires ServerInv(i, s)
    ensures s.role.Leader? ==> BecomeLeader(s.term) in s.calls
  {
    if s.role.Leader? {
      assert s.calls[|s.calls| - 1] == BecomeLeader(s.term);
    }
  }

  /** The guard on deliveries excludes nothing: whatever was sent to a started server can be handled. */
  lemma DeliveryIsNeverRefused(cfg: Config, c: Cluster, m: Envelope)
    requires cfg.Valid() && Reachable(cfg, c) && m in c.sent
    ensures Enabled(cfg, c, Deliver(m)) <==> Started(c, m.to)
  {
    ReachableInv(cfg, c);
    assert Backed(c, m);
  }

  // ---- histories ----

  ghost predicate Grown(s: State, d: State) {
    s.term <= d.term && s.grants <= d.grants && s.calls <= d.calls
  }

  lemma HandleGrows(cfg: Settings, s: State, e: Event)
    requires ServerInv(cfg.self, s) && s.election.Set? && RaftStep.CanHandle(cfg, s, e)
    requires !e.ElectionTimeout? ==> e.sender != cfg.self
    ensures Grown(s, RaftStep.Handle(cfg, s, e).state)
  {
    hide ServerInv, Truthful, Earned;
    HandleFacts(cfg, s, e);
    var a := RaftStep.Adopt(s, TermOf(e));
    assert s.term <= a.term;
  }

  lemma StepGrows(cfg: Config, c: Cluster, step: Step, i: Id)
    requires Inv(cfg, c) && Enabled(cfg, c, step) && i in c.servers
    ensures i in Apply(cfg, c, step).servers && Grown(c.servers[i], Apply(cfg, c, step).servers[i])
  {
    if i == Mover(step) {
      match step
      case Deliver(m) =>
        assert Backed(c, m);
        HandleGrows(cfg.Of(i), c.servers[i], m.event);
      case Timeout(_) => HandleGrows(cfg.Of(i), c.servers[i], ElectionTimeout);
      case Tick(_) =>
      case _ => CallFacts(cfg.Of(i), c.servers[i]);
    }
  }

  /** Over any run no server's term falls, and ballots and callbacks are never taken back. */
  lemma {:induction false} HistoriesGrow(cfg: Config, c: Cluster, steps: seq<Step>, d: Cluster, i: Id)
    requires Inv(cfg, c) && Runs(cfg, c, steps, d) && i in c.servers
    ensures i in d.servers && Grown(c.servers[i], d.servers[i])
    decreases |steps|
  {
    if steps != [] {
      StepGrows(cfg, c, steps[0], i);
      StepKeepsInv(cfg, c, steps[0]);
      HistoriesGrow(cfg, Apply(cfg, c, steps[0]), steps[1..], d, i);
    }
  }
}
