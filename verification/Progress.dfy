/** Winning an election: timeouts and deliveries that make a leader out of any running,
    unblocked server with an unblocked majority. */
module Progress {
  import opened RaftTypes
  import opened RaftCluster
  import opened ServerInvariant
  import opened ClusterInvariant
  import RaftStep

  ghost predicate ElectionSteps(steps: seq<Step>) {
    forall k :: 0 <= k < |steps| ==> steps[k].Deliver? || steps[k].Timeout?
  }

  /** A server whose next timeout starts an election. */
  ghost predicate CanCampaign(i: Id, s: State) {
    ServerInv(i, s) && !s.blocked && !s.role.Leader? && s.election.Running()
  }

  /** A server that will grant the next request of term t. */
  ghost predicate Ready(s: State, t: Term) {
    s.election.Set? && !s.blocked && s.voter.lastVotedTerm < t && s.term <= t
  }

  ghost predicate Campaigning(i: Id, s: State, t: Term) {
    CanCampaign(i, s) && s.role.Candidate? && s.term == t && s.voter == VoteRecord(i, t)
  }

  // ---- starting ----

  ghost predicate Asked(cfg: Config, c: Cluster, i: Id, t: Term) {
    forall p :: p in cfg.members && p != i ==> Envelope(p, VoteRequest(i, t)) in c.sent
  }

  lemma OneTimeout(cfg: Config, c: Cluster, i: Id)
    requires i in c.servers && CanCampaign(i, c.servers[i])
    ensures Enabled(cfg, c, Timeout(i))
    ensures var d := Apply(cfg, c, Timeout(i));
            && d.servers == c.servers[i := d.servers[i]] && c.sent <= d.sent
            && Campaigning(i, d.servers[i], c.servers[i].term + 1)
            && d.servers[i].votes == {i} && d.servers[i].calls == c.servers[i].calls
            && Asked(cfg, d, i, c.servers[i].term + 1)
  {
    CampaignKeeps(cfg.Of(i), c.servers[i]);
    BroadcastReaches(cfg.members, i, VoteRequest(i, c.servers[i].term + 1));
  }

  /** Repeated timeouts take a server to any higher term as a candidate. */
  lemma {:induction false} RaiseTerm(cfg: Config, c: Cluster, i: Id, t: Term) returns (steps: seq<Step>, d: Cluster)
    requires i in c.servers && CanCampaign(i, c.servers[i]) && c.servers[i].term < t
    ensures Runs(cfg, c, steps, d) && ElectionSteps(steps)
    ensures i in d.servers && d.servers == c.servers[i := d.servers[i]] && c.sent <= d.sent
    ensures Campaigning(i, d.servers[i], t) && d.servers[i].votes == {i}
    ensures d.servers[i].calls == c.servers[i].calls
    ensures Asked(cfg, d, i, t)
    decreases t - c.servers[i].term
  {
    OneTimeout(cfg, c, i);
    var e := Apply(cfg, c, Timeout(i));
    if c.servers[i].term + 1 == t {
      steps, d := [Timeout(i)], e;
    } else {
      var rest;
      rest, d := RaiseTerm(cfg, e, i, t);
      steps := [Timeout(i)] + rest;
      assert steps[1..] == rest;
    }
  }

  // ---- collecting votes ----

  /** A voter after granting: at the candidate's term, its countdown restarted if it follows. */
  function Granted(s: State, cand: Id, t: Term): State
    requires s.election.Set?
  {
    var a := RaftStep.Adopt(s, t);
    RaftStep.Vote(if a.role.Follower? then a.(election := a.election.Reset()) else a, cand, t)
  }

  /** A ready server grants the request. */
  lemma GrantsVote(cfg: Settings, s: State, cand: Id, t: Term)
    requires Ready(s, t) && cand in cfg.peers
    ensures RaftStep.CanHandle(cfg, s, VoteRequest(cand, t))
    ensures var o := RaftStep.Handle(cfg, s, VoteRequest(cand, t));
            && o.out == [Envelope(cand, VoteResponse(cfg.self, t, true))]
            && o.state == Granted(s, cand, t)
  {
  }

  /** A voter reaches the candidate's term and keeps leading only if it leads that very term. */
  lemma GrantedFacts(s: State, cand: Id, t: Term)
    requires Ready(s, t)
    ensures var g := Granted(s, cand, t);
            && g.term == t && g.voter == VoteRecord(cand, t) && g.election.Set? && !g.blocked
            && (g.role.Leader? <==> s.role.Leader? && s.term == t)
            && (s.election.Running() ==> g.election.Running())
  {
  }

  lemma OneVote(cfg: Config, c: Cluster, cand: Id, v: Id, t: Term) returns (steps: seq<Step>, d: Cluster)
    requires cand in c.servers && v in c.servers && v != cand && cand in cfg.members
    requires Campaigning(cand, c.servers[cand], t) && Ready(c.servers[v], t)
    requires Envelope(v, VoteRequest(cand, t)) in c.sent
    ensures Runs(cfg, c, steps, d) && ElectionSteps(steps) && c.sent <= d.sent
    ensures d.servers == c.servers[v := Granted(c.servers[v], cand, t)][
                           cand := RaftStep.OnVoteResponse(cfg.Of(cand), c.servers[cand], VoteResponse(v, t, true))]
  {
    GrantsVote(cfg.Of(v), c.servers[v], cand, t);
    var request, reply := Deliver(Envelope(v, VoteRequest(cand, t))), Deliver(Envelope(cand, VoteResponse(v, t, true)));
    var e := Apply(cfg, c, request);
    assert e.servers == c.servers[v := Granted(c.servers[v], cand, t)];
    assert Envelope(cand, VoteResponse(v, t, true)) in e.sent;
    d := Apply(cfg, e, reply);
    steps := [request, reply];
    assert steps[1..] == [reply] && steps[1..][1..] == [];
  }

  /** The state of a candidate once its votes suffice, whoever they came from. */
  function Elected(cfg: Settings, s: State): State {
    RaftStep.Lead(cfg, s.(votes := {}))
  }

  ghost predicate Electorate(cfg: Config, c: Cluster, cand: Id, t: Term, q: set<Id>) {
    && q <= c.servers.Keys && cand !in q
    && forall v :: v in q ==> Ready(c.servers[v], t) && Envelope(v, VoteRequest(cand, t)) in c.sent
  }

  /** One more vote either wins or leaves a candidate with one vote more. */
  lemma CountVote(cfg: Settings, s: State, t: Term, v: Id)
    requires Campaigning(cfg.self, s, t) && v !in s.votes
    ensures var r := RaftStep.OnVoteResponse(cfg, s, VoteResponse(v, t, true));
            if |s.votes| + 1 >= Majority(cfg.peers) then r == Elected(cfg, s)
            else r == s.(votes := s.votes + {v}) && |r.votes| == |s.votes| + 1 &&
                 Campaigning(cfg.self, r, t) && Elected(cfg, r) == Elected(cfg, s)
  {
    assert |s.votes + {v}| == |s.votes| + 1;
  }

  /** The election is open: `q` are as many ready voters as the candidate still misses. */
  ghost predicate Open(cfg: Config, c: Cluster, cand: Id, t: Term, q: set<Id>) {
    && cand in c.servers && cand in cfg.members
    && Campaigning(cand, c.servers[cand], t) && Electorate(cfg, c, cand, t, q)
    && q !! c.servers[cand].votes && |c.servers[cand].votes| + |q| == Majority(cfg.members)
  }

  /** From c to d the servers in q granted their vote and nobody but the candidate moved besides. */
  ghost predicate Voted(c: Cluster, cand: Id, t: Term, q: set<Id>, d: Cluster) {
    && d.servers.Keys == c.servers.Keys
    && (forall v :: v in q ==>
          v in c.servers && c.servers[v].election.Set? && d.servers[v] == Granted(c.servers[v], cand, t))
    && (forall j :: j in c.servers && j !in q && j != cand ==> d.servers[j] == c.servers[j])
  }

  lemma VotedJoin(c: Cluster, cand: Id, t: Term, p: set<Id>, d: Cluster, q: set<Id>, e: Cluster)
    requires Voted(c, cand, t, p, d) && Voted(d, cand, t, q, e) && p !! q && cand !in p + q
    ensures Voted(c, cand, t, p + q, e)
  {
  }

  lemma ElectionStepsJoin(a: seq<Step>, b: seq<Step>)
    requires ElectionSteps(a) && ElectionSteps(b)
    ensures ElectionSteps(a + b)
  {
  }

  lemma FirstVote(cfg: Config, c: Cluster, cand: Id, t: Term, q: set<Id>, v: Id)
    returns (steps: seq<Step>, d: Cluster)
    requires Open(cfg, c, cand, t, q) && v in q
    ensures Runs(cfg, c, steps, d) && ElectionSteps(steps)
    ensures Voted(c, cand, t, {v}, d)
    ensures if q == {v} then d.servers[cand] == Elected(cfg.Of(cand), c.servers[cand])
            else Open(cfg, d, cand, t, q - {v}) && q - {v} != {} &&
                 Elected(cfg.Of(cand), d.servers[cand]) == Elected(cfg.Of(cand), c.servers[cand])
  {
    steps, d := OneVote(cfg, c, cand, v, t);
    CountVote(cfg.Of(cand), c.servers[cand], t, v);
    assert |q - {v}| == |q| - 1;
    if q != {v} {
      var w :| w in q && w != v;
      assert w in q - {v};
    }
  }

  /** Exactly the missing number of ready voters, one after the other, elect the candidate. */
  lemma {:induction false} CollectVotes(cfg: Config, c: Cluster, cand: Id, t: Term, q: set<Id>)
    returns (steps: seq<Step>, d: Cluster)
    requires Open(cfg, c, cand, t, q) && q != {}
    ensures Runs(cfg, c, steps, d) && ElectionSteps(steps)
    ensures Voted(c, cand, t, q, d)
    ensures d.servers[cand] == Elected(cfg.Of(cand), c.servers[cand])
    decreases |q|
  {
    hide Effect, Granted, Elected;
    var v :| v in q;
    var first, e := FirstVote(cfg, c, cand, t, q, v);
    if q == {v} {
      steps, d := first, e;
    } else {
      var more;
      more, d := CollectVotes(cfg, e, cand, t, q - {v});
      steps := first + more;
      RunsJoin(cfg, c, first, e, more, d);
      ElectionStepsJoin(first, more);
      VotedJoin(c, cand, t, {v}, e, q - {v}, d);
      assert {v} + (q - {v}) == q;
    }
  }

  // ---- a whole election ----

  /** What the winner looks like: it announced term t + 1, and leads it unless it parks. */
  ghost predicate Won(cfg: Settings, s: State, t: Term) {
    && s.term == t + 1 && BecomeLeader(t + 1) in s.calls
    && s.election.Set? && !s.blocked && s.voter.lastVotedTerm == t
    && (!cfg.parks ==> s.role.Leader?)
  }

  lemma ElectedWins(cfg: Settings, s: State, t: Term)
    requires Campaigning(cfg.self, s, t)
    ensures Won(cfg, Elected(cfg, s), t)
  {
    var l := RaftStep.Lead(cfg.(parks := false), s.(votes := {}));
    assert l.calls[|s.calls|] == BecomeLeader(t + 1);
    assert l.calls <= Elected(cfg, s).calls;
    assert Elected(cfg, s).calls[|s.calls|] == BecomeLeader(t + 1);
  }

  /** A server that can campaign and one voter short of a majority of ready peers: some run of
      timeouts and deliveries elects it in the term it chooses. */
  lemma ElectionRound(cfg: Config, c: Cluster, cand: Id, t: Term, q: set<Id>)
    returns (steps: seq<Step>, d: Cluster)
    requires c.servers.Keys == cfg.Servers() && cand in c.servers
    requires CanCampaign(cand, c.servers[cand]) && c.servers[cand].term < t
    requires q <= c.servers.Keys && cand !in q && q != {} && |q| + 1 == Majority(cfg.members)
    requires forall v :: v in q ==> Ready(c.servers[v], t)
    ensures Runs(cfg, c, steps, d) && ElectionSteps(steps)
    ensures Voted(c, cand, t, q, d)
    ensures Won(cfg.Of(cand), d.servers[cand], t)
  {
    hide Effect, Granted, Elected;
    var first, e := RaiseTerm(cfg, c, cand, t);
    assert Electorate(cfg, e, cand, t, q);
    assert Open(cfg, e, cand, t, q);
    var more;
    more, d := CollectVotes(cfg, e, cand, t, q);
    ElectedWins(cfg.Of(cand), e.servers[cand], t);
    steps := first + more;
    RunsJoin(cfg, c, first, e, more, d);
    ElectionStepsJoin(first, more);
  }

  lemma {:induction false} SubsetOfSize(s: set<Id>, k: nat) returns (q: set<Id>)
    requires k <= |s|
    ensures q <= s && |q| == k
    decreases |s|
  {
    if k == |s| {
      q := s;
    } else {
      var x :| x in s;
      q := SubsetOfSize(s - {x}, k);
    }
  }

  lemma {:induction false} TermAbove(c: Cluster, s: set<Id>) returns (t: Term)
    requires s <= c.servers.Keys
    ensures forall i :: i in s ==> c.servers[i].term < t
    decreases |s|
  {
    if s == {} {
      t := 0;
    } else {
      var x :| x in s;
      t := TermAbove(c, s - {x});
      if t <= c.servers[x].term {
        t := c.servers[x].term + 1;
      }
    }
  }

  lemma UpIsReady(cfg: Config, c: Cluster, q: set<Id>, t: Term)
    requires Inv(cfg, c) && q <= c.servers.Keys
    requires forall v :: v in q ==> c.servers[v].election.Set? && !c.servers[v].blocked && c.servers[v].term < t
    ensures forall v :: v in q ==> Ready(c.servers[v], t)
  {
    forall v | v in q
      ensures Ready(c.servers[v], t)
    {
      assert VoterOk(c.servers[v]);
    }
  }

  /** An election is always still possible: wherever a run has led to, any server that does not
      lead, is not blocked and whose election timer runs becomes leader by some further timeouts
      and deliveries alone, provided it belongs to a started, unblocked majority. */
  lemma ElectionAlwaysPossible(cfg: Config, c: Cluster, cand: Id, up: set<Id>)
    returns (steps: seq<Step>, d: Cluster)
    requires cfg.Valid() && Reachable(cfg, c) && |cfg.members| >= 2
    requires up <= c.servers.Keys && |up| >= Majority(cfg.members) && cand in up
    requires forall v :: v in up ==> c.servers[v].election.Set? && !c.servers[v].blocked
    requires !c.servers[cand].role.Leader? && c.servers[cand].election.Running()
    ensures Runs(cfg, c, steps, d) && ElectionSteps(steps) && Reachable(cfg, d)
    ensures cand in d.servers && exists t: Term ::
              BecomeLeader(t) in d.servers[cand].calls && BecomeLeader(t) !in c.servers[cand].calls &&
              (cand !in cfg.parks ==> d.servers[cand].role.Leader? && d.servers[cand].term == t)
  {
    hide Effect, Granted, Runs;
    var q := SubsetOfSize(up - {cand}, Majority(cfg.members) - 1);
    var t := TermAbove(c, up);
    assert c.servers.Keys == cfg.Servers() && CanCampaign(cand, c.servers[cand]) by {
      ReachableInv(cfg, c);
    }
    assert forall v :: v in q ==> Ready(c.servers[v], t) by {
      ReachableInv(cfg, c);
      UpIsReady(cfg, c, q, t);
    }
    steps, d := ElectionRound(cfg, c, cand, t, q);
    ReachableExtends(cfg, c, steps, d);
    assert BecomeLeader(t + 1) !in c.servers[cand].calls by {
      assert CallsOk(c.servers[cand]);
    }
    assert Won(cfg.Of(cand), d.servers[cand], t);
  }
}
