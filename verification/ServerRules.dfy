/** What each event and each public call does to a server, field by field, and what a server sends. */
module ServerRules {
  import opened RaftTypes
  import opened RaftCluster
  import opened ServerInvariant
  import opened ClusterInvariant
  import RaftStep

  // ---- events ----

  /** The response that completes a quorum. */
  predicate Wins(cfg: Settings, s: State, e: Event) {
    && e.VoteResponse? && e.granted && e.term == s.term && s.role.Candidate?
    && |s.votes + {e.sender}| >= Majority(cfg.peers)
  }

  /** Role and term after any event: a newer term makes a follower of that term, a timeout a
      candidate of the next one, the last vote needed a leader of the next one, and a heartbeat of the
      same term unseats a candidate. Nothing else moves either, no stale message in particular. */
  lemma RoleAndTerm(cfg: Settings, s: State, e: Event)
    requires !s.blocked && RaftStep.CanHandle(cfg, s, e)
    ensures var d := RaftStep.Handle(cfg, s, e).state;
            if e.ElectionTimeout? then
              if s.role.Leader? then d == s else d.role.Candidate? && d.term == s.term + 1
            else if s.term < e.term then d.role.Follower? && d.term == e.term
            else if Wins(cfg, s, e) then
              d.term == s.term + 1 && d.role == if cfg.parks then Follower else Leader
            else
              && d.term == s.term
              && d.role == if e.Heartbeat? && e.term == s.term && s.role.Candidate? then Follower else s.role
  {
  }

  /** The votes collected: a new candidacy starts with its own, a granted response of the current
      term adds its sender, and whatever ends a candidacy drops them all. */
  lemma Votes(cfg: Settings, s: State, e: Event)
    requires ServerInv(cfg.self, s) && !s.blocked && RaftStep.CanHandle(cfg, s, e)
    ensures var d := RaftStep.Handle(cfg, s, e).state;
            d.votes == if !d.role.Candidate? then {}
                       else if e.ElectionTimeout? then {cfg.self}
                       else if e.VoteResponse? && e.granted && e.term == s.term then s.votes + {e.sender}
                       else s.votes
  {
    HandleVotesOk(cfg, s, e);
  }

  lemma HandleVotesOk(cfg: Settings, s: State, e: Event)
    requires ServerInv(cfg.self, s) && RaftStep.CanHandle(cfg, s, e)
    ensures VotesOk(cfg.self, RaftStep.Handle(cfg, s, e).state)
  {
    if !s.blocked {
      HandleKeeps(cfg, s, e);
    }
  }

  /** The voter record moves only to a newer term: to the server itself when it campaigns, to the
      sender of a request that is not stale. Blocking is not an event's business. */
  lemma Record(cfg: Settings, s: State, e: Event)
    requires !s.blocked && RaftStep.CanHandle(cfg, s, e)
    ensures var d := RaftStep.Handle(cfg, s, e).state;
            && !d.blocked
            && d.voter == if e.ElectionTimeout? && !s.role.Leader? && s.voter.lastVotedTerm <= s.term
                          then VoteRecord(cfg.self, s.term + 1)
                          else if e.VoteRequest? && s.term <= e.term && s.voter.lastVotedTerm < e.term
                          then VoteRecord(e.sender, e.term)
                          else s.voter
  {
    var a := RaftStep.Adopt(s, TermOf(e));
    assert a.voter == s.voter && !a.blocked && s.term <= a.term;
    assert !e.ElectionTimeout? ==> e.term <= a.term;
    hide RaftStep.Adopt;
  }

  /** The timers: the heartbeat runs at a leader, and the election timer is set going by a timeout and
      by the end of a reign or a candidacy, stopped by a win, and otherwise left alone. */
  lemma Timers(cfg: Settings, s: State, e: Event)
    requires ServerInv(cfg.self, s) && s.election.Set? && !s.blocked && RaftStep.CanHandle(cfg, s, e)
    ensures var d := RaftStep.Handle(cfg, s, e).state;
            && (d.heartbeat.Running() <==> d.role.Leader?)
            && (d.election.Running() <==>
                  if e.ElectionTimeout? then s.election.Running() || !s.role.Leader?
                  else if Wins(cfg, s, e) then false
                  else s.election.Running() || (!s.role.Follower? && d.role.Follower?))
  {
    HandleTimersOk(cfg, s, e);
    hide VoterOk, VotesOk, CallsOk;
  }

  lemma HandleTimersOk(cfg: Settings, s: State, e: Event)
    requires ServerInv(cfg.self, s) && s.election.Set? && RaftStep.CanHandle(cfg, s, e)
    ensures TimersOk(RaftStep.Handle(cfg, s, e).state)
  {
    HandleKeeps(cfg, s, e);
  }

  /** The callbacks: a win announces the new term, the end of a reign by a newer term signs off at it,
      a win of a server that parks does both, and no other event makes one. */
  lemma Callbacks(cfg: Settings, s: State, e: Event)
    requires !s.blocked && RaftStep.CanHandle(cfg, s, e)
    ensures RaftStep.Handle(cfg, s, e).state.calls == s.calls +
              if !e.ElectionTimeout? && s.role.Leader? && s.term < e.term then [SignOff(e.term, Follower)]
              else if Wins(cfg, s, e) then
                [BecomeLeader(s.term + 1)] + if cfg.parks then [SignOff(s.term + 1, Follower)] else []
              else []
  {
  }

  /** A blocked server drops every event. */
  lemma BlockedDropsAll(cfg: Settings, s: State, e: Event)
    ensures RaftStep.Block(s).blocked && RaftStep.CanHandle(cfg, RaftStep.Block(s), e)
    ensures RaftStep.Handle(cfg, RaftStep.Block(s), e) == RaftStep.Outcome(RaftStep.Block(s), [])
    ensures RaftStep.Unblock(RaftStep.Block(s)) == RaftStep.Park(s).(blocked := false)
  {
  }

  /** Public calls leave term and votes cast alone. Parking ends a candidacy or a reign, with one
      sign-off for a reign, and stops both timers; starting only sets the election timer going. */
  lemma PublicCalls(self: Id, s: State)
    requires ServerInv(self, s)
    ensures var d := RaftStep.Park(s);
            && d == s.(role := Follower, votes := {},
                       election := d.election, heartbeat := d.heartbeat, calls := d.calls)
            && d.election.Set? == (s.election.Set? || !s.role.Follower?)
            && !d.election.Running() && !d.heartbeat.Running()
            && d.calls == s.calls + if s.role.Leader? then [SignOff(s.term, Follower)] else []
    ensures RaftStep.Block(s) == RaftStep.Park(s).(blocked := true)
    ensures RaftStep.Unblock(s) == s.(blocked := false)
    ensures RaftStep.Start(s).election.Running() && RaftStep.Start(s) == s.(election := RaftStep.Start(s).election)
  {
  }

  // ---- messages ----

  /** A timeout at a server that does not lead asks each peer once for its vote in the new term. */
  lemma CampaignAsksAll(cfg: Settings, s: State)
    requires !s.blocked && s.election.Set? && !s.role.Leader? && Distinct(cfg.peers)
    ensures RaftStep.CanHandle(cfg, s, ElectionTimeout)
    ensures OneToEach(cfg, VoteRequest(cfg.self, s.term + 1), RaftStep.Handle(cfg, s, ElectionTimeout).out)
  {
    BroadcastOnce(cfg, VoteRequest(cfg.self, s.term + 1));
  }

  /** The heartbeat task changes nothing and sends each peer one heartbeat of the current term. */
  lemma BeatReachesAll(cfg: Settings, s: State)
    requires Distinct(cfg.peers)
    ensures RaftStep.Beat(cfg, s).state == s
    ensures OneToEach(cfg, Heartbeat(cfg.self, s.term), RaftStep.Beat(cfg, s).out)
  {
    BroadcastOnce(cfg, Heartbeat(cfg.self, s.term));
  }

  /** One message e to each peer but the server itself, and none besides. */
  ghost predicate OneToEach(cfg: Settings, e: Event, out: seq<Envelope>) {
    && (forall m: Envelope :: m in out <==> m.event == e && m.to in cfg.peers && m.to != cfg.self)
    && (forall j, k :: 0 <= j < k < |out| ==> out[j].to != out[k].to)
  }

  lemma BroadcastOnce(cfg: Settings, e: Event)
    requires Distinct(cfg.peers)
    ensures OneToEach(cfg, e, Broadcast(Others(cfg.peers, cfg.self), e))
  {
    BroadcastReaches(cfg.peers, cfg.self, e);
    OthersDistinct(cfg.peers, cfg.self);
  }

  /** Wherever a run has led, when a leader's heartbeat fires every other server that was started has a
      heartbeat of the leader's term to handle, and no server has moved. */
  lemma HeartbeatsGoOut(cfg: Config, c: Cluster, i: Id)
    requires cfg.Valid() && Reachable(cfg, c) && i in c.servers && c.servers[i].role.Leader?
    ensures Enabled(cfg, c, Tick(i))
    ensures var d := Apply(cfg, c, Tick(i));
            && d.servers == c.servers
            && forall j :: j in cfg.members && j != i ==>
                 && Envelope(j, Heartbeat(i, c.servers[i].term)) in d.sent
                 && (Started(c, j) ==> Enabled(cfg, d, Deliver(Envelope(j, Heartbeat(i, c.servers[i].term)))))
  {
    assert Inv(cfg, c) by { ReachableInv(cfg, c); }
    assert c.servers[i].heartbeat.Running() by { assert TimersOk(c.servers[i]); }
    BroadcastReaches(cfg.members, i, Heartbeat(i, c.servers[i].term));
    assert Apply(cfg, c, Tick(i)).servers == c.servers;
  }
}
