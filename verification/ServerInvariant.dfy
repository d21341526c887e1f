/** What holds of every server after every event and every public call. */
module ServerInvariant {
  import opened RaftTypes
  import opened RaftStep

  /** The record is the newest ballot, never newer than the term, and no term has two ballots
      for different candidates. */
  ghost predicate VoterOk(s: State) {
    && s.voter.lastVotedTerm <= s.term
    && (forall b :: b in s.grants ==>
          b.term <= s.voter.lastVotedTerm &&
          (b.term == s.voter.lastVotedTerm ==> b.candidate == s.voter.lastVoted))
    && (forall a, b :: a in s.grants && b in s.grants && a.term == b.term ==> a == b)
  }

  /** Votes are held exactly by candidates, and a candidate has voted for itself. */
  ghost predicate VotesOk(self: Id, s: State) {
    && (s.votes != {} <==> s.role.Candidate?)
    && (s.role.Candidate? ==> self in s.votes && Ballot(s.term, self) in s.grants)
  }

  /** Callbacks alternate, start with become-leader, end with it exactly while leading, carry
      growing leader terms, and are never made by a candidate. */
  ghost predicate CallsOk(s: State) {
    && (forall k :: 0 <= k < |s.calls| ==> (s.calls[k].BecomeLeader? <==> k % 2 == 0))
    && (s.role.Leader? <==> |s.calls| % 2 == 1)
    && (s.role.Leader? ==> s.calls[|s.calls| - 1].term == s.term)
    && (forall k :: 0 <= k < |s.calls| ==> s.calls[k].term <= s.term)
    && (forall j, k :: 0 <= j < k < |s.calls| && s.calls[k].BecomeLeader? ==> s.calls[j].term < s.calls[k].term)
    && (forall k :: 0 <= k < |s.calls| ==> if s.calls[k].SignOff? then s.calls[k].role.Follower?
                                           else s.calls[k].term >= 1)
  }

  /** The heartbeat runs exactly while leading, the election timer always while a candidate. */
  ghost predicate TimersOk(s: State) {
    && (s.heartbeat.Running() <==> s.role.Leader?)
    && (s.role.Candidate? ==> s.election.Running())
  }

  ghost predicate ServerInv(self: Id, s: State) {
    VoterOk(s) && VotesOk(self, s) && CallsOk(s) && TimersOk(s)
  }

  lemma FreshOk(self: Id)
    ensures ServerInv(self, FRESH)
  {
  }

  lemma StepDownKeeps(self: Id, s: State, term: Term)
    requires ServerInv(self, s) && s.term <= term
    ensures ServerInv(self, StepDown(s.(term := term)))
  {
  }

  lemma AdoptKeeps(self: Id, s: State, term: Term)
    requires ServerInv(self, s)
    ensures ServerInv(self, Adopt(s, term))
    ensures Adopt(s, term).term == if s.term < term then term else s.term
  {
    if s.term < term {
      StepDownKeeps(self, s, term);
    }
  }

  lemma ParkKeeps(self: Id, s: State)
    requires ServerInv(self, s)
    ensures ServerInv(self, Park(s)) && Park(s).role.Follower? && !Park(s).election.Running()
  {
    StepDownKeeps(self, s, s.term);
  }

  lemma StartKeeps(self: Id, s: State, blocked: bool)
    requires ServerInv(self, s)
    ensures ServerInv(self, Start(s)) && ServerInv(self, s.(blocked := blocked))
  {
  }

  lemma PublicCallsKeep(self: Id, s: State)
    requires ServerInv(self, s)
    ensures ServerInv(self, Start(s)) && ServerInv(self, Park(s))
    ensures ServerInv(self, Block(s)) && ServerInv(self, Unblock(s))
  {
    StartKeeps(self, s, false);
    ParkKeeps(self, s);
    StartKeeps(self, Park(s), true);
  }

  lemma VoteKeeps(self: Id, s: State, candidate: Id, term: Term)
    requires ServerInv(self, s) && term <= s.term
    ensures ServerInv(self, Vote(s, candidate, term))
    ensures Accepts(s.voter, candidate, term) ==> Ballot(term, candidate) in Vote(s, candidate, term).grants
  {
    assert s.grants <= Vote(s, candidate, term).grants;
  }

  /** A server never refuses its own vote, so every campaign starts with one vote. */
  lemma CampaignKeeps(cfg: Settings, s: State)
    requires ServerInv(cfg.self, s) && !s.role.Leader?
    requires s.election.Set?
    ensures Accepts(s.voter, cfg.self, s.term + 1)
    ensures ServerInv(cfg.self, Campaign(cfg, s).state)
    ensures Campaign(cfg, s).state.votes == {cfg.self}
  {
    var v := Vote(s, cfg.self, s.term + 1);
    assert v.grants[|v.grants| - 1] == Ballot(s.term + 1, cfg.self);
  }

  lemma LeadKeeps(cfg: Settings, s: State)
    requires ServerInv(cfg.self, s) && s.role.Candidate?
    ensures ServerInv(cfg.self, Lead(cfg, s))
  {
    var l := Lead(cfg.(parks := false), s);
    assert ServerInv(cfg.self, l);
    ParkKeeps(cfg.self, l);
  }

  lemma OnVoteRequestKeeps(cfg: Settings, s: State, e: Event)
    requires ServerInv(cfg.self, s) && s.election.Set?
    requires e.VoteRequest? && e.sender in cfg.peers && e.term <= s.term
    ensures ServerInv(cfg.self, OnVoteRequest(cfg, s, e).state)
  {
    if e.term == s.term {
      var r := if s.role.Follower? then s.(election := s.election.Reset()) else s;
      VoteKeeps(cfg.self, r, e.sender, e.term);
    }
  }

  lemma OnVoteResponseKeeps(cfg: Settings, s: State, e: Event)
    requires ServerInv(cfg.self, s) && e.VoteResponse?
    ensures ServerInv(cfg.self, OnVoteResponse(cfg, s, e))
  {
    if s.role.Candidate? {
      LeadKeeps(cfg, s.(votes := s.votes + {e.sender}));
    }
  }

  lemma OnHeartbeatKeeps(cfg: Settings, s: State, e: Event)
    requires ServerInv(cfg.self, s) && s.election.Set?
    requires e.Heartbeat? && e.sender in cfg.peers
    ensures ServerInv(cfg.self, OnHeartbeat(cfg, s, e).state)
  {
    StepDownKeeps(cfg.self, s.(election := s.election.Reset()), s.term);
  }

  /** Every handled event keeps the server's invariant. */
  lemma HandleKeeps(cfg: Settings, s: State, e: Event)
    requires ServerInv(cfg.self, s) && s.election.Set? && CanHandle(cfg, s, e)
    ensures ServerInv(cfg.self, Handle(cfg, s, e).state)
  {
    if !s.blocked {
      AdoptKeeps(cfg.self, s, TermOf(e));
      var a := Adopt(s, TermOf(e));
      match e
      case VoteRequest(_, _) => OnVoteRequestKeeps(cfg, a, e);
      case VoteResponse(_, _, _) => OnVoteResponseKeeps(cfg, a, e);
      case Heartbeat(_, _) => OnHeartbeatKeeps(cfg, a, e);
      case HeartbeatAck(_, _) =>
      case ElectionTimeout =>
        if !a.role.Leader? {
          CampaignKeeps(cfg, a);
        }
    }
  }
}
