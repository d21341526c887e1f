/** What one event does to one server, written as its net effect. */
module RaftStep {
  import opened RaftTypes

  datatype Outcome = Outcome(state: State, out: seq<Envelope>)

  /** Whether a request of this candidate for this term is accepted. */
  predicate Accepts(v: VoteRecord, candidate: Id, term: Term) {
    v.lastVotedTerm < term || (v.lastVotedTerm == term && v.lastVoted == candidate)
  }

  function Cast(v: VoteRecord, candidate: Id, term: Term): VoteRecord {
    if v.lastVotedTerm < term then VoteRecord(candidate, term) else v
  }

  /** Answer one request: update the record and, when accepted, the history of grants. */
  function Vote(s: State, candidate: Id, term: Term): State {
    s.(voter := Cast(s.voter, candidate, term),
       grants := if Accepts(s.voter, candidate, term)
                 then s.grants + [Ballot(term, candidate)] else s.grants)
  }

  /** Give up a candidacy or a reign; a follower is left as it is. */
  function StepDown(s: State): State {
    match s.role
    case Follower => s
    case Candidate => s.(role := Follower, votes := {}, election := s.election.Arm())
    case Leader => s.(role := Follower, election := s.election.Arm(),
                      heartbeat := s.heartbeat.Pause(),
                      calls := s.calls + [SignOff(s.term, Follower)])
  }

  function Adopt(s: State, term: Term): State {
    if s.term < term then StepDown(s.(term := term)) else s
  }

  /** Step down and pause both timers. */
  function Park(s: State): State {
    var d := StepDown(s);
    d.(election := d.election.Pause(), heartbeat := d.heartbeat.Pause())
  }

  /** A won election: one more term, heartbeat instead of election timer, then the callback. */
  function Lead(cfg: Settings, s: State): State {
    var l := s.(role := Leader, term := s.term + 1, votes := {},
                election := s.election.Pause(), heartbeat := s.heartbeat.Arm(),
                calls := s.calls + [BecomeLeader(s.term + 1)]);
    if cfg.parks then Park(l) else l
  }

  /** A timeout at a follower or candidate: a new term, a self-vote, a request to every peer. */
  function Campaign(cfg: Settings, s: State): Outcome {
    var t := s.term + 1;
    var v := Vote(s, cfg.self, t);
    var kept := if s.role.Candidate? then {} else s.votes;
    Outcome(v.(role := Candidate, term := t, election := s.election.Arm(),
               votes := if Accepts(s.voter, cfg.self, t) then kept + {cfg.self} else kept),
            Broadcast(Others(cfg.peers, cfg.self), VoteRequest(cfg.self, t)))
  }

  function OnVoteRequest(cfg: Settings, s: State, e: Event): Outcome
    requires e.VoteRequest? && s.election.Set? && e.sender in cfg.peers
  {
    if e.term < s.term then
      Outcome(s, [Envelope(e.sender, VoteResponse(cfg.self, s.term, false))])
    else
      var r := if s.role.Follower? then s.(election := s.election.Reset()) else s;
      Outcome(Vote(r, e.sender, e.term),
              [Envelope(e.sender, VoteResponse(cfg.self, s.term, Accepts(s.voter, e.sender, e.term)))])
  }

  function OnVoteResponse(cfg: Settings, s: State, e: Event): State
    requires e.VoteResponse?
  {
    if e.term < s.term || !s.role.Candidate? || !e.granted then s
    else
      var v := s.(votes := s.votes + {e.sender});
      if |v.votes| >= Majority(cfg.peers) then Lead(cfg, v) else v
  }

  function OnHeartbeat(cfg: Settings, s: State, e: Event): Outcome
    requires e.Heartbeat? && s.election.Set? && e.sender in cfg.peers
  {
    var ack := [Envelope(e.sender, HeartbeatAck(cfg.self, s.term))];
    if e.term < s.term || s.role.Leader? then Outcome(s, ack)
    else Outcome(StepDown(s.(election := s.election.Reset())), ack)
  }

  /** A server handles events once it has been started, and it can only answer peers it knows. */
  predicate CanHandle(cfg: Settings, s: State, e: Event) {
    s.blocked || (s.election.Set? && (e.VoteRequest? || e.Heartbeat? ==> e.sender in cfg.peers))
  }

  function Handle(cfg: Settings, s: State, e: Event): Outcome
    requires CanHandle(cfg, s, e)
  {
    if s.blocked then Outcome(s, [])
    else
      var a := Adopt(s, TermOf(e));
      match e
      case VoteRequest(_, _) => OnVoteRequest(cfg, a, e)
      case VoteResponse(_, _, _) => Outcome(OnVoteResponse(cfg, a, e), [])
      case Heartbeat(_, _) => OnHeartbeat(cfg, a, e)
      case HeartbeatAck(_, _) => Outcome(a, [])
      case ElectionTimeout => if a.role.Leader? then Outcome(a, []) else Campaign(cfg, a)
  }

  /** One firing of the heartbeat task. */
  function Beat(cfg: Settings, s: State): Outcome {
    Outcome(s, Broadcast(Others(cfg.peers, cfg.self), Heartbeat(cfg.self, s.term)))
  }

  function Start(s: State): State {
    s.(election := s.election.Arm())
  }

  function Block(s: State): State {
    Park(s).(blocked := true)
  }

  function Unblock(s: State): State {
    s.(blocked := false)
  }
}
