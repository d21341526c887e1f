/** The invariant of every run: what each message, vote and reign is backed by. */
module ClusterInvariant {
  import opened RaftTypes
  import opened RaftCluster
  import RaftStep
  import opened ServerInvariant

  /** The servers that granted `candidate` their vote in `term`. */
  ghost function Supporters(c: Cluster, candidate: Id, term: Term): set<Id> {
    set v | v in c.servers && Ballot(term, candidate) in c.servers[v].grants
  }

  /** A granted response was really granted, and a heartbeat really comes from a leader. */
  ghost predicate Backed(c: Cluster, m: Envelope) {
    && !m.event.ElectionTimeout?
    && m.to in c.servers && m.event.sender in c.servers && m.to != m.event.sender
    && (m.event.VoteResponse? && m.event.granted ==>
          Ballot(m.event.term, m.to) in c.servers[m.event.sender].grants)
    && (m.event.Heartbeat? ==> BecomeLeader(m.event.term) in c.servers[m.event.sender].calls)
  }

  ghost predicate VotesBacked(c: Cluster) {
    forall i, v :: i in c.servers && c.servers[i].role.Candidate? && v in c.servers[i].votes ==>
      v in c.servers && Ballot(c.servers[i].term, i) in c.servers[v].grants
  }

  /** A leader of term t was elected by a majority of the votes of term t - 1. */
  ghost predicate ReignsBacked(cfg: Config, c: Cluster) {
    forall i, t: Term :: i in c.servers && BecomeLeader(t) in c.servers[i].calls ==>
      t >= 1 && |Supporters(c, i, t - 1)| >= Majority(cfg.members)
  }

  ghost predicate Inv(cfg: Config, c: Cluster) {
    && cfg.Valid()
    && c.servers.Keys == cfg.Servers()
    && (forall i :: i in c.servers ==> ServerInv(i, c.servers[i]))
    && (forall m :: m in c.sent ==> Backed(c, m))
    && VotesBacked(c)
    && ReignsBacked(cfg, c)
  }

  // ---- one server's move, seen from outside ----

  ghost predicate GrewBy(s: State, o: RaftStep.Outcome) {
    s.grants <= o.state.grants && s.calls <= o.state.calls
  }

  /** What a server puts on the wire: its own id, a known peer, and only grants it made. */
  ghost predicate Truthful(cfg: Settings, o: RaftStep.Outcome) {
    forall m :: m in o.out ==>
      && !m.event.ElectionTimeout? && !m.event.Heartbeat?
      && m.event.sender == cfg.self && m.to in cfg.peers && m.to != cfg.self
      && (m.event.VoteResponse? && m.event.granted ==> Ballot(m.event.term, m.to) in o.state.grants)
  }

  ghost predicate GrantFor(e: Event, term: Term, v: Id) {
    e == VoteResponse(v, term, true)
  }

  /** Where a candidate's votes come from, and what a new reign needs. */
  ghost predicate Earned(cfg: Settings, s: State, e: Event, o: RaftStep.Outcome) {
    && (o.state.role.Candidate? ==> forall v :: v in o.state.votes ==>
          || v == cfg.self
          || (s.role.Candidate? && s.term == o.state.term && v in s.votes)
          || GrantFor(e, o.state.term, v))
    && (forall t: Term :: BecomeLeader(t) in o.state.calls && BecomeLeader(t) !in s.calls ==>
          && s.role.Candidate? && t == s.term + 1
          && e.VoteResponse? && GrantFor(e, s.term, e.sender)
          && |s.votes + {e.sender}| >= Majority(cfg.peers))
  }

  /** A newer term costs a candidate its candidacy and adds no reign and no ballot. */
  lemma AdoptFacts(s: State, term: Term)
    ensures var a := RaftStep.Adopt(s, term);
            && a.grants == s.grants && s.calls <= a.calls
            && (a.role.Candidate? ==> a == s)
            && (forall t: Term :: BecomeLeader(t) in a.calls ==> BecomeLeader(t) in s.calls)
  {
    var a := RaftStep.Adopt(s, term);
    forall t: Term | BecomeLeader(t) in a.calls
      ensures BecomeLeader(t) in s.calls
    {
      var k :| 0 <= k < |a.calls| && a.calls[k] == BecomeLeader(t);
      assert k < |s.calls|;
    }
  }

  ghost predicate Facts(cfg: Settings, s: State, e: Event, o: RaftStep.Outcome) {
    GrewBy(s, o) && Truthful(cfg, o) && Earned(cfg, s, e, o)
  }

  lemma OnVoteRequestFacts(cfg: Settings, s: State, e: Event)
    requires e.VoteRequest? && s.election.Set? && e.sender in cfg.peers && e.sender != cfg.self && e.term <= s.term
    ensures Facts(cfg, s, e, RaftStep.OnVoteRequest(cfg, s, e))
  {
    var o := RaftStep.OnVoteRequest(cfg, s, e);
    if e.term == s.term && RaftStep.Accepts(s.voter, e.sender, e.term) {
      assert o.state.grants[|s.grants|] == Ballot(s.term, e.sender);
    }
  }

  lemma OnVoteResponseFacts(cfg: Settings, s: State, e: Event)
    requires e.VoteResponse? && e.term <= s.term
    ensures Facts(cfg, s, e, RaftStep.Outcome(RaftStep.OnVoteResponse(cfg, s, e), []))
  {
  }

  lemma OnHeartbeatFacts(cfg: Settings, s: State, e: Event)
    requires e.Heartbeat? && s.election.Set? && e.sender in cfg.peers && e.sender != cfg.self
    ensures Facts(cfg, s, e, RaftStep.OnHeartbeat(cfg, s, e))
  {
  }

  lemma CampaignFacts(cfg: Settings, s: State)
    requires ServerInv(cfg.self, s) && s.election.Set? && !s.role.Leader?
    ensures Facts(cfg, s, ElectionTimeout, RaftStep.Campaign(cfg, s))
  {
    CampaignKeeps(cfg, s);
    BroadcastReaches(cfg.peers, cfg.self, VoteRequest(cfg.self, s.term + 1));
  }

  /** Handling an event adds to a server's history only what that event and the server's
      own earlier state account for. */
  lemma HandleFacts(cfg: Settings, s: State, e: Event)
    requires ServerInv(cfg.self, s) && s.election.Set? && RaftStep.CanHandle(cfg, s, e)
    requires !e.ElectionTimeout? ==> e.sender != cfg.self
    ensures Facts(cfg, s, e, RaftStep.Handle(cfg, s, e))
  {
    if !s.blocked {
      var a := RaftStep.Adopt(s, TermOf(e));
      AdoptFacts(s, TermOf(e));
      AdoptKeeps(cfg.self, s, TermOf(e));
      match e
      case VoteRequest(_, _) => OnVoteRequestFacts(cfg, a, e);
      case VoteResponse(_, _, _) => OnVoteResponseFacts(cfg, a, e);
      case Heartbeat(_, _) => OnHeartbeatFacts(cfg, a, e);
      case HeartbeatAck(_, _) =>
      case ElectionTimeout =>
        if !a.role.Leader? {
          CampaignFacts(cfg, a);
        }
    }
  }

  // ---- the cluster's move ----

  lemma CardinalityGrows<T>(a: set<T>, b: set<T>)
    requires a <= b
    ensures |a| <= |b|
  {
    assert b == a + (b - a);
  }

  lemma BackingLasts(c: Cluster, i: Id, o: RaftStep.Outcome)
    requires i in c.servers && GrewBy(c.servers[i], o)
    ensures forall m :: m in c.sent && Backed(c, m) ==> Backed(After(c, i, o), m)
    ensures forall j, t: Term :: Supporters(c, j, t) <= Supporters(After(c, i, o), j, t)
  {
  }

  lemma ReignsLast(cfg: Config, c: Cluster, i: Id, e: Event, o: RaftStep.Outcome)
    requires Inv(cfg, c) && i in c.servers
    requires GrewBy(c.servers[i], o) && Earned(cfg.Of(i), c.servers[i], e, o)
    requires e.VoteResponse? && e.granted ==> e.sender in c.servers && Ballot(e.term, i) in c.servers[e.sender].grants
    ensures ReignsBacked(cfg, After(c, i, o))
  {
    hide ServerInv, Backed;
    var d := After(c, i, o);
    BackingLasts(c, i, o);
    forall j, t: Term | j in d.servers && BecomeLeader(t) in d.servers[j].calls
      ensures t >= 1 && |Supporters(d, j, t - 1)| >= Majority(cfg.members)
    {
      if BecomeLeader(t) in c.servers[j].calls {
        CardinalityGrows(Supporters(c, j, t - 1), Supporters(d, j, t - 1));
      } else {
        var s := c.servers[i];
        CardinalityGrows(s.votes + {e.sender}, Supporters(d, i, s.term));
      }
    }
  }

  lemma VotesLast(cfg: Config, c: Cluster, i: Id, e: Event, o: RaftStep.Outcome)
    requires VotesBacked(c) && i in c.servers
    requires VotesOk(i, o.state)
    requires GrewBy(c.servers[i], o) && Earned(cfg.Of(i), c.servers[i], e, o)
    requires e.VoteResponse? && e.granted ==> e.sender in c.servers && Ballot(e.term, i) in c.servers[e.sender].grants
    ensures VotesBacked(After(c, i, o))
  {
    var d := After(c, i, o);
    forall j, v | j in d.servers && d.servers[j].role.Candidate? && v in d.servers[j].votes
      ensures v in d.servers && Ballot(d.servers[j].term, j) in d.servers[v].grants
    {
      if j != i {
        assert Ballot(d.servers[j].term, j) in c.servers[v].grants;
      } else if v != i {
        assert Ballot(o.state.term, i) in c.servers[v].grants;
      }
    }
  }

  lemma MoveKeepsInv(cfg: Config, c: Cluster, i: Id, e: Event, o: RaftStep.Outcome)
    requires Inv(cfg, c) && i in c.servers
    requires ServerInv(i, o.state)
    requires GrewBy(c.servers[i], o) && Earned(cfg.Of(i), c.servers[i], e, o)
    requires e.VoteResponse? && e.granted ==> e.sender in c.servers && Ballot(e.term, i) in c.servers[e.sender].grants
    requires forall m :: m in o.out ==> Backed(After(c, i, o), m)
    ensures Inv(cfg, After(c, i, o))
  {
    BackingLasts(c, i, o);
    ReignsLast(cfg, c, i, e, o);
    VotesLast(cfg, c, i, e, o);
    assert After(c, i, o).servers.Keys == c.servers.Keys;
  }

  /** A public call changes no ballot, starts no candidacy and no reign. */
  lemma CallFacts(cfg: Settings, s: State)
    ensures Facts(cfg, s, ElectionTimeout, RaftStep.Outcome(RaftStep.Park(s), []))
    ensures Facts(cfg, s, ElectionTimeout, RaftStep.Outcome(RaftStep.Block(s), []))
    ensures Facts(cfg, s, ElectionTimeout, RaftStep.Outcome(RaftStep.Unblock(s), []))
    ensures Facts(cfg, s, ElectionTimeout, RaftStep.Outcome(RaftStep.Start(s), []))
  {
  }

  lemma InitInv(cfg: Config)
    requires cfg.Valid()
    ensures Inv(cfg, Init(cfg))
  {
    hide ServerInv;
    forall i | i in cfg.members
      ensures ServerInv(i, FRESH)
    {
      FreshOk(i);
    }
  }

  lemma HandledKeepsInv(cfg: Config, c: Cluster, i: Id, e: Event)
    requires Inv(cfg, c) && i in c.servers && c.servers[i].election.Set?
    requires RaftStep.CanHandle(cfg.Of(i), c.servers[i], e)
    requires e.ElectionTimeout? || Backed(c, Envelope(i, e))
    ensures Inv(cfg, After(c, i, RaftStep.Handle(cfg.Of(i), c.servers[i], e)))
  {
    HandleFacts(cfg.Of(i), c.servers[i], e);
    HandleKeeps(cfg.Of(i), c.servers[i], e);
    MoveKeepsInv(cfg, c, i, e, RaftStep.Handle(cfg.Of(i), c.servers[i], e));
  }

  lemma TickKeepsInv(cfg: Config, c: Cluster, i: Id)
    requires Inv(cfg, c) && i in c.servers && c.servers[i].heartbeat.Running()
    ensures Inv(cfg, After(c, i, RaftStep.Beat(cfg.Of(i), c.servers[i])))
  {
    hide VotesBacked, ReignsBacked;
    var s := c.servers[i];
    BroadcastReaches(cfg.members, i, Heartbeat(i, s.term));
    assert s.calls[|s.calls| - 1] == BecomeLeader(s.term);
    MoveKeepsInv(cfg, c, i, ElectionTimeout, RaftStep.Beat(cfg.Of(i), s));
  }

  lemma QuietKeepsInv(cfg: Config, c: Cluster, i: Id, s: State)
    requires Inv(cfg, c) && i in c.servers && ServerInv(i, s)
    requires Facts(cfg.Of(i), c.servers[i], ElectionTimeout, RaftStep.Outcome(s, []))
    ensures Inv(cfg, After(c, i, RaftStep.Outcome(s, [])))
  {
    MoveKeepsInv(cfg, c, i, ElectionTimeout, RaftStep.Outcome(s, []));
  }

  /** Every step of the cluster keeps the invariant. */
  lemma StepKeepsInv(cfg: Config, c: Cluster, step: Step)
    requires Inv(cfg, c) && Enabled(cfg, c, step)
    ensures Inv(cfg, Apply(cfg, c, step))
  {
    var i := Mover(step);
    match step
    case Deliver(m) => HandledKeepsInv(cfg, c, i, m.event);
    case Timeout(_) => HandledKeepsInv(cfg, c, i, ElectionTimeout);
    case Tick(_) => TickKeepsInv(cfg, c, i);
    case _ =>
      CallFacts(cfg.Of(i), c.servers[i]);
      PublicCallsKeep(i, c.servers[i]);
      QuietKeepsInv(cfg, c, i, Effect(cfg, c, step).state);
  }

  lemma {:induction false} RunsKeepInv(cfg: Config, c: Cluster, steps: seq<Step>, d: Cluster)
    requires Inv(cfg, c) && Runs(cfg, c, steps, d)
    ensures Inv(cfg, d)
    decreases |steps|
  {
    if steps != [] {
      StepKeepsInv(cfg, c, steps[0]);
      RunsKeepInv(cfg, Apply(cfg, c, steps[0]), steps[1..], d);
    }
  }

  /** The invariant holds in every state any run can reach. */
  lemma ReachableInv(cfg: Config, c: Cluster)
    requires cfg.Valid() && Reachable(cfg, c)
    ensures Inv(cfg, c)
  {
    var steps :| Runs(cfg, Init(cfg), steps, c);
    InitInv(cfg);
    RunsKeepInv(cfg, Init(cfg), steps, c);
  }
}
