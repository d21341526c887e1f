/** Parking, timers and callbacks over whole runs. */
module Lifecycle {
  import opened RaftTypes
  import opened RaftCluster
  import opened ServerInvariant
  import opened ClusterInvariant
  import RaftStep

  // ---- parking ----

  /** A follower that nothing but a message can move. */
  ghost predicate Parked(s: State) {
    s.role.Follower? && !s.election.Running() && !s.heartbeat.Running()
  }

  /** A parked server answers everything and stays parked: resetting the countdown carries the
      paused flag along. */
  lemma ParkedHandles(cfg: Settings, s: State, e: Event)
    requires Parked(s) && RaftStep.CanHandle(cfg, s, e) && !e.ElectionTimeout?
    ensures var d := RaftStep.Handle(cfg, s, e).state;
            Parked(d) && d.calls == s.calls && d.votes == s.votes
  {
  }

  lemma ParkedStep(cfg: Config, c: Cluster, step: Step, i: Id)
    requires i in c.servers && Parked(c.servers[i]) && Enabled(cfg, c, step)
    requires forall m :: m in c.sent ==> Backed(c, m)
    ensures var d := Apply(cfg, c, step);
            && i in d.servers
            && (Parked(d.servers[i]) <==> step != Start(i))
            && d.servers[i].calls == c.servers[i].calls
  {
    hide RaftStep.Handle;
    if step.Deliver? && step.m.to == i {
      ParkedHandles(cfg.Of(i), c.servers[i], step.m.event);
    }
  }

  lemma {:induction false} ParkedRun(cfg: Config, c: Cluster, steps: seq<Step>, d: Cluster, i: Id)
    requires Inv(cfg, c) && i in c.servers && Parked(c.servers[i])
    requires Runs(cfg, c, steps, d) && Start(i) !in steps
    ensures i in d.servers && Parked(d.servers[i]) && d.servers[i].calls == c.servers[i].calls
    decreases |steps|
  {
    if steps != [] {
      ParkedStep(cfg, c, steps[0], i);
      StepKeepsInv(cfg, c, steps[0]);
      ParkedRun(cfg, Apply(cfg, c, steps[0]), steps[1..], d, i);
    }
  }

  lemma ParkNow(cfg: Config, c: Cluster, park: Step)
    requires Inv(cfg, c) && Enabled(cfg, c, park) && (park.StayFollower? || park.Block?)
    ensures Inv(cfg, Apply(cfg, c, park)) && Parked(Apply(cfg, c, park).servers[park.i])
  {
    StepKeepsInv(cfg, c, park);
    ParkKeeps(park.i, c.servers[park.i]);
    assert TimersOk(RaftStep.Park(c.servers[park.i]));
  }

  /** Parking is permanent: after `stay_follower` or `block`, whatever the run does next short of
      another `start` of that server, it stays a follower with both timers quiet and announces
      nothing; and the next `start` does end it. */
  lemma ParkingIsPermanent(cfg: Config, c: Cluster, park: Step, steps: seq<Step>, d: Cluster)
    requires cfg.Valid() && Reachable(cfg, c) && Enabled(cfg, c, park)
    requires park.StayFollower? || park.Block?
    requires Runs(cfg, Apply(cfg, c, park), steps, d) && Start(park.i) !in steps
    ensures park.i in d.servers && Parked(d.servers[park.i])
    ensures d.servers[park.i].calls == Apply(cfg, c, park).servers[park.i].calls
    ensures !Parked(Apply(cfg, d, Start(park.i)).servers[park.i])
  {
    hide RaftStep.Handle, RaftStep.Park, RaftStep.Block, Inv, Runs;
    ReachableInv(cfg, c);
    ParkNow(cfg, c, park);
    ParkedRun(cfg, Apply(cfg, c, park), steps, d, park.i);
  }

  // ---- one reign per start ----

  function IsStart(step: Step, i: Id): nat {
    if step == Start(i) then 1 else 0
  }

  /** How many steps start server i. */
  function Starts(steps: seq<Step>, i: Id): nat {
    if steps == [] then 0 else IsStart(steps[0], i) + Starts(steps[1..], i)
  }

  lemma NoTimeoutsSent(cfg: Config, c: Cluster, m: Envelope)
    requires Inv(cfg, c) && m in c.sent
    ensures !m.event.ElectionTimeout?
  {
    assert Backed(c, m);
  }

  /** Callbacks made so far, counting the reign a running timer may still bring. */
  function Credit(s: State): nat {
    |s.calls| + if s.election.Running() then 2 else 0
  }

  lemma CreditHandled(cfg: Settings, s: State, e: Event)
    requires ServerInv(cfg.self, s) && !s.role.Leader? && cfg.parks && s.election.Set?
    requires RaftStep.CanHandle(cfg, s, e) && (e.ElectionTimeout? ==> s.election.Running())
    ensures var d := RaftStep.Handle(cfg, s, e).state; Credit(d) <= Credit(s) && !d.role.Leader?
  {
  }

  lemma CreditStep(cfg: Config, c: Cluster, step: Step, i: Id)
    requires Inv(cfg, c) && i in c.servers && i in cfg.parks && !c.servers[i].role.Leader? && Enabled(cfg, c, step)
    ensures var d := Apply(cfg, c, step);
            && i in d.servers && !d.servers[i].role.Leader?
            && Credit(d.servers[i]) <= Credit(c.servers[i]) + 2 * IsStart(step, i)
  {
    hide RaftStep.Handle, VotesBacked, ReignsBacked, Backed;
    if Mover(step) == i && (step.Deliver? || step.Timeout?) {
      if step.Deliver? {
        NoTimeoutsSent(cfg, c, step.m);
      }
      CreditHandled(cfg.Of(i), c.servers[i], if step.Deliver? then step.m.event else ElectionTimeout);
    }
  }

  lemma {:induction false} CreditRun(cfg: Config, c: Cluster, steps: seq<Step>, d: Cluster, i: Id)
    requires Inv(cfg, c) && i in c.servers && i in cfg.parks && !c.servers[i].role.Leader?
    requires Runs(cfg, c, steps, d)
    ensures i in d.servers && !d.servers[i].role.Leader?
    ensures Credit(d.servers[i]) <= Credit(c.servers[i]) + 2 * Starts(steps, i)
    decreases |steps|
  {
    hide Effect, Credit, Inv;
    if steps != [] {
      CreditStep(cfg, c, steps[0], i);
      StepKeepsInv(cfg, c, steps[0]);
      CreditRun(cfg, Apply(cfg, c, steps[0]), steps[1..], d, i);
    }
  }

  /** A lock is taken at most once per start: over any run, a server whose become-leader callback
      parks makes at most one acquire and release per `start`, and holds no lock in between steps. */
  lemma OneReignPerStart(cfg: Config, steps: seq<Step>, d: Cluster, i: Id)
    requires cfg.Valid() && i in cfg.members && i in cfg.parks && Runs(cfg, Init(cfg), steps, d)
    ensures i in d.servers && !d.servers[i].role.Leader? && |d.servers[i].calls| <= 2 * Starts(steps, i)
  {
    InitInv(cfg);
    CreditRun(cfg, Init(cfg), steps, d, i);
  }

  // ---- role, timers and votes ----

  /** Role, heartbeat and votes agree in every reachable state. */
  lemma RoleAgrees(cfg: Config, c: Cluster, i: Id)
    requires cfg.Valid() && Reachable(cfg, c) && i in c.servers
    ensures c.servers[i].heartbeat.Running() <==> c.servers[i].role.Leader?
    ensures c.servers[i].votes != {} <==> c.servers[i].role.Candidate?
    ensures c.servers[i].role.Candidate? ==> c.servers[i].election.Running()
  {
    ReachableInv(cfg, c);
    assert VotesOk(i, c.servers[i]) && TimersOk(c.servers[i]);
  }

  /** Once started, the election timer runs at unparked followers and candidates, and at a leader
      exactly if it was started again during its reign. */
  ghost predicate TimerAgrees(s: State, parked: bool, armed: bool) {
    && (s.election.Set? ==> (s.election.Running() <==> if s.role.Leader? then armed else !parked))
    && (s.election.Unset? ==> s.role.Follower? && !parked)
    && (parked ==> s.role.Follower?)
    && (armed ==> s.role.Leader?)
  }

  /** Whether server i counts as parked after a step: asked to stay follower, or through its
      become-leader callback, and not started since. */
  ghost predicate ParkedAfter(cfg: Config, c: Cluster, step: Step, i: Id, parked: bool)
    requires i in c.servers && Enabled(cfg, c, step)
  {
    if Mover(step) != i then parked
    else match step
         case Start(_) => false
         case StayFollower(_) => c.servers[i].election.Set?
         case Block(_) => c.servers[i].election.Set?
         case _ => parked || |Effect(cfg, c, step).state.calls| >= |c.servers[i].calls| + 2
  }

  /** Whether server i counts as armed after a step: started while it led, and leading ever since. */
  ghost predicate ArmedAfter(cfg: Config, c: Cluster, step: Step, i: Id, armed: bool)
    requires i in c.servers && Enabled(cfg, c, step)
  {
    if step == Start(i) then c.servers[i].role.Leader?
    else armed && Apply(cfg, c, step).servers[i].role.Leader?
  }

  lemma TimerHandled(cfg: Settings, s: State, e: Event, parked: bool, armed: bool)
    requires ServerInv(cfg.self, s) && TimerAgrees(s, parked, armed) && s.election.Set?
    requires RaftStep.CanHandle(cfg, s, e) && (e.ElectionTimeout? ==> s.election.Running())
    ensures var d := RaftStep.Handle(cfg, s, e).state;
            d.election.Set? && TimerAgrees(d, parked || |d.calls| >= |s.calls| + 2, armed && d.role.Leader?)
  {
  }

  /** Every step keeps the agreement, a `start` on a leader by arming its election timer beside the
      heartbeat. Where no timer is armed, that is the only step that arms one. */
  lemma TimerStep(cfg: Config, c: Cluster, step: Step, i: Id, parked: bool, armed: bool)
    requires Inv(cfg, c) && Enabled(cfg, c, step) && i in c.servers && TimerAgrees(c.servers[i], parked, armed)
    ensures i in Apply(cfg, c, step).servers
    ensures TimerAgrees(Apply(cfg, c, step).servers[i], ParkedAfter(cfg, c, step, i, parked),
                        ArmedAfter(cfg, c, step, i, armed))
    ensures !armed ==> (TimerAgrees(Apply(cfg, c, step).servers[i], ParkedAfter(cfg, c, step, i, parked), false) <==>
                        !(step == Start(i) && c.servers[i].role.Leader?))
  {
    hide RaftStep.Handle, VotesBacked, ReignsBacked, Backed;
    if Mover(step) == i && (step.Deliver? || step.Timeout?) {
      if step.Deliver? {
        NoTimeoutsSent(cfg, c, step.m);
      }
      TimerHandled(cfg.Of(i), c.servers[i], if step.Deliver? then step.m.event else ElectionTimeout, parked, armed);
    }
  }

  ghost predicate ParkHistory(cfg: Config, c: Cluster, steps: seq<Step>, i: Id, parked: bool)
    decreases |steps|
  {
    if steps != [] && i in c.servers && Enabled(cfg, c, steps[0]) then
      ParkHistory(cfg, Apply(cfg, c, steps[0]), steps[1..], i, ParkedAfter(cfg, c, steps[0], i, parked))
    else parked
  }

  ghost predicate ArmHistory(cfg: Config, c: Cluster, steps: seq<Step>, i: Id, armed: bool)
    decreases |steps|
  {
    if steps != [] && i in c.servers && Enabled(cfg, c, steps[0]) then
      ArmHistory(cfg, Apply(cfg, c, steps[0]), steps[1..], i, ArmedAfter(cfg, c, steps[0], i, armed))
    else armed
  }

  lemma {:induction false} TimerRun(cfg: Config, c: Cluster, steps: seq<Step>, d: Cluster, i: Id,
                                    parked: bool, armed: bool)
    requires Inv(cfg, c) && i in c.servers && TimerAgrees(c.servers[i], parked, armed)
    requires Runs(cfg, c, steps, d)
    ensures i in d.servers
    ensures TimerAgrees(d.servers[i], ParkHistory(cfg, c, steps, i, parked), ArmHistory(cfg, c, steps, i, armed))
    decreases |steps|
  {
    hide Effect, TimerAgrees, ParkedAfter, ArmedAfter, Inv;
    if steps != [] {
      TimerStep(cfg, c, steps[0], i, parked, armed);
      StepKeepsInv(cfg, c, steps[0]);
      TimerRun(cfg, Apply(cfg, c, steps[0]), steps[1..], d, i,
               ParkedAfter(cfg, c, steps[0], i, parked), ArmedAfter(cfg, c, steps[0], i, armed));
    }
  }

  /** After any run a started server's election timer runs exactly while it follows or campaigns and is
      not parked, if and only if it does not lead a reign in which it was started again. */
  lemma ElectionTimerHistory(cfg: Config, steps: seq<Step>, d: Cluster, i: Id)
    requires cfg.Valid() && i in cfg.members && Runs(cfg, Init(cfg), steps, d)
    ensures i in d.servers
    ensures var s, parked, armed := d.servers[i], ParkHistory(cfg, Init(cfg), steps, i, false),
                                    ArmHistory(cfg, Init(cfg), steps, i, false);
            && (armed ==> s.role.Leader?)
            && (Started(d, i) ==> (s.election.Running() <==> if s.role.Leader? then armed else !parked))
            && (Started(d, i) ==> ((s.election.Running() <==> !s.role.Leader? && !parked) <==> !armed))
  {
    InitInv(cfg);
    TimerRun(cfg, Init(cfg), steps, d, i, false, false);
  }

  // ---- countdowns and replies ----

  /** Hearing from a leader or a candidate of the present, as anything but its rival. */
  predicate Restarts(s: State, e: Event) {
    || (e.VoteRequest? && (s.term < e.term || (s.term == e.term && s.role.Follower?)))
    || (e.Heartbeat? && (s.term < e.term || (s.term == e.term && !s.role.Leader?)))
  }

  /** The countdown to an election restarts exactly on a request or heartbeat that is not stale,
      at a server that it leaves, or makes, a follower. */
  lemma CountdownRestarts(cfg: Settings, s: State, e: Event)
    requires s.election.Set? && !s.blocked && RaftStep.CanHandle(cfg, s, e)
    ensures var d := RaftStep.Handle(cfg, s, e).state;
            && d.election.Set?
            && d.election.resets == s.election.resets + (if Restarts(s, e) then 1 else 0)
            && (Restarts(s, e) ==> d.role.Follower?)
  {
    assert !e.ElectionTimeout? ==> RaftStep.Adopt(s, e.term).election.resets == s.election.resets;
  }

  /** Every request and every heartbeat is answered once, with the server's term afterwards, and a
      vote is granted exactly if that is the term asked for and the record names the candidate.
      Other messages get no answer. */
  lemma Replies(cfg: Settings, s: State, e: Event)
    requires !s.blocked && !e.ElectionTimeout? && RaftStep.CanHandle(cfg, s, e)
    ensures var o := RaftStep.Handle(cfg, s, e); var d := o.state;
            match e
            case VoteRequest(c, t) =>
              o.out == [Envelope(c, VoteResponse(cfg.self, d.term, t == d.term && d.voter == VoteRecord(c, t)))]
            case Heartbeat(l, _) => o.out == [Envelope(l, HeartbeatAck(cfg.self, d.term))]
            case _ => o.out == []
  {
    var a := RaftStep.Adopt(s, e.term);
    assert a.voter == s.voter && e.term <= a.term;
  }

  // ---- callbacks ----

  function Count(calls: seq<Call>, leading: bool): nat {
    if calls == [] then 0
    else Count(calls[..|calls| - 1], leading) + if calls[|calls| - 1].BecomeLeader? == leading then 1 else 0
  }

  lemma {:induction false} CountAlternating(calls: seq<Call>)
    requires forall k :: 0 <= k < |calls| ==> (calls[k].BecomeLeader? <==> k % 2 == 0)
    ensures Count(calls, true) == (|calls| + 1) / 2 && Count(calls, false) == |calls| / 2
  {
    if calls != [] {
      CountAlternating(calls[..|calls| - 1]);
    }
  }

  /** Callbacks alternate: on any run, become-leader and sign-off calls of a server alternate,
      starting with become-leader; there is one more of the former exactly while it leads; and
      every sign-off is made as a follower, so the one in `convert_to_candidate` never happens. */
  lemma CallbacksAlternate(cfg: Config, c: Cluster, i: Id)
    requires cfg.Valid() && Reachable(cfg, c) && i in c.servers
    ensures var calls := c.servers[i].calls;
            && (forall k :: 0 <= k < |calls| ==> (calls[k].BecomeLeader? <==> k % 2 == 0))
            && Count(calls, true) == Count(calls, false) + (if c.servers[i].role.Leader? then 1 else 0)
            && (forall k :: 0 <= k < |calls| && calls[k].SignOff? ==> calls[k].role.Follower?)
  {
    ReachableInv(cfg, c);
    assert CallsOk(c.servers[i]);
    CountAlternating(c.servers[i].calls);
  }
}
