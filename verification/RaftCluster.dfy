/** Servers joined by a network that may lose, repeat, delay and reorder messages: everything
    ever sent stays available, and any of it may be delivered at any later moment. */
module RaftCluster {
  import opened RaftTypes
  import RaftStep

  /** The same peer list at every server; `parks` are the servers whose become-leader callback
      calls `stay_follower`. */
  datatype Config = Config(members: seq<Id>, parks: set<Id>) {
    function Of(i: Id): Settings {
      Settings(i, members, i in parks)
    }

    ghost predicate Valid() {
      Distinct(members)
    }

    function Servers(): set<Id> {
      Elements(members)
    }
  }

  datatype Cluster = Cluster(servers: map<Id, State>, sent: set<Envelope>)

  datatype Step =
    | Deliver(m: Envelope)
    | Timeout(i: Id)
    | Tick(i: Id)
    | Start(i: Id)
    | StayFollower(i: Id)
    | Block(i: Id)
    | Unblock(i: Id)

  function Init(cfg: Config): Cluster {
    Cluster(map i | i in cfg.members :: FRESH, {})
  }

  function Mover(step: Step): Id {
    if step.Deliver? then step.m.to else step.i
  }

  predicate Started(c: Cluster, i: Id) {
    i in c.servers && c.servers[i].election.Set?
  }

  /** A message needs a started addressee; a timer fires only while it runs; the public calls
      may come at any moment. */
  predicate Enabled(cfg: Config, c: Cluster, step: Step) {
    && Mover(step) in c.servers
    && var s := c.servers[Mover(step)];
       match step
       case Deliver(m) => m in c.sent && s.election.Set? && RaftStep.CanHandle(cfg.Of(m.to), s, m.event)
       case Timeout(_) => s.election.Running()
       case Tick(_) => s.heartbeat.Running()
       case _ => true
  }

  function Effect(cfg: Config, c: Cluster, step: Step): RaftStep.Outcome
    requires Enabled(cfg, c, step)
  {
    var s := c.servers[Mover(step)];
    match step
    case Deliver(m) => RaftStep.Handle(cfg.Of(m.to), s, m.event)
    case Timeout(i) => RaftStep.Handle(cfg.Of(i), s, ElectionTimeout)
    case Tick(i) => RaftStep.Beat(cfg.Of(i), s)
    case Start(_) => RaftStep.Outcome(RaftStep.Start(s), [])
    case StayFollower(_) => RaftStep.Outcome(RaftStep.Park(s), [])
    case Block(_) => RaftStep.Outcome(RaftStep.Block(s), [])
    case Unblock(_) => RaftStep.Outcome(RaftStep.Unblock(s), [])
  }

  /** The cluster once server i has moved: its new state, and its messages among those sent. */
  function After(c: Cluster, i: Id, o: RaftStep.Outcome): Cluster {
    Cluster(c.servers[i := o.state], c.sent + set m | m in o.out)
  }

  function Apply(cfg: Config, c: Cluster, step: Step): Cluster
    requires Enabled(cfg, c, step)
  {
    After(c, Mover(step), Effect(cfg, c, step))
  }

  /** The steps lead from `c` to `d`. */
  ghost predicate Runs(cfg: Config, c: Cluster, steps: seq<Step>, d: Cluster)
    decreases |steps|
  {
    if steps == [] then c == d
    else Enabled(cfg, c, steps[0]) && Runs(cfg, Apply(cfg, c, steps[0]), steps[1..], d)
  }

  ghost predicate Reachable(cfg: Config, c: Cluster) {
    exists steps :: Runs(cfg, Init(cfg), steps, c)
  }

  lemma {:induction false} RunsJoin(cfg: Config, c: Cluster, front: seq<Step>, d: Cluster, back: seq<Step>, e: Cluster)
    requires Runs(cfg, c, front, d) && Runs(cfg, d, back, e)
    ensures Runs(cfg, c, front + back, e)
    decreases |front|
  {
    if front == [] {
      assert front + back == back;
    } else {
      RunsJoin(cfg, Apply(cfg, c, front[0]), front[1..], d, back, e);
      assert (front + back)[1..] == front[1..] + back;
    }
  }

  lemma ReachableExtends(cfg: Config, c: Cluster, steps: seq<Step>, d: Cluster)
    requires Reachable(cfg, c) && Runs(cfg, c, steps, d)
    ensures Reachable(cfg, d)
  {
    var front :| Runs(cfg, Init(cfg), front, c);
    RunsJoin(cfg, Init(cfg), front, c, steps, d);
  }
}
