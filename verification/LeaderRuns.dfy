/** Runs that reach the bound on coexisting leaders, and what they say about the claim that
    there are at most two. */
module LeaderRuns {
  import opened RaftTypes
  import opened RaftCluster
  import opened ServerInvariant
  import opened ClusterInvariant
  import opened Elections
  import opened Leaders
  import opened Progress
  import opened Lifecycle
  import RaftStep

  /** Everyone is started and unblocked; exactly `done` lead, the others can campaign. */
  ghost predicate Crowd(cfg: Config, c: Cluster, done: set<Id>) {
    && Reachable(cfg, c) && c.servers.Keys == cfg.Servers()
    && forall i :: i in c.servers ==> Member(c.servers[i], i in done)
  }

  ghost predicate Member(s: State, leads: bool) {
    && !s.blocked && s.election.Set? && (s.role.Leader? <==> leads)
    && (!leads ==> s.election.Running())
  }

  /** The server's last vote was cast in its current term t. */
  ghost predicate VotedIn(c: Cluster, v: Id, t: Term) {
    v in c.servers && c.servers[v].term == t && c.servers[v].voter.lastVotedTerm == t
  }

  lemma CrowdLeaders(cfg: Config, c: Cluster, done: set<Id>)
    requires Crowd(cfg, c, done) && done <= cfg.Servers()
    ensures LeadersOf(c) == done
  {
  }

  // ---- everyone starts ----

  ghost predicate Begun(c: Cluster, begun: set<Id>) {
    c.sent == {} && forall i :: i in c.servers ==> c.servers[i] == if i in begun then RaftStep.Start(FRESH) else FRESH
  }

  lemma {:induction false} StartAll(cfg: Config, c: Cluster, begun: set<Id>) returns (steps: seq<Step>, d: Cluster)
    requires begun <= c.servers.Keys && Begun(c, begun)
    ensures Runs(cfg, c, steps, d) && d.servers.Keys == c.servers.Keys && Begun(d, c.servers.Keys)
    decreases c.servers.Keys - begun
  {
    if begun == c.servers.Keys {
      steps, d := [], c;
    } else {
      var i :| i in c.servers.Keys && i !in begun;
      var e := Apply(cfg, c, RaftCluster.Start(i));
      assert e.servers.Keys == c.servers.Keys;
      var rest;
      rest, d := StartAll(cfg, e, begun + {i});
      steps := [RaftCluster.Start(i)] + rest;
      assert steps[1..] == rest;
    }
  }

  lemma CrowdBegins(cfg: Config) returns (c: Cluster)
    requires cfg.Valid()
    ensures Crowd(cfg, c, {})
  {
    var steps;
    steps, c := StartAll(cfg, Init(cfg), {});
  }

  // ---- one more leader ----

  /** A voter of the next election: ready for term t and, if it leads, leading t itself. */
  ghost predicate Elector(c: Cluster, done: set<Id>, v: Id, t: Term) {
    v in c.servers && Ready(c.servers[v], t) && (v in done ==> c.servers[v].term == t)
  }

  lemma ElectorVotes(s: State, leads: bool, cand: Id, t: Term)
    requires Member(s, leads) && Ready(s, t) && (leads ==> s.term == t)
    ensures Member(Granted(s, cand, t), leads)
    ensures Granted(s, cand, t).term == t && Granted(s, cand, t).voter.lastVotedTerm == t
  {
    hide Granted;
    GrantedFacts(s, cand, t);
  }

  lemma CrowdGrows(cfg: Config, c: Cluster, done: set<Id>, o: Id, q: set<Id>, t: Term, d: Cluster)
    requires Crowd(cfg, c, done) && Reachable(cfg, d) && o in c.servers && o !in q && o !in cfg.parks
    requires forall v :: v in q ==> Elector(c, done, v, t)
    requires Voted(c, o, t, q, d) && Won(cfg.Of(o), d.servers[o], t)
    ensures Crowd(cfg, d, done + {o})
    ensures forall v :: v in q ==> VotedIn(d, v, t)
  {
    hide Reachable, Granted, Ready;
    forall v | v in q
      ensures Member(d.servers[v], v in done) && VotedIn(d, v, t)
    {
      ElectorVotes(c.servers[v], v in done, o, t);
    }
  }

  lemma CrownOne(cfg: Config, c: Cluster, done: set<Id>, o: Id, q: set<Id>, t: Term) returns (d: Cluster)
    requires cfg.Valid() && Crowd(cfg, c, done)
    requires o in c.servers && o !in done && c.servers[o].term < t && o !in cfg.parks
    requires o !in q && q != {} && |q| + 1 == Majority(cfg.members)
    requires forall v :: v in q ==> Elector(c, done, v, t)
    ensures Crowd(cfg, d, done + {o})
    ensures o in d.servers && d.servers[o].term == t + 1 && d.servers[o].voter.lastVotedTerm == t
    ensures forall v :: v in q ==> VotedIn(d, v, t)
  {
    hide Effect, Granted;
    assert CanCampaign(o, c.servers[o]) by {
      ReachableInv(cfg, c);
    }
    var steps;
    steps, d := ElectionRound(cfg, c, o, t, q);
    ReachableExtends(cfg, c, steps, d);
    CrowdGrows(cfg, c, done, o, q, t, d);
  }

  /** Electors that do not lead are ready for any term above their own. */
  lemma FreshElectors(cfg: Config, c: Cluster, done: set<Id>, q: set<Id>, t: Term)
    requires cfg.Valid() && Crowd(cfg, c, done) && q <= c.servers.Keys && q !! done
    requires forall v :: v in q ==> c.servers[v].term < t
    ensures forall v :: v in q ==> Elector(c, done, v, t)
  {
    forall v | v in q
      ensures Elector(c, done, v, t)
    {
      assert VoterOk(c.servers[v]) by {
        ReachableInv(cfg, c);
      }
    }
  }

  /** A fixed electorate one short of a majority, and servers that are to lead one by one. */
  ghost predicate Ballots(cfg: Config, done: set<Id>, rest: set<Id>, q: set<Id>) {
    && rest <= cfg.Servers() && q <= cfg.Servers()
    && rest !! done && rest !! q && q !! done
    && q != {} && |q| + 1 == Majority(cfg.members) && cfg.parks !! rest
  }

  lemma NextBallot(cfg: Config, done: set<Id>, rest: set<Id>, q: set<Id>, o: Id)
    requires Ballots(cfg, done, rest, q) && o in rest
    ensures Ballots(cfg, done + {o}, rest - {o}, q) && |rest - {o}| < |rest|
    ensures done + {o} + (rest - {o}) == done + rest
    ensures o !in done && o !in q && o !in cfg.parks
  {
  }

  /** Servers outside a fixed electorate become leaders one after the other, none displacing another. */
  lemma {:induction false} CrownAll(cfg: Config, c: Cluster, done: set<Id>, rest: set<Id>, q: set<Id>)
    returns (d: Cluster)
    requires cfg.Valid() && Crowd(cfg, c, done) && Ballots(cfg, done, rest, q)
    ensures Crowd(cfg, d, done + rest)
    decreases |rest|
  {
    if rest == {} {
      d := c;
      assert done + rest == done;
    } else {
      var o :| o in rest;
      var t := TermAbove(c, c.servers.Keys);
      NextBallot(cfg, done, rest, q, o);
      hide Reachable, Member, Elector, VotedIn;
      FreshElectors(cfg, c, done, q, t);
      var e := CrownOne(cfg, c, done, o, q, t);
      hide Ballots, Crowd;
      d := CrownAll(cfg, e, done + {o}, rest - {o}, q);
    }
  }

  lemma SecondElectors(cfg: Config, e: Cluster, done: set<Id>, p: Id, k: Id, helpers: set<Id>, t: Term)
    requires Crowd(cfg, e, done + {p}) && p in e.servers && p !in helpers && done !! helpers
    requires e.servers[p].term == t + 1 && e.servers[p].voter.lastVotedTerm == t
    requires forall v :: v in helpers + {k} ==> VotedIn(e, v, t)
    ensures forall v :: v in helpers + {p} ==> Elector(e, done + {p}, v, t + 1)
  {
    forall v | v in helpers + {p}
      ensures Elector(e, done + {p}, v, t + 1)
    {
      assert v in helpers ==> v in helpers + {k};
    }
  }

  /** The last but one is voted in by the fixed electorate, whose other members and itself then make
      an electorate for k. */
  lemma CrownBeforeLast(cfg: Config, c: Cluster, done: set<Id>, p: Id, k: Id, helpers: set<Id>)
    returns (e: Cluster, t: Term)
    requires cfg.Valid() && Crowd(cfg, c, done)
    requires Ballots(cfg, done, {p}, helpers + {k}) && k !in helpers
    ensures Crowd(cfg, e, done + {p}) && VotedIn(e, k, t)
    ensures forall v :: v in helpers + {p} ==> Elector(e, done + {p}, v, t + 1)
  {
    hide Reachable, Member, Elector, Ready;
    t := TermAbove(c, c.servers.Keys);
    FreshElectors(cfg, c, done, helpers + {k}, t);
    e := CrownOne(cfg, c, done, p, helpers + {k}, t);
    assert p !in helpers && done !! helpers;
    SecondElectors(cfg, e, done, p, k, helpers, t);
    assert k in helpers + {k};
  }

  /** The last two: p is voted in by the fixed electorate, and then k, which has just voted for p,
      is voted in by p and the rest of that electorate while p goes on leading. */
  lemma CrownLast(cfg: Config, c: Cluster, done: set<Id>, p: Id, k: Id, helpers: set<Id>) returns (d: Cluster)
    requires cfg.Valid() && Crowd(cfg, c, done)
    requires Ballots(cfg, done, {p}, helpers + {k}) && k !in helpers && k !in cfg.parks
    ensures Crowd(cfg, d, done + {p} + {k})
  {
    hide Reachable, Member, Elector, Ready;
    var e, t := CrownBeforeLast(cfg, c, done, p, k, helpers);
    assert |helpers + {p}| == |helpers + {k}|;
    d := CrownOne(cfg, e, done + {p}, k, helpers + {p}, t + 1);
  }

  // ---- every possible set of leaders ----

  /** Sets of servers up to one short of the bound: all of them are elected by the same others. */
  lemma CrownMany(cfg: Config, leaders: set<Id>) returns (d: Cluster)
    requires cfg.Valid() && |cfg.members| >= 2 && leaders <= cfg.Servers() - cfg.parks
    requires |leaders| < LeaderBound(|cfg.members|)
    ensures Crowd(cfg, d, leaders)
  {
    hide Crowd;
    ServerCount(cfg.members);
    Outside(cfg.Servers(), leaders);
    var q := SubsetOfSize(cfg.Servers() - leaders, |cfg.members| / 2);
    var c := CrowdBegins(cfg);
    d := CrownAll(cfg, c, {}, leaders, q);
    assert {} + leaders == leaders;
  }

  /** Sets of servers that meet the bound: just enough others are left to complete a quorum. */
  lemma CrownMost(cfg: Config, leaders: set<Id>) returns (d: Cluster)
    requires cfg.Valid() && |cfg.members| >= 2 && leaders <= cfg.Servers() - cfg.parks
    requires |leaders| == LeaderBound(|cfg.members|)
    ensures Crowd(cfg, d, leaders)
  {
    hide Crowd;
    var p, k, helpers, rest := Roles(cfg, leaders);
    var c := CrowdBegins(cfg);
    d := CrownAll(cfg, c, {}, rest, helpers + {k});
    assert {} + rest == rest;
    d := CrownLast(cfg, d, rest, p, k, helpers);
  }

  /** Two leaders crowned last, just enough helpers to complete a quorum, and all other leaders. */
  lemma Roles(cfg: Config, leaders: set<Id>) returns (p: Id, k: Id, helpers: set<Id>, rest: set<Id>)
    requires cfg.Valid() && |cfg.members| >= 2 && leaders <= cfg.Servers() - cfg.parks
    requires |leaders| == LeaderBound(|cfg.members|)
    ensures k !in helpers && k !in cfg.parks && rest + {p} + {k} == leaders
    ensures Ballots(cfg, {}, rest, helpers + {k}) && Ballots(cfg, rest, {p}, helpers + {k})
  {
    var n := |cfg.members|;
    ServerCount(cfg.members);
    Outside(cfg.Servers(), leaders);
    helpers := cfg.Servers() - leaders;
    p, k := TwoOf(leaders);
    rest := leaders - {p, k};
    assert rest + {p} + {k} == leaders;
    assert |helpers + {k}| == |helpers| + 1 == n / 2;
  }

  lemma TwoOf(s: set<Id>) returns (p: Id, k: Id)
    requires |s| >= 2
    ensures p in s && k in s && p != k
  {
    p :| p in s;
    assert |s - {p}| == |s| - 1;
    k :| k in s - {p};
  }

  lemma Outside(all: set<Id>, some: set<Id>)
    requires some <= all
    ensures |all - some| == |all| - |some|
  {
  }

  /** A server whose callback parks leads in no reachable state. */
  lemma ParkersNeverLead(cfg: Config, c: Cluster)
    requires cfg.Valid() && Reachable(cfg, c)
    ensures LeadersOf(c) <= cfg.Servers() - cfg.parks
  {
    var steps :| Runs(cfg, Init(cfg), steps, c);
    assert c.servers.Keys == cfg.Servers() by {
      ReachableInv(cfg, c);
    }
    forall i | i in LeadersOf(c)
      ensures i !in cfg.parks
    {
      if i in cfg.parks {
        OneReignPerStart(cfg, steps, c, i);
      }
    }
  }

  /** Who can lead together: a set of servers is exactly the set of leaders of some reachable state if
      and only if it has at most n - n/2 + 1 members, none of which parks, and is empty where n < 2. */
  lemma LeaderSets(cfg: Config, leaders: set<Id>)
    requires cfg.Valid()
    ensures (exists c :: Reachable(cfg, c) && LeadersOf(c) == leaders) <==>
            leaders <= cfg.Servers() - cfg.parks && |leaders| <= LeaderBound(|cfg.members|) &&
            (leaders == {} || |cfg.members| >= 2)
  {
    hide Member;
    forall c | Reachable(cfg, c) && LeadersOf(c) == leaders
      ensures leaders <= cfg.Servers() - cfg.parks && |leaders| <= LeaderBound(|cfg.members|)
      ensures leaders == {} || |cfg.members| >= 2
    {
      ParkersNeverLead(cfg, c);
      LeaderCount(cfg, c);
      LeadersTakeTwo(cfg, c);
    }
    if leaders <= cfg.Servers() - cfg.parks && |leaders| <= LeaderBound(|cfg.members|) &&
       (leaders == {} || |cfg.members| >= 2)
    {
      var d: Cluster;
      if |cfg.members| < 2 {
        d := CrowdBegins(cfg);
      } else if |leaders| < LeaderBound(|cfg.members|) {
        d := CrownMany(cfg, leaders);
      } else {
        d := CrownMost(cfg, leaders);
      }
      CrowdLeaders(cfg, d, leaders);
      assert Reachable(cfg, d) && LeadersOf(d) == leaders;
    }
  }

  /** As many as do not park, up to the bound. */
  function MostLeaders(cfg: Config): nat {
    var able, bound := |cfg.Servers() - cfg.parks|, LeaderBound(|cfg.members|);
    if able < bound then able else bound
  }

  /** The bound is reached: of two or more servers, as many can lead together as do not park, up to
      n - n/2 + 1. */
  lemma LeaderBoundReached(cfg: Config)
    requires cfg.Valid() && |cfg.members| >= 2
    ensures exists c :: Reachable(cfg, c) && |LeadersOf(c)| == MostLeaders(cfg)
  {
    var leaders := SubsetOfSize(cfg.Servers() - cfg.parks, MostLeaders(cfg));
    LeaderSets(cfg, leaders);
  }

  /** "At most two leaders" is true of a cluster exactly when it has at most two servers, or at most
      two whose become-leader callback does not park. */
  lemma AtMostTwoLeaders(cfg: Config)
    requires cfg.Valid()
    ensures (forall c :: Reachable(cfg, c) ==> |LeadersOf(c)| <= 2) <==>
            |cfg.members| <= 2 || |cfg.Servers() - cfg.parks| <= 2
  {
    forall c | Reachable(cfg, c)
      ensures |LeadersOf(c)| <= MostLeaders(cfg)
    {
      LeaderCount(cfg, c);
      ParkersNeverLead(cfg, c);
      CardinalityGrows(LeadersOf(c), cfg.Servers() - cfg.parks);
    }
    if |cfg.members| > 2 {
      LeaderBoundReached(cfg);
    }
  }

  /** Some leader has both timers running, by a `start` during its reign, exactly if it can lead. */
  lemma BothTimersRun(cfg: Config, i: Id)
    requires cfg.Valid()
    ensures (exists c :: Reachable(cfg, c) && i in LeadersOf(c) &&
                         c.servers[i].election.Running() && c.servers[i].heartbeat.Running()) <==>
            |cfg.members| >= 2 && i in cfg.Servers() - cfg.parks
  {
    hide Runs;
    forall c | Reachable(cfg, c) && i in LeadersOf(c)
      ensures |cfg.members| >= 2 && i in cfg.Servers() - cfg.parks
    {
      LeadersTakeTwo(cfg, c);
      ParkersNeverLead(cfg, c);
    }
    if |cfg.members| >= 2 && i in cfg.Servers() - cfg.parks {
      LeaderSets(cfg, {i});
      var c :| Reachable(cfg, c) && LeadersOf(c) == {i};
      assert i in LeadersOf(c);
      var d := Apply(cfg, c, RaftCluster.Start(i));
      OneStep(cfg, c, RaftCluster.Start(i));
      RoleAgrees(cfg, c, i);
      assert Reachable(cfg, d) && i in LeadersOf(d);
    }
  }

  lemma OneStep(cfg: Config, c: Cluster, step: Step)
    requires Reachable(cfg, c) && Enabled(cfg, c, step)
    ensures Reachable(cfg, Apply(cfg, c, step))
  {
    assert [step][1..] == [];
    ReachableExtends(cfg, c, [step], Apply(cfg, c, step));
  }

  // ---- who can lead at all ----

  ghost predicate NobodyLed(c: Cluster) {
    forall i :: i in c.servers ==> c.servers[i].calls == []
  }

  lemma LoneMessages(cfg: Config, c: Cluster, m: Envelope)
    requires Inv(cfg, c) && m in c.sent
    ensures |cfg.members| >= 2
  {
    hide ServerInv, VotesBacked, ReignsBacked;
    assert Backed(c, m);
    ServerCount(cfg.members);
    CardinalityGrows({m.to, m.event.sender}, cfg.Servers());
  }

  /** Without a reign behind it and without messages, a server makes no callback. */
  lemma SilentStep(cfg: Settings, s: State)
    requires !s.role.Leader?
    ensures RaftStep.CanHandle(cfg, s, ElectionTimeout) ==>
              RaftStep.Handle(cfg, s, ElectionTimeout).state.calls == s.calls
    ensures RaftStep.Park(s).calls == s.calls
  {
  }

  lemma LoneStep(cfg: Config, c: Cluster, step: Step)
    requires Inv(cfg, c) && |cfg.members| <= 1 && Enabled(cfg, c, step) && NobodyLed(c)
    ensures NobodyLed(Apply(cfg, c, step))
  {
    hide RaftStep.Handle, RaftStep.Park, Backed, VotesBacked, ReignsBacked;
    var i := Mover(step);
    assert !c.servers[i].role.Leader? by {
      assert CallsOk(c.servers[i]);
    }
    SilentStep(cfg.Of(i), c.servers[i]);
    if step.Deliver? {
      LoneMessages(cfg, c, step.m);
    }
  }

  lemma {:induction false} LoneRun(cfg: Config, c: Cluster, steps: seq<Step>, d: Cluster)
    requires Inv(cfg, c) && |cfg.members| <= 1 && NobodyLed(c) && Runs(cfg, c, steps, d)
    ensures NobodyLed(d)
    decreases |steps|
  {
    if steps != [] {
      LoneStep(cfg, c, steps[0]);
      StepKeepsInv(cfg, c, steps[0]);
      LoneRun(cfg, Apply(cfg, c, steps[0]), steps[1..], d);
    }
  }

  ghost predicate SomebodyLed(c: Cluster) {
    exists i, t: Term :: i in c.servers && BecomeLeader(t) in c.servers[i].calls
  }

  /** A lone server counts its quorum only on responses, and nobody responds to it. */
  lemma LonelyNeverLed(cfg: Config, c: Cluster)
    requires cfg.Valid() && Reachable(cfg, c) && |cfg.members| <= 1
    ensures NobodyLed(c)
  {
    var steps :| Runs(cfg, Init(cfg), steps, c);
    InitInv(cfg);
    LoneRun(cfg, Init(cfg), steps, c);
  }

  lemma LeadersTakeTwo(cfg: Config, c: Cluster)
    requires cfg.Valid() && Reachable(cfg, c)
    ensures LeadersOf(c) == {} || |cfg.members| >= 2
  {
    if |cfg.members| <= 1 {
      LonelyNeverLed(cfg, c);
      ReachableInv(cfg, c);
      forall i | i in LeadersOf(c)
        ensures false
      {
        LeadersCall(i, c.servers[i]);
      }
    }
  }

  /** Some run elects a leader, who may park at once, exactly when there are two servers or more. */
  lemma LeadersNeedTwoServers(cfg: Config)
    requires cfg.Valid()
    ensures (exists c :: Reachable(cfg, c) && SomebodyLed(c)) <==> |cfg.members| >= 2
  {
    if |cfg.members| >= 2 {
      var c := CrowdBegins(cfg);
      ServerCount(cfg.members);
      var _, d := ElectionAlwaysPossible(cfg, c, cfg.members[0], cfg.Servers());
      assert SomebodyLed(d);
    } else {
      forall c | Reachable(cfg, c)
        ensures !SomebodyLed(c)
      {
        LonelyNeverLed(cfg, c);
      }
    }
  }
}
