/** The vocabulary of one election server: roles, events, timers and the voter record. */
module RaftTypes {

  type Id = nat
  type Term = nat

  datatype Role = Follower | Candidate | Leader

  /** What `handle` is given: the four wire messages and the local election timeout. */
  datatype Event =
    | VoteRequest(sender: Id, term: Term)
    | VoteResponse(sender: Id, term: Term, granted: bool)
    | Heartbeat(sender: Id, term: Term)
    | HeartbeatAck(sender: Id, term: Term)
    | ElectionTimeout

  /** The local timeout carries term 0, so it never moves a server to a newer term. */
  function TermOf(e: Event): Term {
    if e.ElectionTimeout? then 0 else e.term
  }

  datatype Envelope = Envelope(to: Id, event: Event)

  /** The part of a renewable task that the server relies on: whether it exists, whether it
      is paused, and how often its countdown was restarted. */
  datatype Timer = Unset | Set(paused: bool, resets: nat) {
    predicate Running() {
      Set? && !paused
    }

    /** First use creates the task; later uses resume it. */
    function Arm(): Timer {
      if Unset? then Set(false, 0) else Set(false, resets)
    }

    function Pause(): Timer {
      if Unset? then Unset else Set(true, resets)
    }

    /** Restarting the countdown carries the paused flag to the replacement task. */
    function Reset(): Timer
      requires Set?
    {
      Set(paused, resets + 1)
    }
  }

  datatype VoteRecord = VoteRecord(lastVoted: Id, lastVotedTerm: Term)

  /** One granted vote. */
  datatype Ballot = Ballot(term: Term, candidate: Id)

  /** One invocation of a user callback, with what the callback can read of the server. */
  datatype Call = BecomeLeader(term: Term) | SignOff(term: Term, role: Role)

  /** Static settings of a server. `parks` says that its become-leader callback calls
      `stay_follower`, the distributed-lock usage. */
  datatype Settings = Settings(self: Id, peers: seq<Id>, parks: bool)

  /** Everything one server knows, with two histories: the callbacks made and the votes granted. */
  datatype State = State(
    role: Role,
    term: Term,
    voter: VoteRecord,
    votes: set<Id>,
    election: Timer,
    heartbeat: Timer,
    blocked: bool,
    calls: seq<Call>,
    grants: seq<Ballot>)

  /** The state after construction, before `start`. */
  const FRESH: State :=
    State(Follower, 0, VoteRecord(0, 0), {}, Unset, Unset, false, [], [])

  function Majority(peers: seq<Id>): nat {
    |peers| / 2 + 1
  }

  ghost predicate Distinct(s: seq<Id>) {
    forall j, k :: 0 <= j < k < |s| ==> s[j] != s[k]
  }

  function Elements(s: seq<Id>): set<Id> {
    set i | i in s
  }

  /** The peers a broadcast goes to, in iteration order. */
  function Others(peers: seq<Id>, self: Id): seq<Id> {
    if peers == [] then []
    else
      var n := |peers| - 1;
      Others(peers[..n], self) + if peers[n] != self then [peers[n]] else []
  }

  function Broadcast(to: seq<Id>, e: Event): seq<Envelope> {
    seq(|to|, k requires 0 <= k < |to| => Envelope(to[k], e))
  }

  lemma {:induction false} OthersMembers(peers: seq<Id>, self: Id)
    ensures forall p :: p in Others(peers, self) <==> p in peers && p != self
  {
    if peers != [] {
      var n := |peers| - 1;
      OthersMembers(peers[..n], self);
      assert peers == peers[..n] + [peers[n]];
    }
  }

  /** Peers listed once are sent to once. */
  lemma {:induction false} OthersDistinct(peers: seq<Id>, self: Id)
    requires Distinct(peers)
    ensures Distinct(Others(peers, self))
  {
    if peers != [] {
      var n := |peers| - 1;
      OthersDistinct(peers[..n], self);
      OthersMembers(peers[..n], self);
      var others := Others(peers[..n], self);
      forall j | 0 <= j < |others|
        ensures others[j] != peers[n]
      {
        assert others[j] in peers[..n];
      }
    }
  }

  /** A broadcast reaches every peer except the sender, and nobody else. */
  lemma BroadcastReaches(peers: seq<Id>, self: Id, e: Event)
    ensures forall m: Envelope :: m in Broadcast(Others(peers, self), e) <==>
                        m.event == e && m.to in peers && m.to != self
  {
    OthersMembers(peers, self);
    var to := Others(peers, self);
    forall m | m in Broadcast(to, e)
      ensures m.event == e && m.to in peers && m.to != self
    {
      var k :| 0 <= k < |to| && Broadcast(to, e)[k] == m;
      assert m.to == to[k] && to[k] in to;
    }
    forall m: Envelope | m.event == e && m.to in peers && m.to != self
      ensures m in Broadcast(to, e)
    {
      var k :| 0 <= k < |to| && to[k] == m.to;
      assert Broadcast(to, e)[k] == m;
    }
  }
}
