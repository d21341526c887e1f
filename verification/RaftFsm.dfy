/** The server as the repository writes it: an object whose methods update its fields. */
module RaftFsm {
  import opened RaftTypes
  import opened ServerTimers
  import opened Scheduler
  import RaftStep

  class Voter {
    var lastVoted: Id
    var lastVotedTerm: Term

    ghost function Record(): VoteRecord
      reads this
    {
      VoteRecord(lastVoted, lastVotedTerm)
    }

    constructor ()
      ensures Record() == VoteRecord(0, 0)
    {
      lastVoted, lastVotedTerm := 0, 0;
    }

    method VoteForLeader(candidate: Id, term: Term) returns (accepted: bool)
      modifies this
      ensures accepted == RaftStep.Accepts(old(Record()), candidate, term)
      ensures Record() == RaftStep.Cast(old(Record()), candidate, term)
    {
      if term < lastVotedTerm {
        return false;
      } else if term == lastVotedTerm {
        if candidate == lastVoted {
          return true;
        } else {
          return false;
        }
      } else {
        lastVotedTerm := term;
        lastVoted := candidate;
        return true;
      }
    }
  }

  /** The event loop around a server: whether it hands events to the server's handler. */
  class RaftActor {
    var handling: bool

    constructor ()
      ensures !handling
    {
      handling := false;
    }

    method Start()
      modifies this
      ensures handling
    {
      handling := true;
    }

    method Stop()
      modifies this
      ensures !handling
    {
      handling := false;
    }
  }

  class RaftFsm {
    const cfg: Settings
    const actor: RaftActor
    const voter: Voter
    var role: Role
    var term: Term
    var votedPeers: set<Id>
    const clock: ServerClock    // the scheduler and its election and heartbeat tasks
    var blocked: bool
    var calls: seq<Call>        // callbacks made, oldest first
    var outbox: seq<Envelope>   // messages handed to the actor, oldest first
    ghost var grants: seq<Ballot>

    ghost predicate Valid()
      reads clock, clock.Repr
    {
      && clock.Valid() && clock in clock.Repr
      && this !in clock.Repr && voter !in clock.Repr && actor !in clock.Repr
    }

    ghost function View(): State
      requires Valid()
      reads this, voter, clock, clock.Repr
    {
      State(role, term, voter.Record(), votedPeers, clock.Election(), clock.Heartbeat(), blocked, calls, grants)
    }

    constructor (cfg: Settings, actor: RaftActor)
      ensures Valid() && this.cfg == cfg && this.actor == actor && fresh(voter) && fresh(clock.Repr)
      ensures View() == FRESH && outbox == []
      ensures role == Follower && term == 0 && votedPeers == {} && !blocked
      ensures clock.Election() == Unset && clock.Heartbeat() == Unset
    {
      this.cfg, this.actor := cfg, actor;
      voter := new Voter();
      clock := new ServerClock();
      role, term, votedPeers := Follower, 0, {};
      blocked, calls, outbox, grants := false, [], [], [];
    }

    // ---- the actor ----

    method GetPeers() returns (others: seq<Id>)
      ensures others == Others(cfg.peers, cfg.self)
    {
      others := [];
      for k := 0 to |cfg.peers|
        invariant others == Others(cfg.peers[..k], cfg.self)
      {
        assert cfg.peers[..k + 1][..k] == cfg.peers[..k];
        if cfg.peers[k] != cfg.self {
          others := others + [cfg.peers[k]];
        }
      }
      assert cfg.peers[..|cfg.peers|] == cfg.peers;
    }

    method Send(e: Event, to: Id)
      modifies this`outbox
      ensures outbox == old(outbox) + [Envelope(to, e)]
    {
      outbox := outbox + [Envelope(to, e)];
    }

    method SendToPeers(e: Event)
      modifies this`outbox
      ensures outbox == old(outbox) + Broadcast(Others(cfg.peers, cfg.self), e)
    {
      var others := GetPeers();
      for k := 0 to |others|
        invariant outbox == old(outbox) + Broadcast(others[..k], e)
      {
        Send(e, others[k]);
        assert Broadcast(others[..k + 1], e) == Broadcast(others[..k], e) + [Envelope(others[k], e)];
      }
      assert others[..|others|] == others;
    }

    // ---- public calls ----

    method Start()
      requires Valid()
      modifies this, actor, clock.Repr
      ensures Valid() && fresh(clock.Repr - old(clock.Repr))
      ensures View() == RaftStep.Start(old(View())) && outbox == old(outbox)
      ensures actor.handling
    {
      hide ServerClock.Valid, ServerClock.Election, ServerClock.Heartbeat;
      InitFollowerState();
      actor.Start();
    }

    method Stop()
      requires Valid()
      modifies actor
      ensures Valid()
      ensures View() == old(View()) && outbox == old(outbox) && !actor.handling
    {
      hide ServerClock.Valid, ServerClock.Election, ServerClock.Heartbeat;
      actor.Stop();
    }

    method Block()
      requires Valid()
      modifies this, clock.Repr
      ensures Valid() && fresh(clock.Repr - old(clock.Repr))
      ensures View() == RaftStep.Block(old(View())) && outbox == old(outbox)
    {
      hide ServerClock.Valid, ServerClock.Election, ServerClock.Heartbeat;
      StayFollower();
      blocked := true;
    }

    method Unblock()
      requires Valid()
      modifies this
      ensures Valid()
      ensures View() == RaftStep.Unblock(old(View())) && outbox == old(outbox)
    {
      hide ServerClock.Valid, ServerClock.Election, ServerClock.Heartbeat;
      blocked := false;
    }

    method StayFollower()
      requires Valid()
      modifies this, clock.Repr
      ensures Valid() && fresh(clock.Repr - old(clock.Repr))
      ensures View() == RaftStep.Park(old(View())) && outbox == old(outbox)
    {
      hide ServerClock.Valid, ServerClock.Election, ServerClock.Heartbeat;
      ConvertToFollower();
      PauseScheduledTasks();
    }

    /** One event, taken as a single step under the handler mutex. */
    method Handle(e: Event)
      requires Valid() && RaftStep.CanHandle(cfg, View(), e)
      modifies this, voter, clock.Repr
      ensures Valid() && fresh(clock.Repr - old(clock.Repr))
      ensures View() == RaftStep.Handle(cfg, old(View()), e).state
      ensures outbox == old(outbox) + RaftStep.Handle(cfg, old(View()), e).out
    {
      hide ServerClock.Valid, ServerClock.Election, ServerClock.Heartbeat;
      if blocked {
        return;
      }
      if TermOf(e) > term {
        term := TermOf(e);
        ConvertToFollower();
      }
      match e
      case VoteRequest(_, _) => HandleRequestVote(e);
      case VoteResponse(_, _, _) => HandleRequestVoteResponse(e);
      case Heartbeat(_, _) => HandleAppendEntries(e);
      case HeartbeatAck(_, _) =>
      case ElectionTimeout => HandleElectionTimeout();
    }

    /** The heartbeat task's callback. */
    method SendHeartbeats()
      requires Valid()
      modifies this`outbox
      ensures Valid() && View() == old(View())
      ensures outbox == old(outbox) + RaftStep.Beat(cfg, old(View())).out
    {
      hide ServerClock.Valid, ServerClock.Election, ServerClock.Heartbeat;
      SendToPeers(Heartbeat(cfg.self, term));
    }

    /** What the scheduler calls: an election timeout is handled as an event, the heartbeat sends. */
    method Fire(job: Job)
      requires Valid() && job in {ELECTION, HEARTBEAT}
      requires job == ELECTION ==> RaftStep.CanHandle(cfg, View(), ElectionTimeout)
      modifies this, voter, clock.Repr
      ensures Valid() && fresh(clock.Repr - old(clock.Repr))
      ensures var o := if job == ELECTION then RaftStep.Handle(cfg, old(View()), ElectionTimeout)
                       else RaftStep.Beat(cfg, old(View()));
              View() == o.state && outbox == old(outbox) + o.out
    {
      if job == ELECTION {
        Handle(ElectionTimeout);
      } else {
        SendHeartbeats();
      }
    }

    // ---- conversions ----

    method ConvertToFollower()
      requires Valid()
      modifies this, clock.Repr
      ensures Valid() && fresh(clock.Repr - old(clock.Repr))
      ensures View() == RaftStep.StepDown(old(View())) && outbox == old(outbox)
    {
      hide ServerClock.Valid, ServerClock.Election, ServerClock.Heartbeat;
      var wasLeader := role == Leader;
      if role != Follower {
        ClearPrevState();
        role := Follower;
        InitFollowerState();
        if wasLeader {
          OnSignOffLeader();
        }
      }
    }

    /** A campaign; a leader would stop its heartbeat and sign off as well. */
    method ConvertToCandidate()
      requires Valid()
      modifies this, voter, clock.Repr
      ensures Valid() && fresh(clock.Repr - old(clock.Repr))
      ensures var s := RaftStep.Campaign(cfg, old(View())).state;
              View() == if old(role) != Leader then s
                        else s.(heartbeat := s.heartbeat.Pause(), calls := s.calls + [SignOff(term, Candidate)])
      ensures outbox == old(outbox) + RaftStep.Campaign(cfg, old(View())).out
    {
      hide ServerClock.Valid, ServerClock.Election, ServerClock.Heartbeat;
      var wasLeader := role == Leader;
      ClearPrevState();
      term := term + 1;
      role := Candidate;
      InitCandidateState();
      if wasLeader {
        OnSignOffLeader();
      }
    }

    method ConvertToLeader()
      requires Valid() && role == Candidate
      modifies this, clock.Repr
      ensures Valid() && fresh(clock.Repr - old(clock.Repr))
      ensures View() == RaftStep.Lead(cfg, old(View())) && outbox == old(outbox)
    {
      hide ServerClock.Valid, ServerClock.Election, ServerClock.Heartbeat;
      ClearPrevState();
      term := term + 1;
      role := Leader;
      StartHeartbeat();
      OnBecomeLeader();
    }

    method OnSignOffLeader()
      requires Valid()
      modifies this`calls
      ensures Valid() && View() == old(View()).(calls := calls)
      ensures calls == old(calls) + [SignOff(term, role)]
    {
      hide ServerClock.Valid, ServerClock.Election, ServerClock.Heartbeat;
      calls := calls + [SignOff(term, role)];
    }

    /** The callback, with `stay_follower` called from inside it when configured so. */
    method OnBecomeLeader()
      requires Valid()
      modifies this, clock.Repr
      ensures Valid() && fresh(clock.Repr - old(clock.Repr))
      ensures outbox == old(outbox)
      ensures var s := old(View()).(calls := old(calls) + [BecomeLeader(term)]);
              old(term) == term && View() == if cfg.parks then RaftStep.Park(s) else s
    {
      hide ServerClock.Valid, ServerClock.Election, ServerClock.Heartbeat;
      calls := calls + [BecomeLeader(term)];
      if cfg.parks {
        StayFollower();
      }
    }

    method InitFollowerState()
      requires Valid()
      modifies clock.Repr
      ensures Valid() && fresh(clock.Repr - old(clock.Repr))
      ensures View() == old(View()).(election := old(View()).election.Arm())
    {
      hide ServerClock.Valid, ServerClock.Election, ServerClock.Heartbeat;
      StartElectionTimeout();
    }

    method InitCandidateState()
      requires Valid()
      modifies this, voter, clock.Repr
      ensures Valid() && fresh(clock.Repr - old(clock.Repr))
      ensures View() == RaftStep.Vote(old(View()), cfg.self, term).(
                          election := old(View()).election.Arm(),
                          votes := old(votedPeers) +
                                   if RaftStep.Accepts(old(voter.Record()), cfg.self, term) then {cfg.self} else {})
      ensures outbox == old(outbox) + Broadcast(Others(cfg.peers, cfg.self), VoteRequest(cfg.self, term))
    {
      hide ServerClock.Valid, ServerClock.Election, ServerClock.Heartbeat;
      StartElectionTimeout();
      var _ := VoteSelf();
      RequestVoteForSelf();
    }

    method ClearCandidateState()
      requires Valid()
      modifies this`votedPeers, clock.Repr
      ensures Valid() && fresh(clock.Repr - old(clock.Repr))
      ensures View() == old(View()).(election := old(View()).election.Pause(), votes := {})
    {
      hide ServerClock.Valid, ServerClock.Election, ServerClock.Heartbeat;
      StopElectionTimeout();
      votedPeers := {};
    }

    method ClearPrevState()
      requires Valid()
      modifies this`votedPeers, clock.Repr
      ensures Valid() && fresh(clock.Repr - old(clock.Repr))
      ensures View() == match role
                        case Follower => old(View())
                        case Candidate => old(View()).(election := old(View()).election.Pause(), votes := {})
                        case Leader => old(View()).(heartbeat := old(View()).heartbeat.Pause())
    {
      hide ServerClock.Valid, ServerClock.Election, ServerClock.Heartbeat;
      if role == Candidate {
        ClearCandidateState();
      } else if role == Leader {
        StopHeartbeat();
      }
    }

    method VoteSelf() returns (voted: bool)
      requires Valid()
      modifies this`votedPeers, this`grants, voter
      ensures Valid()
      ensures voted == RaftStep.Accepts(old(voter.Record()), cfg.self, term)
      ensures View() == RaftStep.Vote(old(View()), cfg.self, term).(
                          votes := old(votedPeers) + if voted then {cfg.self} else {})
    {
      hide ServerClock.Valid, ServerClock.Election, ServerClock.Heartbeat;
      voted := voter.VoteForLeader(cfg.self, term);
      if voted {
        grants := grants + [Ballot(term, cfg.self)];
        votedPeers := votedPeers + {cfg.self};
      }
    }

    method RequestVoteForSelf()
      requires Valid()
      modifies this`outbox
      ensures Valid() && View() == old(View())
      ensures outbox == old(outbox) + Broadcast(Others(cfg.peers, cfg.self), VoteRequest(cfg.self, term))
    {
      hide ServerClock.Valid, ServerClock.Election, ServerClock.Heartbeat;
      SendToPeers(VoteRequest(cfg.self, term));
    }

    method StartNewElection()
      requires Valid() && role == Candidate
      modifies this, voter, clock.Repr
      ensures Valid() && fresh(clock.Repr - old(clock.Repr))
      ensures View() == RaftStep.Campaign(cfg, old(View())).state
      ensures outbox == old(outbox) + RaftStep.Campaign(cfg, old(View())).out
    {
      hide ServerClock.Valid, ServerClock.Election, ServerClock.Heartbeat;
      term := term + 1;
      ClearCandidateState();
      InitCandidateState();
    }

    // ---- timers ----

    method StartHeartbeat()
      requires Valid()
      modifies clock.Repr
      ensures Valid() && fresh(clock.Repr - old(clock.Repr))
      ensures View() == old(View()).(heartbeat := old(View()).heartbeat.Arm())
    {
      clock.StartHeartbeat();
    }

    method StopHeartbeat()
      requires Valid()
      modifies clock.Repr
      ensures Valid() && fresh(clock.Repr - old(clock.Repr))
      ensures View() == old(View()).(heartbeat := old(View()).heartbeat.Pause())
    {
      clock.StopHeartbeat();
    }

    method StartElectionTimeout()
      requires Valid()
      modifies clock.Repr
      ensures Valid() && fresh(clock.Repr - old(clock.Repr))
      ensures View() == old(View()).(election := old(View()).election.Arm())
    {
      clock.StartElection();
    }

    method StopElectionTimeout()
      requires Valid()
      modifies clock.Repr
      ensures Valid() && fresh(clock.Repr - old(clock.Repr))
      ensures View() == old(View()).(election := old(View()).election.Pause())
    {
      clock.StopElection();
    }

    method ResetElectionTimeout()
      requires Valid() && View().election.Set?
      modifies clock.Repr
      ensures Valid() && fresh(clock.Repr - old(clock.Repr))
      ensures View() == old(View()).(election := old(View()).election.Reset())
    {
      clock.RestartElection();
    }

    method PauseScheduledTasks()
      requires Valid()
      modifies clock.Repr
      ensures Valid() && fresh(clock.Repr - old(clock.Repr))
      ensures var s := old(View()); View() == s.(election := s.election.Pause(), heartbeat := s.heartbeat.Pause())
    {
      clock.StopElection();
      clock.StopHeartbeat();
    }

    // ---- event handlers ----

    method HandleRequestVote(e: Event)
      requires Valid() && e.VoteRequest? && View().election.Set? && e.sender in cfg.peers
      modifies this, voter, clock.Repr
      ensures Valid() && fresh(clock.Repr - old(clock.Repr))
      ensures View() == RaftStep.OnVoteRequest(cfg, old(View()), e).state
      ensures outbox == old(outbox) + RaftStep.OnVoteRequest(cfg, old(View()), e).out
    {
      hide ServerClock.Valid, ServerClock.Election, ServerClock.Heartbeat;
      if e.term < term {
        Send(VoteResponse(cfg.self, term, false), e.sender);
      } else {
        if role == Follower {
          ResetElectionTimeout();
        }
        var accepted := voter.VoteForLeader(e.sender, e.term);
        if accepted {
          grants := grants + [Ballot(e.term, e.sender)];
        }
        Send(VoteResponse(cfg.self, term, accepted), e.sender);
      }
    }

    method HandleRequestVoteResponse(e: Event)
      requires Valid() && e.VoteResponse?
      modifies this, clock.Repr
      ensures Valid() && fresh(clock.Repr - old(clock.Repr))
      ensures View() == RaftStep.OnVoteResponse(cfg, old(View()), e) && outbox == old(outbox)
    {
      hide ServerClock.Valid, ServerClock.Election, ServerClock.Heartbeat;
      if e.term >= term {
        if role == Candidate {
          if e.granted {
            votedPeers := votedPeers + {e.sender};
            if |votedPeers| >= Majority(cfg.peers) {
              ConvertToLeader();
            }
          }
        }
      }
    }

    method HandleAppendEntries(e: Event)
      requires Valid() && e.Heartbeat? && View().election.Set? && e.sender in cfg.peers
      modifies this, clock.Repr
      ensures Valid() && fresh(clock.Repr - old(clock.Repr))
      ensures View() == RaftStep.OnHeartbeat(cfg, old(View()), e).state
      ensures outbox == old(outbox) + RaftStep.OnHeartbeat(cfg, old(View()), e).out
    {
      hide ServerClock.Valid, ServerClock.Election, ServerClock.Heartbeat;
      if e.term >= term {
        if role == Candidate || role == Follower {
          ResetElectionTimeout();
        }
        if role == Candidate {
          ConvertToFollower();
        }
      }
      Send(HeartbeatAck(cfg.self, term), e.sender);
    }

    method HandleElectionTimeout()
      requires Valid()
      modifies this, voter, clock.Repr
      ensures Valid() && fresh(clock.Repr - old(clock.Repr))
      ensures View() == if old(role) == Leader then old(View())
                        else RaftStep.Campaign(cfg, old(View())).state
      ensures outbox == old(outbox) + if old(role) == Leader then []
                                      else RaftStep.Campaign(cfg, old(View())).out
    {
      hide ServerClock.Valid, ServerClock.Election, ServerClock.Heartbeat;
      if role == Follower {
        ConvertToCandidate();
      } else if role == Candidate {
        StartNewElection();
      }
    }
  }
}
