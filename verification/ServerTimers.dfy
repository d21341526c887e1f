/** The two timers of an election server as handles of tasks of its scheduler. What the server does to
    them is read as operations on timer values. */
module ServerTimers {
  import opened RaftTypes
  import opened Scheduler

  /** What the server's two timers do: a random timeout that starts an election, and a fixed rate at
      which heartbeats go out. */
  const ELECTION: Job := 0
  const HEARTBEAT: Job := 1

  class ServerTimer {
    const scheduler: Scheduler
    const job: Job
    var handle: ScheduledTask?

    ghost predicate Valid()
      reads this, scheduler, scheduler.owner.Keys, scheduler.owner.Values, scheduler.handles
      reads set h | h in scheduler.handles :: h.task
    {
      scheduler.Valid() &&
      (handle != null ==>
         handle in scheduler.handles && handle.limit < 0 && handle.task.job == job && !handle.task.cancelled)
    }

    ghost function AsTimer(): Timer
      reads this, handle, if handle == null then {} else {handle.task}
    {
      if handle == null then Unset else handle.AsTimer()
    }

    constructor (scheduler: Scheduler, job: Job)
      requires scheduler.Valid()
      ensures Valid() && this.scheduler == scheduler && this.job == job && handle == null
    {
      this.scheduler, this.job, handle := scheduler, job, null;
    }

    /** First use schedules an unlimited task, later uses resume it. */
    method Start(env: Environment)
      requires Valid()
      modifies this, scheduler, env`now, env`supplied, if handle == null then {} else {handle.task}
      ensures Valid() && AsTimer() == old(AsTimer()).Arm()
      ensures if old(handle) == null
              then && handle != null && fresh(handle) && fresh(handle.task)
                   && scheduler.handles == old(scheduler.handles) + {handle}
                   && scheduler.owner == old(scheduler.owner)[handle.task := handle]
              else handle == old(handle) && unchanged(scheduler)
    {
      if handle == null {
        handle := scheduler.Schedule(env, job, -1);
      } else {
        handle.Resume();
      }
    }

    method Stop()
      requires Valid()
      modifies if handle == null then {} else {handle.task}
      ensures Valid() && AsTimer() == old(AsTimer()).Pause()
    {
      if handle != null {
        handle.Pause();
      }
    }

    /** Restarting the countdown of a timer in use. */
    method Restart(env: Environment)
      requires Valid() && handle != null
      modifies handle, handle.task`cancelled, scheduler, env`now, env`supplied
      ensures Valid() && AsTimer() == old(AsTimer()).Reset()
      ensures scheduler.handles == old(scheduler.handles) && fresh(handle.task)
      ensures scheduler.owner == old(scheduler.owner)[handle.task := handle]
    {
      handle.Reset(env);
    }
  }

  /** Both timers of a server over one scheduler. */
  class TimerPair {
    const scheduler: Scheduler
    const env: Environment
    const election: ServerTimer
    const heartbeat: ServerTimer

    /** What the timers are made of. */
    ghost function Footprint(): set<object>
      reads scheduler, scheduler.handles
    {
      {scheduler, env, election, heartbeat}
      + scheduler.handles + scheduler.owner.Keys + scheduler.owner.Values + set h | h in scheduler.handles :: h.task
    }

    ghost predicate Valid()
      reads Footprint()
    {
      && election.scheduler == scheduler && heartbeat.scheduler == scheduler && election != heartbeat
      && election.job == ELECTION && heartbeat.job == HEARTBEAT && !env.cancels
      && election.Valid() && heartbeat.Valid()
      && (election.handle == null || election.handle != heartbeat.handle)
      && (forall h :: h in scheduler.handles ==> h == election.handle || h == heartbeat.handle)
    }

    ghost function Election(): Timer
      requires Valid()
      reads Footprint()
    {
      election.AsTimer()
    }

    ghost function Heartbeat(): Timer
      requires Valid()
      reads Footprint()
    {
      heartbeat.AsTimer()
    }

    constructor (scheduler: Scheduler, env: Environment, election: ServerTimer, heartbeat: ServerTimer)
      requires scheduler.Valid() && scheduler.handles == {} && scheduler.owner == map[]
      requires election.scheduler == scheduler == heartbeat.scheduler && election != heartbeat
      requires election.handle == null && heartbeat.handle == null
      requires election.job == ELECTION && heartbeat.job == HEARTBEAT && !env.cancels
      ensures Valid() && Footprint() == {scheduler, env, election, heartbeat}
      ensures Election() == Unset && Heartbeat() == Unset
      ensures this.scheduler == scheduler && this.env == env
      ensures this.election == election && this.heartbeat == heartbeat
    {
      this.scheduler, this.env, this.election, this.heartbeat := scheduler, env, election, heartbeat;
      new;
      assert scheduler.owner.Values == {};
      assert Footprint() == {scheduler, env, election, heartbeat};
    }

    /** A handle's task is its own, and everything the scheduler knows belongs to the footprint. */
    lemma Apart()
      requires Valid()
      ensures forall h :: h in scheduler.handles ==> h.task in scheduler.owner
      ensures scheduler.owner.Values <= scheduler.handles
      ensures election.handle != null && heartbeat.handle != null ==> election.handle.task != heartbeat.handle.task
    {
      assert forall h :: h in scheduler.handles ==> scheduler.HandleOk(h);
      assert forall t :: t in scheduler.owner ==> scheduler.TaskOk(t);
      if election.handle != null && heartbeat.handle != null {
        scheduler.OwnTasks(election.handle, heartbeat.handle);
      }
    }

    method StartElection()
      requires Valid()
      modifies Footprint()
      ensures Valid() && fresh(Footprint() - old(Footprint()))
      ensures Election() == old(Election()).Arm() && Heartbeat() == old(Heartbeat())
    {
      hide Scheduler.HandleOk, Scheduler.TaskOk, Scheduler.Valid;
      Apart();
      election.Start(env);
      assert unchanged(heartbeat);
      assert heartbeat.handle != null ==> unchanged(heartbeat.handle) && unchanged(heartbeat.handle.task);
      Apart();
    }

    method StopElection()
      requires Valid()
      modifies Footprint()
      ensures Valid() && fresh(Footprint() - old(Footprint()))
      ensures Election() == old(Election()).Pause() && Heartbeat() == old(Heartbeat())
    {
      hide Scheduler.HandleOk, Scheduler.TaskOk, Scheduler.Valid;
      Apart();
      election.Stop();
    }

    method RestartElection()
      requires Valid() && Election().Set?
      modifies Footprint()
      ensures Valid() && fresh(Footprint() - old(Footprint()))
      ensures Election() == old(Election()).Reset() && Heartbeat() == old(Heartbeat())
    {
      hide Scheduler.HandleOk, Scheduler.TaskOk, Scheduler.Valid;
      Apart();
      election.Restart(env);
      Apart();
    }

    method StartHeartbeat()
      requires Valid()
      modifies Footprint()
      ensures Valid() && fresh(Footprint() - old(Footprint()))
      ensures Election() == old(Election()) && Heartbeat() == old(Heartbeat()).Arm()
    {
      hide Scheduler.HandleOk, Scheduler.TaskOk, Scheduler.Valid;
      Apart();
      heartbeat.Start(env);
      assert unchanged(election);
      assert election.handle != null ==> unchanged(election.handle) && unchanged(election.handle.task);
      Apart();
    }

    method StopHeartbeat()
      requires Valid()
      modifies Footprint()
      ensures Valid() && fresh(Footprint() - old(Footprint()))
      ensures Election() == old(Election()) && Heartbeat() == old(Heartbeat()).Pause()
    {
      hide Scheduler.HandleOk, Scheduler.TaskOk, Scheduler.Valid;
      Apart();
      heartbeat.Stop();
    }

    /** A pass over the due tasks leaves both timers in place, uncancelled and with the same restarts.
        It calls what was due and ran, and nothing and without effect where neither timer runs. */
    method ExecuteDue() returns (now: nat, ghost popped: seq<Popped>)
      requires Valid()
      modifies Footprint()
      ensures Valid() && Footprint() == old(Footprint())
      ensures Executed(old(scheduler.View()), now, popped, scheduler.View())
      ensures scheduler.running ==> Due(scheduler.View(), now) == {}
      ensures env.made == old(env.made) + CallsOf(popped)
      ensures Election().Pause() == old(Election()).Pause() && Heartbeat().Pause() == old(Heartbeat()).Pause()
      ensures old(!Election().Running() && !Heartbeat().Running()) ==>
                env.made == old(env.made) && Election() == old(Election()) && Heartbeat() == old(Heartbeat())
    {
      hide Scheduler.HandleOk, Scheduler.TaskOk, Scheduler.Valid, Scheduler.Spared, Scheduler.View;
      hide Executed, Due, Quiet, Silent, CallsOf;
      Apart();
      ghost var before, quiet := scheduler.View(), !Election().Running() && !Heartbeat().Running();
      if quiet {
        ParkedIsQuiet(this);
      }
      now, popped := scheduler.ExecuteDueTasks(env);
      Passed();
      if quiet {
        SilentlyPassed(now, popped);
      }
    }

    twostate lemma Passed()
      requires old(Valid()) && scheduler.Valid() && scheduler.Spared()
      requires unchanged(election) && unchanged(heartbeat) && scheduler.handles == old(scheduler.handles)
      requires forall h :: h in scheduler.handles ==> unchanged(h)
      ensures Valid() && Footprint() == old(Footprint())
      ensures Election().Pause() == old(Election()).Pause() && Heartbeat().Pause() == old(Heartbeat()).Pause()
    {
      assert forall h :: h in scheduler.handles ==> old(scheduler.HandleOk(h));
      hide Scheduler.HandleOk, Scheduler.TaskOk, Scheduler.Valid;
    }

    twostate lemma SilentlyPassed(new now: nat, new popped: seq<Popped>)
      requires old(Valid()) && Valid() && unchanged(election) && unchanged(heartbeat)
      requires scheduler.handles == old(scheduler.handles) && forall h :: h in scheduler.handles ==> unchanged(h)
      requires Executed(old(scheduler.View()), now, popped, scheduler.View())
      requires Silent(old(scheduler.View()), scheduler.View())
      ensures CallsOf(popped) == []
      ensures Election() == old(Election()) && Heartbeat() == old(Heartbeat())
    {
      SilentPass(old(scheduler.View()), now, popped, scheduler.View());
      SamePauses();
    }

    twostate lemma SamePauses()
      requires old(Valid()) && Valid() && unchanged(election) && unchanged(heartbeat)
      requires scheduler.handles == old(scheduler.handles) && forall h :: h in scheduler.handles ==> unchanged(h)
      requires scheduler.View().paused == old(scheduler.View()).paused
      ensures Election() == old(Election()) && Heartbeat() == old(Heartbeat())
    {
      Apart();
      hide Scheduler.Valid, Scheduler.View;
      if election.handle != null {
        SamePause(election.handle);
      }
      if heartbeat.handle != null {
        SamePause(heartbeat.handle);
      }
    }

    twostate lemma SamePause(h: ScheduledTask)
      requires unchanged(h) && h.task in scheduler.owner && h.task in old(scheduler.owner)
      requires scheduler.View().paused == old(scheduler.View()).paused
      ensures h.AsTimer() == old(h.AsTimer())
    {
      assert scheduler.View().paused[h.task] == h.task.paused;
      assert old(scheduler.View().paused[h.task] == h.task.paused);
    }
  }

  /** Two timers not yet in use over a scheduler of their own. */
  method MakeTimers() returns (pair: TimerPair)
    ensures fresh(pair) && fresh(pair.Footprint()) && pair.Valid()
    ensures pair.Election() == Unset && pair.Heartbeat() == Unset
    ensures pair.Footprint() == {pair.scheduler, pair.env, pair.election, pair.heartbeat}
  {
    hide TimerPair.Valid, TimerPair.Election, TimerPair.Heartbeat, TimerPair.Footprint;
    hide Scheduler.Valid, ServerTimer.Valid;
    var scheduler := new Scheduler();
    var env := new Environment(false);
    var election := new ServerTimer(scheduler, ELECTION);
    var heartbeat := new ServerTimer(scheduler, HEARTBEAT);
    pair := new TimerPair(scheduler, env, election, heartbeat);
  }

  /** A server's own scheduler with its timers, and all the objects they are made of. */
  class ServerClock {
    const timers: TimerPair
    ghost var Repr: set<object>

    ghost predicate Valid()
      reads this, Repr
    {
      && this in Repr && timers.scheduler in Repr && timers.scheduler.handles <= Repr
      && this !in timers.Footprint() && timers.Footprint() <= Repr && timers.Valid()
    }

    ghost function Election(): Timer
      requires Valid()
      reads this, Repr
    {
      timers.Election()
    }

    ghost function Heartbeat(): Timer
      requires Valid()
      reads this, Repr
    {
      timers.Heartbeat()
    }

    constructor ()
      ensures Valid() && fresh(Repr) && Election() == Unset && Heartbeat() == Unset
    {
      hide TimerPair.Valid, TimerPair.Election, TimerPair.Heartbeat;
      var pair := MakeTimers();
      timers := pair;
      Repr := {this};
      new;
      Cover();
    }

    /** Takes the objects made since into the footprint. */
    ghost method Cover()
      requires timers.Valid() && this in Repr && this !in timers.Footprint()
      modifies this`Repr
      ensures Valid() && Repr == old(Repr) + timers.Footprint()
      ensures Election() == old(timers.Election()) && Heartbeat() == old(timers.Heartbeat())
    {
      hide TimerPair.Valid, TimerPair.Election, TimerPair.Heartbeat;
      Repr := Repr + timers.Footprint();
    }

    method StartElection()
      requires Valid()
      modifies Repr
      ensures Valid() && fresh(Repr - old(Repr))
      ensures Election() == old(Election()).Arm() && Heartbeat() == old(Heartbeat())
    {
      hide TimerPair.Valid, TimerPair.Election, TimerPair.Heartbeat;
      timers.StartElection();
      Cover();
    }

    method StopElection()
      requires Valid()
      modifies Repr
      ensures Valid() && fresh(Repr - old(Repr))
      ensures Election() == old(Election()).Pause() && Heartbeat() == old(Heartbeat())
    {
      hide TimerPair.Valid, TimerPair.Election, TimerPair.Heartbeat;
      timers.StopElection();
      Cover();
    }

    method RestartElection()
      requires Valid() && Election().Set?
      modifies Repr
      ensures Valid() && fresh(Repr - old(Repr))
      ensures Election() == old(Election()).Reset() && Heartbeat() == old(Heartbeat())
    {
      hide TimerPair.Valid, TimerPair.Election, TimerPair.Heartbeat;
      timers.RestartElection();
      Cover();
    }

    method StartHeartbeat()
      requires Valid()
      modifies Repr
      ensures Valid() && fresh(Repr - old(Repr))
      ensures Election() == old(Election()) && Heartbeat() == old(Heartbeat()).Arm()
    {
      hide TimerPair.Valid, TimerPair.Election, TimerPair.Heartbeat;
      timers.StartHeartbeat();
      Cover();
    }

    method StopHeartbeat()
      requires Valid()
      modifies Repr
      ensures Valid() && fresh(Repr - old(Repr))
      ensures Election() == old(Election()) && Heartbeat() == old(Heartbeat()).Pause()
    {
      hide TimerPair.Valid, TimerPair.Election, TimerPair.Heartbeat;
      timers.StopHeartbeat();
      Cover();
    }
  }

  /** A running timer has one live task, its current one: queued, not paused and with no limit of calls. */
  lemma RunningTimerIsLive(timer: ServerTimer)
    requires timer.Valid() && timer.AsTimer().Running()
    ensures timer.scheduler.Live(timer.handle) == {timer.handle.task}
    ensures !timer.handle.task.paused && timer.handle.task.maxCalls < 0 && timer.handle.task.job == timer.job
  {
    timer.scheduler.OneLiveTask(timer.handle);
    assert timer.scheduler.HandleOk(timer.handle);
  }

  /** A parked timer is quiet: however often it is restarted, its one live task is paused. */
  lemma ParkedTimerIsQuiet(timer: ServerTimer)
    requires timer.Valid() && timer.AsTimer().Set? && !timer.AsTimer().Running()
    ensures forall t :: t in timer.scheduler.Live(timer.handle) ==> t.paused
  {
    timer.scheduler.OneLiveTask(timer.handle);
  }

  /** While neither timer of a server runs its scheduler is quiet: a pass makes no callback, changes
      no flag and leaves it so. */
  lemma ParkedIsQuiet(pair: TimerPair)
    requires pair.Valid() && !pair.Election().Running() && !pair.Heartbeat().Running()
    ensures Quiet(pair.scheduler.View())
  {
    var s := pair.scheduler;
    forall t | t in s.queue
      ensures t.cancelled || t.paused
    {
      assert s.TaskOk(t);
      assert s.HandleOk(s.owner[t]);
    }
  }
}
