/** Renewable, pausable, replaceable timers over a priority queue of tasks. */
module Scheduler {
  import opened RaftTypes

  /** An interval supplier and a callable, which are always scheduled together. */
  type Job = nat

  /** The clock, the interval suppliers and the user's callbacks: time never runs backwards,
      intervals are positive, and a callback may pause or resume tasks, and cancel them where
      `cancels` says so, but leaves the queue alone. */
  class Environment {
    const cancels: bool
    var now: nat
    ghost var supplied: nat     // the interval supplied last
    ghost var made: seq<Job>    // the callbacks made, oldest first

    constructor (cancels: bool)
      ensures this.cancels == cancels && made == []
    {
      this.cancels := cancels;
      now, supplied, made := *, *, [];
    }

    method Now() returns (t: nat)
      modifies this`now
      ensures t == now && old(now) <= now
    {
      var passed: nat :| passed >= 0;
      now := now + passed;
      return now;
    }

    method Interval(job: Job) returns (d: nat)
      modifies this`supplied
      ensures d == supplied > 0
    {
      d :| d > 0;
      supplied := d;
    }

    method Callback(job: Job, tasks: set<Task>)
      modifies this`made, tasks`cancelled, tasks`paused
      ensures made == old(made) + [job]
      ensures forall t :: t in tasks && (old(t.cancelled) || !cancels) ==> t.cancelled == old(t.cancelled)
    {
      var stopped: set<Task> :| stopped <= tasks;
      var pauses: set<Task> :| pauses <= tasks;
      if cancels {
        forall t | t in stopped {
          t.cancelled := true;
        }
      }
      forall t | t in tasks {
        t.paused := t in pauses;
      }
      made := made + [job];
    }
  }

  class Task {
    const job: Job
    var maxCalls: int
    var dueTime: nat
    var cancelled: bool
    var paused: bool
    ghost var runs: nat  // callbacks made by this task

    constructor (job: Job, dueTime: nat, maxCalls: int)
      ensures this.job == job && this.dueTime == dueTime && this.maxCalls == maxCalls
      ensures !cancelled && !paused && runs == 0
    {
      this.job, this.dueTime, this.maxCalls := job, dueTime, maxCalls;
      cancelled, paused, runs := false, false, 0;
    }

    /** Runs the callback unless cancelled or paused; a limited task cancels itself on its last call. */
    method Call(env: Environment, tasks: set<Task>)
      requires this in tasks
      modifies this`maxCalls, this`runs, tasks`cancelled, tasks`paused, env`made
      ensures if old(cancelled || paused) then runs == old(runs) && maxCalls == old(maxCalls)
              else runs == old(runs) + 1 && maxCalls == if old(maxCalls) > 0 then old(maxCalls) - 1 else old(maxCalls)
      ensures env.made == old(env.made) + if old(cancelled || paused) then [] else [job]
      ensures !old(cancelled || paused) && old(maxCalls) == 1 ==> cancelled
      ensures old(cancelled || paused) ==>
                forall t :: t in tasks ==> t.cancelled == old(t.cancelled) && t.paused == old(t.paused)
      ensures forall t :: t in tasks && old(t.cancelled) ==> t.cancelled
      ensures !env.cancels ==>
                forall t :: t in tasks && (t != this || old(maxCalls) != 1) ==> t.cancelled == old(t.cancelled)
    {
      if !cancelled && !paused {
        env.Callback(job, tasks);
        runs := runs + 1;
        if maxCalls > 0 {
          maxCalls := maxCalls - 1;
          if maxCalls == 0 {
            cancelled := true;
          }
        }
      }
    }

    method Renew(env: Environment)
      modifies this`dueTime, env`now, env`supplied
      ensures dueTime == env.now + env.supplied && env.supplied > 0 && old(env.now) <= env.now
    {
      var now := env.Now();
      var interval := env.Interval(job);
      dueTime := now + interval;
    }
  }

  class ScheduledTask {
    const scheduler: Scheduler   // what the task replacer captures
    var task: Task
    ghost const limit: int       // the limit on calls it was scheduled with
    ghost var past: nat          // callbacks made by replaced tasks
    ghost var resets: nat        // how often the task was replaced

    constructor (scheduler: Scheduler, task: Task)
      ensures this.scheduler == scheduler && this.task == task
      ensures limit == task.maxCalls && past == 0 && resets == 0
    {
      this.scheduler, this.task := scheduler, task;
      limit, past, resets := task.maxCalls, 0, 0;
    }

    /** The timer that an election server sees in this handle. */
    ghost function AsTimer(): Timer
      reads this, task
    {
      Timer.Set(task.paused, resets)
    }

    /** All callbacks made through this handle. */
    ghost function Runs(): nat
      reads this, task
    {
      past + task.runs
    }

    method Cancel()
      requires scheduler.Valid() && this in scheduler.handles
      modifies task`cancelled
      ensures scheduler.Valid() && task.cancelled
    {
      task.cancelled := true;
    }

    method Pause()
      requires scheduler.Valid() && this in scheduler.handles
      modifies task`paused
      ensures scheduler.Valid() && task.paused && AsTimer() == old(AsTimer()).Pause()
    {
      task.paused := true;
    }

    method Resume()
      requires scheduler.Valid() && this in scheduler.handles
      modifies task`paused
      ensures scheduler.Valid() && !task.paused && AsTimer() == old(AsTimer()).Arm()
    {
      task.paused := false;
    }

    /** Restart the countdown: the old task is cancelled and a new one takes its place with the
        same flags and the calls that are left. */
    method Reset(env: Environment)
      requires scheduler.Valid() && this in scheduler.handles
      modifies this, task`cancelled, scheduler, env`now, env`supplied
      ensures scheduler.Valid() && scheduler.handles == old(scheduler.handles)
      ensures fresh(task) && scheduler.queue == old(scheduler.queue) + {task}
      ensures old(task).cancelled && scheduler.owner == old(scheduler.owner)[task := this]
      ensures task.cancelled == old(task.cancelled) && task.paused == old(task.paused)
      ensures task.job == old(task.job) && task.maxCalls == old(task.maxCalls) && Runs() == old(Runs())
      ensures AsTimer() == old(AsTimer()).Reset()
      ensures task.dueTime == env.now + env.supplied && env.supplied > 0 && old(env.now) <= env.now
    {
      hide Scheduler.HandleOk, Scheduler.TaskOk, Scheduler.Valid;
      var wasCancelled, wasPaused := task.cancelled, task.paused;
      task.cancelled := true;
      ghost var replaced := task;
      task := scheduler.RunAfter(env, task.job, task.maxCalls);
      past, resets := past + replaced.runs, resets + 1;
      scheduler.owner := scheduler.owner[task := this];
      if wasCancelled {
        task.cancelled := true;
      }
      if wasPaused {
        task.paused := true;
      }
      scheduler.ReplacedValid(this, task);
    }
  }

  class Scheduler {
    var queue: set<Task>                  // the priority queue, ordered by due time
    ghost var keys: map<Task, nat>        // the due time each queued task was pushed with
    ghost var handles: set<ScheduledTask>
    var owner: map<Task, ScheduledTask>   // whose task each task ever pushed is
    var running: bool

    /** A handle owns its current task; a live one is queued; calls made and calls left add up
        to the limit. */
    ghost predicate HandleOk(h: ScheduledTask)
      reads this, h, h.task
    {
      && h.scheduler == this
      && h.task in owner && owner[h.task] == h
      && (!h.task.cancelled ==> h.task in queue)
      && (if h.limit > 0 then
            h.past + h.task.runs + h.task.maxCalls == h.limit && h.task.maxCalls >= 0 &&
            (h.task.maxCalls == 0 ==> h.task.cancelled)
          else h.task.maxCalls == h.limit)
    }

    /** Every task belongs to a handle, and all but a handle's current one are cancelled. */
    ghost predicate TaskOk(t: Task)
      reads this, t, owner.Values
      requires t in owner
    {
      owner[t] in handles && (t != owner[t].task ==> t.cancelled)
    }

    ghost predicate Valid()
      reads this, owner.Keys, owner.Values, handles, (set h | h in handles :: h.task)
    {
      && queue <= owner.Keys && keys.Keys == queue
      && (forall t :: t in queue ==> keys[t] == t.dueTime)
      && (forall t :: t in owner ==> TaskOk(t))
      && (forall h :: h in handles ==> HandleOk(h))
    }

    /** In place of h's task, now cancelled, the scheduler has the new task t with the same flag
        and the calls that are left; nothing else moved. */
    twostate predicate Replaced(h: ScheduledTask, new t: Task)
      reads this, h, t, handles, owner.Keys
    {
      && old(Valid()) && h in old(handles) && t !in old(owner)
      && handles == old(handles) && queue == old(queue) + {t}
      && keys == old(keys)[t := t.dueTime] && owner == old(owner)[t := h]
      && h.task == t && h.past == old(h.past + h.task.runs) && t.runs == 0
      && t.maxCalls == old(h.task.maxCalls) && t.cancelled == old(h.task.cancelled)
      && old(h.task).cancelled
      && (forall u :: u in old(owner) ==> u.dueTime == old(u.dueTime))
      && (forall u :: u in old(owner) && u != old(h.task) ==> unchanged(u))
      && (forall g :: g in old(handles) && g != h ==> unchanged(g))
    }

    /** A new handle with a new task beside all the old ones. */
    twostate predicate Added(new h: ScheduledTask, new t: Task)
      reads this, h, t, handles, owner.Keys
    {
      && old(Valid()) && h !in old(handles) && t !in old(owner)
      && handles == old(handles) + {h} && queue == old(queue) + {t}
      && keys == old(keys)[t := t.dueTime] && owner == old(owner)[t := h]
      && h.scheduler == this && h.task == t && h.past == t.runs == 0 && h.limit == t.maxCalls && !t.cancelled
      && (forall u :: u in old(owner) ==> unchanged(u))
      && (forall g :: g in old(handles) ==> unchanged(g))
    }

    twostate lemma AddedValid(new h: ScheduledTask, new t: Task)
      requires Added(h, t)
      ensures Valid()
    {
      forall u | u in owner
        ensures TaskOk(u)
      {
        assert u != t ==> old(TaskOk(u));
      }
      forall g | g in handles
        ensures HandleOk(g)
      {
        assert g != h ==> old(HandleOk(g));
      }
    }

    twostate lemma ReplacedTasks(h: ScheduledTask, new t: Task)
      requires Replaced(h, t)
      ensures forall u :: u in owner ==> TaskOk(u)
    {
      forall u | u in owner
        ensures TaskOk(u)
      {
        if u != t {
          assert old(TaskOk(u));
        }
      }
    }

    twostate lemma ReplacedHandles(h: ScheduledTask, new t: Task)
      requires Replaced(h, t)
      ensures forall g :: g in handles ==> HandleOk(g)
    {
      assert old(HandleOk(h));
      forall g | g in handles
        ensures HandleOk(g)
      {
        assert old(HandleOk(g));
      }
    }

    twostate lemma ReplacedValid(h: ScheduledTask, new t: Task)
      requires Replaced(h, t)
      ensures Valid()
    {
      ReplacedTasks(h, t);
      ReplacedHandles(h, t);
    }

    /** The queued tasks of a handle that are not cancelled. */
    ghost function Live(h: ScheduledTask): set<Task>
      reads this, queue
    {
      set t | t in queue && t in owner && owner[t] == h && !t.cancelled
    }

    /** One live timer per handle: an uncancelled handle has exactly one uncancelled queued task,
        its current one, and a cancelled handle has none. */
    lemma OneLiveTask(h: ScheduledTask)
      requires Valid() && h in handles
      ensures Live(h) == if h.task.cancelled then {} else {h.task}
    {
      assert HandleOk(h);
      forall t | t in Live(h)
        ensures t == h.task
      {
        assert TaskOk(t);
      }
    }

    /** No two handles share a task, so what is done to one leaves the other alone. */
    lemma OwnTasks(g: ScheduledTask, h: ScheduledTask)
      requires Valid() && g in handles && h in handles
      ensures g.task == h.task <==> g == h
    {
      assert HandleOk(g) && HandleOk(h);
    }

    /** A limited handle never exceeds its limit, however often its task was replaced, and once the
        limit is used up no task of it is live. */
    lemma CallLimit(h: ScheduledTask)
      requires Valid() && h in handles && h.limit > 0
      ensures h.Runs() <= h.limit
      ensures h.Runs() == h.limit ==> Live(h) == {}
    {
      assert HandleOk(h);
      OneLiveTask(h);
    }

    constructor ()
      ensures Valid() && queue == {} && handles == {} && owner == map[] && running
    {
      queue, keys, handles, owner := {}, map[], {}, map[];
      running := true;
    }

    /** What destruction does first: no pass starts any more. */
    method Stop()
      requires Valid()
      modifies this`running
      ensures Valid() && !running
    {
      running := false;
    }

    method Push(t: Task)
      modifies this`queue, this`keys
      ensures queue == old(queue) + {t} && keys == old(keys)[t := t.dueTime]
    {
      queue, keys := queue + {t}, keys[t := t.dueTime];
    }

    method RunAfter(env: Environment, job: Job, maxCalls: int) returns (t: Task)
      modifies this`queue, this`keys, env`now, env`supplied
      ensures fresh(t) && t.job == job && t.maxCalls == maxCalls && !t.cancelled && !t.paused && t.runs == 0
      ensures t.dueTime == env.now + env.supplied && env.supplied > 0 && old(env.now) <= env.now
      ensures queue == old(queue) + {t} && keys == old(keys)[t := t.dueTime]
    {
      var now := env.Now();
      var interval := env.Interval(job);
      t := new Task(job, now + interval, maxCalls);
      Push(t);
    }

    method Schedule(env: Environment, job: Job, maxCalls: int) returns (h: ScheduledTask)
      requires Valid()
      modifies this, env`now, env`supplied
      ensures Valid() && fresh(h) && fresh(h.task) && handles == old(handles) + {h}
      ensures owner == old(owner)[h.task := h]
      ensures queue == old(queue) + {h.task} && h.limit == maxCalls && h.Runs() == 0
      ensures !h.task.cancelled && h.task.job == job && h.AsTimer() == Unset.Arm()
      ensures h.task.dueTime == env.now + env.supplied && env.supplied > 0 && old(env.now) <= env.now
    {
      hide Scheduler.HandleOk, Scheduler.TaskOk;
      var t := RunAfter(env, job, maxCalls);
      h := new ScheduledTask(this, t);
      handles, owner := handles + {h}, owner[t := h];
      AddedValid(h, t);
    }

    // ---- executing due tasks ----

    /** What a pass over the queue is about, as values. */
    ghost function View(): Snapshot
      reads this, owner.Keys
    {
      Snapshot(queue, map t | t in owner :: t.dueTime, map t | t in owner :: t.cancelled,
               map t | t in owner :: t.paused, map t | t in owner :: t.runs)
    }

    /** Calls and renews of one task, and what a callback may do to the flags of all. */
    twostate predicate Called(next: Task)
      reads this, owner.Keys, next
    {
      && owner == old(owner)
      && (forall t :: t in owner && old(t.cancelled) ==> t.cancelled)
      && (old(next.cancelled || next.paused) ==>
            forall t :: t in owner ==> t.cancelled == old(t.cancelled) && t.paused == old(t.paused))
      && (forall t :: t in owner && t != next ==>
            t.dueTime == old(t.dueTime) && t.runs == old(t.runs) && t.maxCalls == old(t.maxCalls))
      && (if old(next.cancelled || next.paused) then next.runs == old(next.runs) && next.maxCalls == old(next.maxCalls)
          else && next.runs == old(next.runs) + 1
               && next.maxCalls == (if old(next.maxCalls) > 0 then old(next.maxCalls) - 1 else old(next.maxCalls))
               && (old(next.maxCalls) == 1 ==> next.cancelled))
    }

    /** Tasks without a limit are neither cancelled nor limited. */
    twostate predicate Spared()
      reads this, owner.Keys
    {
      && owner == old(owner)
      && forall t :: t in owner && old(t.maxCalls) <= 0 ==>
           t.cancelled == old(t.cancelled) && t.maxCalls == old(t.maxCalls)
    }

    /** What one turn of the loop does around the task it pops. */
    twostate predicate Ran(next: Task)
      reads this, handles, owner.Keys, owner.Values, next
    {
      && old(Valid()) && next in old(queue) && handles == old(handles)
      && queue == (if old(next.cancelled) then old(queue) - {next} else old(queue))
      && keys == (if old(next.cancelled) then old(keys) - {next} else old(keys)[next := next.dueTime])
      && Called(next)
      && (forall h :: h in handles ==> unchanged(h))
    }

    twostate lemma RanTasks(next: Task)
      requires Ran(next)
      ensures forall t :: t in owner ==> TaskOk(t)
    {
      forall t | t in owner
        ensures TaskOk(t)
      {
        assert old(TaskOk(t)) && old(HandleOk(owner[t]));
      }
    }

    twostate lemma RanHandles(next: Task)
      requires Ran(next)
      ensures forall h :: h in handles ==> HandleOk(h)
    {
      forall h | h in handles
        ensures HandleOk(h)
      {
        assert old(HandleOk(h));
      }
    }

    twostate lemma RanValid(next: Task)
      requires Ran(next)
      requires old(next.cancelled) ==> next.dueTime == old(next.dueTime)
      ensures Valid()
    {
      RanTasks(next);
      RanHandles(next);
    }

    twostate lemma RanSilently(next: Task)
      requires Called(next) && old(next.cancelled || next.paused)
      ensures View().cancelled == old(View()).cancelled && View().paused == old(View()).paused
    {
      assert owner == old(owner);
    }

    twostate lemma RanView(next: Task, new now: nat, new p: Popped)
      requires Called(next) && next in old(queue) && old(queue) <= owner.Keys
      requires queue == if old(next.cancelled) then old(queue) - {next} else old(queue)
      requires p == Popped(next, old(next.cancelled), old(next.paused))
      requires old(next.cancelled) ==> next.dueTime == old(next.dueTime)
      requires !old(next.cancelled) ==> next.dueTime > now
      ensures Turn(old(View()), now, p, View())
    {
      if old(next.cancelled || next.paused) {
        RanSilently(next);
      }
      assert next in owner && owner == old(owner);
    }

    twostate lemma RanTurn(next: Task, new now: nat, new p: Popped)
      requires Ran(next) && p == Popped(next, old(next.cancelled), old(next.paused))
      requires old(next.cancelled) ==> next.dueTime == old(next.dueTime)
      requires !old(next.cancelled) ==> next.dueTime > now
      ensures Valid()
      ensures Turn(old(View()), now, p, View())
    {
      RanValid(next);
      hide Scheduler.HandleOk, Scheduler.TaskOk, Turn, Scheduler.View;
      RanView(next, now, p);
    }

    /** A task outside the queue is called, renewed and pushed again. */
    method RunAgain(env: Environment, next: Task)
      requires next in owner && !next.cancelled
      modifies this`queue, this`keys, owner.Keys, env
      ensures Called(next) && (!env.cancels ==> Spared())
      ensures next.dueTime == env.now + env.supplied && env.supplied > 0 && old(env.now) <= env.now
      ensures env.made == old(env.made) + if old(next.paused) then [] else [next.job]
      ensures queue == old(queue) + {next} && keys == old(keys)[next := next.dueTime]
    {
      next.Call(env, owner.Keys);
      next.Renew(env);
      Push(next);
    }

    method TakeTurn(env: Environment, next: Task)
      requires Valid() && next in queue
      modifies this`queue, this`keys, owner.Keys, env
      ensures Ran(next) && (!env.cancels ==> Spared()) && old(env.now) <= env.now
      ensures if old(next.cancelled) then next.dueTime == old(next.dueTime)
              else next.dueTime == env.now + env.supplied && env.supplied > 0
      ensures env.made == old(env.made) + if old(next.cancelled || next.paused) then [] else [next.job]
    {
      hide Scheduler.HandleOk, Scheduler.TaskOk, Scheduler.Valid;
      QueuedIsOwned(next);
      queue, keys := queue - {next}, keys - {next};
      if !next.cancelled {
        RunAgain(env, next);
        assert queue == old(queue) && keys == old(keys)[next := next.dueTime];
        assert Called(next);
      } else {
        assert Called(next);
      }
      hide Scheduler.Called;
    }

    lemma QueuedIsOwned(t: Task)
      requires Valid() && t in queue
      ensures t in owner
    {
    }

    /** One turn of the loop: the task leaves the queue and, unless it was cancelled, is called,
        renewed and pushed again. Its key changes only while it is out of the queue. */
    method PopAndRun(env: Environment, next: Task, ghost now: nat) returns (ghost p: Popped)
      requires Valid() && next in queue && now <= env.now
      modifies this`queue, this`keys, owner.Keys, env
      ensures Valid() && (!env.cancels ==> Spared()) && now <= env.now
      ensures p == Popped(next, old(next.cancelled), old(next.paused))
      ensures Turn(old(View()), now, p, View())
      ensures !p.cancelled ==> next.dueTime == env.now + env.supplied && env.supplied > 0
      ensures env.made == old(env.made) + CallsOf([p])
    {
      hide Scheduler.Ran, Scheduler.Valid, Scheduler.Spared, Turn;
      p := Popped(next, next.cancelled, next.paused);
      TakeTurn(env, next);
      RanTurn(next, now, p);
    }

    lemma {:induction false} Earliest(s: set<Task>) returns (t: Task)
      requires s != {}
      ensures t in s && forall u :: u in s ==> t.dueTime <= u.dueTime
      decreases |s|
    {
      t :| t in s;
      if s != {t} {
        assert s - {t} != {};
        var r := Earliest(s - {t});
        if r.dueTime < t.dueTime {
          t := r;
        }
      }
    }

    method Top(ghost now: nat) returns (t: Task)
      requires HasDue(now)
      ensures t in queue && forall u :: u in queue ==> t.dueTime <= u.dueTime
    {
      ghost var first := Earliest(queue);
      t :| t in queue && forall u :: u in queue ==> t.dueTime <= u.dueTime;
    }

    /** The top of the queue is due. */
    predicate HasDue(now: nat)
      reads this, queue
    {
      exists t :: t in queue && t.dueTime <= now
    }

    lemma ViewOk(now: nat)
      requires Valid()
      ensures View().Ok() && (HasDue(now) <==> Due(View(), now) != {})
    {
      if HasDue(now) {
        var t :| t in queue && t.dueTime <= now;
        assert t in Due(View(), now);
      }
    }

    lemma TopInView(top: Task, now: nat)
      requires Valid() && HasDue(now) && top in queue && forall u :: u in queue ==> top.dueTime <= u.dueTime
      ensures top in View().due && View().due[top] <= now
      ensures forall u :: u in View().queue ==> u in View().due && View().due[top] <= View().due[u]
    {
    }

    /** One pass over the due tasks, unless the scheduler was stopped. It ends with none due at the
        sampled time. */
    method ExecuteDueTasks(env: Environment) returns (now: nat, ghost popped: seq<Popped>)
      requires Valid()
      modifies this`queue, this`keys, owner.Keys, env
      ensures Valid() && old(env.now) <= now
      ensures Executed(old(View()), now, popped, View())
      ensures if running then Due(View(), now) == {} else popped == [] && View() == old(View())
      ensures old(Quiet(View())) ==> Quiet(View()) && Silent(old(View()), View())
      ensures env.made == old(env.made) + CallsOf(popped)
      ensures !env.cancels ==> Spared()
    {
      hide Scheduler.HandleOk, Scheduler.TaskOk, Scheduler.Valid, Scheduler.HasDue, Scheduler.View;
      hide Quiet, Silent, Executed, Turn, Due, CallsOf;
      popped := [];
      SilentAtFirst(View());
      assert CallsOf(popped) == [] by { NoCalls(); }
      if !running {
        now := env.now;
        ViewOk(now);
        PassBegins(View(), now);
        return;
      }
      now := env.Now();
      ViewOk(now);
      PassBegins(View(), now);
      while HasDue(now)
        invariant Valid() && old(env.now) <= now <= env.now
        invariant Executed(old(View()), now, popped, View())
        invariant HasDue(now) <==> Due(View(), now) != {}
        invariant old(Quiet(View())) ==> Quiet(View()) && Silent(old(View()), View())
        invariant env.made == old(env.made) + CallsOf(popped)
        invariant !env.cancels ==> Spared()
        decreases |Due(View(), now)|
      {
        var next := Top(now);
        TopInView(next, now);
        ghost var before := View();
        ghost var p := PopAndRun(env, next, now);
        TurnExtends(old(View()), now, popped, before, p, View());
        StaysQuiet(old(View()), before, now, p, View());
        CallsAdd(popped, p);
        popped := popped + [p];
        ViewOk(now);
      }
    }
  }

  // ---- a pass, on values ----

  datatype Popped = Popped(task: Task, cancelled: bool, paused: bool)

  datatype Snapshot = Snapshot(
    queue: set<Task>,
    due: map<Task, nat>,
    cancelled: map<Task, bool>,
    paused: map<Task, bool>,
    runs: map<Task, nat>)
  {
    ghost predicate Ok() {
      queue <= due.Keys && due.Keys == cancelled.Keys == paused.Keys == runs.Keys
    }
  }

  ghost function Due(s: Snapshot, now: nat): set<Task> {
    set t | t in s.queue && t in s.due && s.due[t] <= now
  }

  ghost function TasksOf(popped: seq<Popped>): set<Task> {
    set p | p in popped :: p.task
  }

  /** The callbacks that a pass makes: of the tasks neither cancelled nor paused when popped, in order. */
  ghost function CallsOf(popped: seq<Popped>): seq<Job> {
    if popped == [] then []
    else
      var n := |popped| - 1;
      CallsOf(popped[..n]) + if popped[n].cancelled || popped[n].paused then [] else [popped[n].task.job]
  }

  lemma CallsAdd(popped: seq<Popped>, p: Popped)
    ensures CallsOf(popped + [p]) == CallsOf(popped) + CallsOf([p])
  {
    assert (popped + [p])[..|popped|] == popped && [p][..0] == [];
  }

  lemma NoCalls()
    ensures CallsOf([]) == []
  {
  }

  /** How a popped task was dealt with: dropped if cancelled, otherwise queued again for later;
      called exactly if it was neither cancelled nor paused when popped. */
  ghost predicate Dealt(a: Snapshot, now: nat, p: Popped, b: Snapshot)
    requires a.Ok() && b.Ok() && a.due.Keys == b.due.Keys && p.task in a.due
  {
    && (p.task in b.queue <==> !p.cancelled)
    && (p.task in b.queue ==> b.due[p.task] > now)
    && (a.cancelled[p.task] ==> p.cancelled) && (p.cancelled ==> b.cancelled[p.task])
    && b.runs[p.task] == a.runs[p.task] + if p.cancelled || p.paused then 0 else 1
  }

  ghost predicate SameTasks(a: Snapshot, b: Snapshot) {
    a.Ok() && b.Ok() && a.due.Keys == b.due.Keys && b.queue <= a.queue
    && forall t :: t in a.due && a.cancelled[t] ==> b.cancelled[t]
  }

  ghost predicate AllDealt(a: Snapshot, now: nat, popped: seq<Popped>, b: Snapshot)
    requires SameTasks(a, b)
  {
    forall p :: p in popped ==> p.task in a.queue && a.due[p.task] <= now && Dealt(a, now, p, b)
  }

  /** Popped once each, earliest first. */
  ghost predicate InOrder(a: Snapshot, popped: seq<Popped>)
    requires forall p :: p in popped ==> p.task in a.due
  {
    forall i, j :: 0 <= i < j < |popped| ==>
      popped[i].task != popped[j].task && a.due[popped[i].task] <= a.due[popped[j].task]
  }

  /** A task not popped keeps its place, its key and its call count. */
  ghost predicate RestKept(a: Snapshot, popped: seq<Popped>, b: Snapshot)
    requires SameTasks(a, b)
  {
    forall t :: t in a.queue && t !in TasksOf(popped) ==>
      t in b.queue && b.due[t] == a.due[t] && b.runs[t] == a.runs[t]
  }

  /** Nothing left behind is due before anything popped. */
  ghost predicate EarliestFirst(a: Snapshot, popped: seq<Popped>)
    requires a.Ok() && forall p :: p in popped ==> p.task in a.due
  {
    forall p, t :: p in popped && t in a.queue && t !in TasksOf(popped) ==> a.due[p.task] <= a.due[t]
  }

  /** The pass from a to b. */
  ghost predicate Executed(a: Snapshot, now: nat, popped: seq<Popped>, b: Snapshot) {
    && SameTasks(a, b) && AllDealt(a, now, popped, b)
    && InOrder(a, popped) && RestKept(a, popped, b) && EarliestFirst(a, popped)
  }

  /** One turn of the loop on values. */
  ghost predicate Turn(a: Snapshot, now: nat, p: Popped, b: Snapshot) {
    && a.Ok() && b.Ok() && a.due.Keys == b.due.Keys && p.task in a.queue
    && p.cancelled == a.cancelled[p.task] && p.paused == a.paused[p.task]
    && (p.cancelled || p.paused ==> b.cancelled == a.cancelled && b.paused == a.paused)
    && b.queue == (if p.cancelled then a.queue - {p.task} else a.queue)
    && Dealt(a, now, p, b)
    && (forall t :: t in a.due && t != p.task ==> b.due[t] == a.due[t] && b.runs[t] == a.runs[t])
    && (forall t :: t in a.due && a.cancelled[t] ==> b.cancelled[t])
  }

  /** Every task that waits is cancelled or paused. */
  ghost predicate Quiet(s: Snapshot) {
    s.Ok() && forall t :: t in s.queue ==> s.cancelled[t] || s.paused[t]
  }

  /** From a to b no callback was made and no flag changed. */
  ghost predicate Silent(a: Snapshot, b: Snapshot) {
    b.runs == a.runs && b.cancelled == a.cancelled && b.paused == a.paused
  }

  /** The turn of a paused or cancelled task makes no callback and changes no flag, and a paused one
      stays queued. */
  lemma PausedMakesNoCall(a: Snapshot, now: nat, p: Popped, b: Snapshot)
    requires Turn(a, now, p, b) && (p.paused || p.cancelled)
    ensures Silent(a, b) && b.queue == if p.cancelled then a.queue - {p.task} else a.queue
  {
    forall t | t in a.due
      ensures b.runs[t] == a.runs[t]
    {
    }
  }

  /** A turn over a quiet queue makes no callback, changes no flag and leaves the queue quiet. */
  lemma QuietTurn(a: Snapshot, now: nat, p: Popped, b: Snapshot)
    requires Quiet(a) && Turn(a, now, p, b)
    ensures Quiet(b) && Silent(a, b)
  {
    PausedMakesNoCall(a, now, p, b);
  }

  lemma StaysQuiet(a: Snapshot, b: Snapshot, now: nat, p: Popped, c: Snapshot)
    requires Turn(b, now, p, c)
    ensures Quiet(b) && Silent(a, b) ==> Quiet(c) && Silent(a, c)
  {
    hide Turn, Quiet;
    if Quiet(b) {
      QuietTurn(b, now, p, c);
    }
  }

  /** A silent pass made no call. */
  lemma {:induction false} SilentPass(a: Snapshot, now: nat, popped: seq<Popped>, b: Snapshot)
    requires SameTasks(a, b) && AllDealt(a, now, popped, b) && Silent(a, b)
    ensures CallsOf(popped) == []
    decreases |popped|
  {
    if popped != [] {
      var n := |popped| - 1;
      assert popped[n] in popped;
      assert forall p :: p in popped[..n] ==> p in popped;
      SilentPass(a, now, popped[..n], b);
    }
  }

  lemma SilentAtFirst(a: Snapshot)
    ensures Silent(a, a)
  {
  }

  lemma PassBegins(a: Snapshot, now: nat)
    requires a.Ok()
    ensures Executed(a, now, [], a)
  {
  }

  lemma DealtStays(a: Snapshot, now: nat, q: Popped, b: Snapshot, p: Popped, c: Snapshot)
    requires a.Ok() && b.Ok() && a.due.Keys == b.due.Keys && q.task in a.due && Dealt(a, now, q, b)
    requires Turn(b, now, p, c) && q.task != p.task
    ensures Dealt(a, now, q, c)
  {
  }

  lemma TurnIsNew(a: Snapshot, now: nat, popped: seq<Popped>, b: Snapshot, p: Popped, c: Snapshot)
    requires Executed(a, now, popped, b) && Turn(b, now, p, c)
    requires b.due[p.task] <= now && forall t :: t in b.queue ==> b.due[p.task] <= b.due[t]
    ensures SameTasks(a, c) && p.task !in TasksOf(popped) && p.task in a.queue && a.due[p.task] <= now
    ensures Dealt(a, now, p, c)
    ensures forall t :: t in a.queue && t !in TasksOf(popped) ==> a.due[p.task] <= a.due[t]
  {
    assert forall q :: q in popped && q.task == p.task ==> !Dealt(a, now, q, b);
  }

  lemma DealtExtends(a: Snapshot, now: nat, popped: seq<Popped>, b: Snapshot, p: Popped, c: Snapshot)
    requires SameTasks(a, b) && SameTasks(a, c) && AllDealt(a, now, popped, b) && Turn(b, now, p, c)
    requires p.task !in TasksOf(popped) && a.due[p.task] <= now && Dealt(a, now, p, c)
    ensures AllDealt(a, now, popped + [p], c)
  {
    forall q | q in popped + [p]
      ensures q.task in a.queue && a.due[q.task] <= now && Dealt(a, now, q, c)
    {
      if q in popped {
        assert q.task in TasksOf(popped);
        DealtStays(a, now, q, b, p, c);
      }
    }
  }

  lemma OrderExtends(a: Snapshot, popped: seq<Popped>, p: Popped)
    requires a.Ok() && p.task in a.queue && p.task !in TasksOf(popped)
    requires forall q :: q in popped ==> q.task in a.due
    requires InOrder(a, popped) && EarliestFirst(a, popped)
    requires forall t :: t in a.queue && t !in TasksOf(popped) ==> a.due[p.task] <= a.due[t]
    ensures InOrder(a, popped + [p]) && EarliestFirst(a, popped + [p])
  {
    assert TasksOf(popped + [p]) == TasksOf(popped) + {p.task};
    forall q | q in popped
      ensures q.task != p.task && a.due[q.task] <= a.due[p.task]
    {
      assert q.task in TasksOf(popped);
    }
    LastInOrder(a, popped, p);
  }

  lemma LastInOrder(a: Snapshot, popped: seq<Popped>, p: Popped)
    requires p.task in a.due && forall q :: q in popped ==> q.task in a.due
    requires InOrder(a, popped)
    requires forall q :: q in popped ==> q.task != p.task && a.due[q.task] <= a.due[p.task]
    ensures InOrder(a, popped + [p])
  {
    var all := popped + [p];
    forall i, j | 0 <= i < j < |all|
      ensures all[i].task != all[j].task && a.due[all[i].task] <= a.due[all[j].task]
    {
      assert all[i] == popped[i] && popped[i] in popped;
    }
  }

  lemma RestExtends(a: Snapshot, popped: seq<Popped>, b: Snapshot, p: Popped, c: Snapshot, now: nat)
    requires SameTasks(a, b) && SameTasks(a, c) && RestKept(a, popped, b) && Turn(b, now, p, c)
    ensures RestKept(a, popped + [p], c)
  {
    assert TasksOf(popped + [p]) == TasksOf(popped) + {p.task};
  }

  lemma DueShrinks(b: Snapshot, now: nat, p: Popped, c: Snapshot)
    requires Turn(b, now, p, c) && b.due[p.task] <= now
    ensures |Due(c, now)| < |Due(b, now)|
  {
    assert Due(c, now) == Due(b, now) - {p.task};
  }

  /** A turn that pops the earliest due task extends the pass and leaves fewer tasks due. */
  lemma TurnExtends(a: Snapshot, now: nat, popped: seq<Popped>, b: Snapshot, p: Popped, c: Snapshot)
    requires Executed(a, now, popped, b) && Turn(b, now, p, c)
    requires b.due[p.task] <= now && forall t :: t in b.queue ==> b.due[p.task] <= b.due[t]
    ensures Executed(a, now, popped + [p], c)
    ensures |Due(c, now)| < |Due(b, now)|
  {
    TurnIsNew(a, now, popped, b, p, c);
    DueShrinks(b, now, p, c);
    PoppedAreTasks(a, now, popped, b);
    hide Turn, AllDealt, InOrder, RestKept, EarliestFirst, Dealt, TasksOf, Due;
    DealtExtends(a, now, popped, b, p, c);
    RestExtends(a, popped, b, p, c, now);
    OrderExtends(a, popped, p);
  }

  lemma PoppedAreTasks(a: Snapshot, now: nat, popped: seq<Popped>, b: Snapshot)
    requires SameTasks(a, b) && AllDealt(a, now, popped, b)
    ensures forall q :: q in popped ==> q.task in a.due
  {
  }

  /** The due tasks are exactly the popped ones once none is left; a task that is still live at
      the end of the pass was kept, and one cancelled before it was dropped without a call. */
  lemma PassComplete(a: Snapshot, now: nat, popped: seq<Popped>, b: Snapshot)
    requires Executed(a, now, popped, b) && Due(b, now) == {}
    ensures TasksOf(popped) == Due(a, now) && |popped| == |Due(a, now)|
    ensures forall t :: t in a.queue && !b.cancelled[t] ==> t in b.queue
    ensures forall t :: t in Due(a, now) && a.cancelled[t] ==> t !in b.queue && b.runs[t] == a.runs[t]
    ensures forall t :: t in a.queue ==> a.runs[t] <= b.runs[t] <= a.runs[t] + 1
  {
    DistinctTasks(popped);
    forall t | t in a.queue
      ensures a.due[t] <= now <==> t in TasksOf(popped)
    {
      if t !in TasksOf(popped) {
        assert t !in Due(b, now);
      }
    }
    forall t | t in TasksOf(popped)
      ensures exists p :: p in popped && p.task == t
    {
    }
  }

  lemma {:induction false} DistinctTasks(popped: seq<Popped>)
    requires forall i, j :: 0 <= i < j < |popped| ==> popped[i].task != popped[j].task
    ensures |TasksOf(popped)| == |popped|
  {
    if popped != [] {
      var n := |popped| - 1;
      DistinctTasks(popped[..n]);
      assert TasksOf(popped) == TasksOf(popped[..n]) + {popped[n].task};
      assert popped[n].task !in TasksOf(popped[..n]);
    }
  }
}
