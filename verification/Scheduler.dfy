/** The scheduler's classes. Each method is one atomic step of the original: a critical section, a
    half of doJob, or a call of another thread, and is proved to be the model's step. */
module Scheduler {
  import opened Common
  import opened M = SchedulerModel

  // What single events do, without the cases of the others.
  lemma PeekStep(s: State, now: int)
    requires Enabled(s, Peek(now)) && IntervalsPositive(s)
    ensures Step(s, Peek(now)) ==
      if s.queue == multiset{} then s.(loop := Top, clock := now)
      else if TopOf(s.queue).nextRun > now then s.(loop := Waiting(TopOf(s.queue)), clock := now)
      else s.(queue := Drop(s.queue, TopOf(s.queue)), loop := Popped(TopOf(s.queue)), clock := now)
  {
  }

  lemma WakeStep(s: State, now: int)
    requires Enabled(s, Wake(now)) && IntervalsPositive(s)
    ensures s.loop.Waiting? && Step(s, Wake(now)) == WakeUp(s).(clock := now)
  {
  }

  lemma LookupStep(s: State)
    requires Enabled(s, Lookup) && IntervalsPositive(s)
    ensures s.loop.Popped? && Step(s, Lookup) == LookupTask(s)
  {
  }

  lemma InsertStep(s: State, h: Handle, interval: int)
    requires Inv(s) && Enabled(s, Insert(h, interval))
    ensures Step(s, Insert(h, interval)) == InsertTask(s, h, interval) && !s.loop.Holds(h)
  {
  }

  // The steps around the job, from what they do to the task of the entry that is held.
  lemma BeginIs(s: State, values: map<Handle, M.Task>, now: int)
    requires Enabled(s, Begin(now)) && IntervalsPositive(s) && values.Keys == s.tasks.Keys
    requires forall g | g in s.tasks && g != s.loop.tid.hndl :: values[g] == s.tasks[g]
    requires s.loop.tid.hndl in s.tasks ==> values[s.loop.tid.hndl] == BeginJob(s.tasks[s.loop.tid.hndl], now)
    ensures Step(s, Begin(now)) == s.(tasks := values, clock := now,
      loop := if s.loop.tid.hndl in s.tasks then Executing(s.loop.tid) else Done(s.loop.tid))
  {
    hide BeginJob, Step, Enabled;
    Steps(s, Begin(now));
    assert s.loop.tid.hndl !in s.tasks ==> values == s.tasks;
  }

  lemma EndIs(s: State, values: map<Handle, M.Task>, now: int)
    requires Enabled(s, End(now)) && IntervalsPositive(s) && values.Keys == s.tasks.Keys
    requires forall g | g in s.tasks && g != s.loop.tid.hndl :: values[g] == s.tasks[g]
    requires s.loop.tid.hndl in s.tasks ==> values[s.loop.tid.hndl] == EndJob(s.tasks[s.loop.tid.hndl], now)
    ensures Step(s, End(now)) == s.(tasks := values, clock := now, loop := Done(s.loop.tid))
  {
    hide EndJob, Step, Enabled;
    Steps(s, End(now));
    assert s.loop.tid.hndl !in s.tasks ==> values == s.tasks;
  }

  class PeriodicTask {
    var tid: TaskIdentifier
    var interval: int
    var startTime: int
    var execCount: int
    var cancelled: bool

    ghost function Value(): M.Task
      reads this
    {
      M.Task(tid, interval, startTime, execCount)
    }

    constructor (tid: TaskIdentifier, inv: int)
      requires tid.nextRun == TIME_MIN
      ensures Value() == NewTask(tid.hndl, inv) && !cancelled
    {
      this.tid := tid;
      interval := if inv > 0 then inv else SECOND;
      startTime := 0;
      execCount := 0;
      cancelled := false;
    }

    /** doJob up to the call of the job; a cancelled task does not get there. */
    method BeginJob(now: int) returns (called: bool)
      modifies this
      ensures called == !old(cancelled) && cancelled == old(cancelled)
      ensures Value() == if called then M.BeginJob(old(Value()), now) else old(Value())
    {
      if cancelled {
        return false;
      }
      if execCount == 0 {
        startTime := now;
      }
      called := true;
    }

    /** doJob from the return of the job on. */
    method EndJob(now: int)
      requires interval > 0
      modifies this
      ensures cancelled == old(cancelled)
      ensures Value() == M.EndJob(old(Value()), now)
    {
      execCount := execCount + 1;
      var nextIdeal := startTime + execCount * interval;
      var timeGap := now - nextIdeal;
      if timeGap > interval {
        execCount := execCount + (timeGap / interval + 1);
      }
      tid := tid.(nextRun := startTime + execCount * interval);
    }
  }

  // The counter that all schedulers take their handles from.
  class HandleCounter {
    var count: Handle

    method FetchAdd() returns (h: Handle)
      modifies this
      ensures h == old(count) && count == h + 1
    {
      h := count;
      count := count + 1;
    }
  }

  class TScheduler {
    const globHndlCount: HandleCounter
    ghost var nextHandle: Handle  // above all handles this scheduler has taken
    var tasks: map<Handle, PeriodicTask>
    var taskQueue: Queue
    var loop: Loop
    var taskToRun: PeriodicTask?
    var joinable: bool
    var stopRequested: bool
    ghost var reserved: set<Handle>  // taken by threads inside addTask
    ghost var clock: int

    ghost function TaskValues(): (values: map<Handle, M.Task>)
      reads `tasks, tasks.Values
      ensures values.Keys == tasks.Keys
    {
      map h | h in tasks :: tasks[h].Value()
    }

    ghost function Model(): State
      reads this, tasks.Values
    {
      State(nextHandle, reserved, TaskValues(), taskQueue, loop, joinable, stopRequested, clock)
    }

    ghost predicate TasksValid()
      reads `tasks, tasks.Values
    {
      forall h | h in tasks :: tasks[h].tid.hndl == h && !tasks[h].cancelled
    }

    // A task is cancelled exactly when it is no longer in the map.
    ghost predicate Valid()
      reads this, tasks.Values, taskToRun
    {
      && TasksValid()
      && (loop.Found? || loop.Executing? ==>
            && taskToRun != null && taskToRun.tid.hndl == loop.tid.hndl && taskToRun.interval > 0
            && taskToRun.cancelled == (loop.tid.hndl !in tasks)
            && (loop.tid.hndl in tasks ==> tasks[loop.tid.hndl] == taskToRun))
    }

    // Handles taken here are behind the counter; it only grows, whoever takes from it.
    ghost predicate IsBehindCounter()
      reads `nextHandle, globHndlCount
    {
      nextHandle <= globHndlCount.count
    }

    constructor (counter: HandleCounter)
      ensures Valid() && Initial(Model()) && globHndlCount == counter && IsBehindCounter()
    {
      globHndlCount := counter;
      nextHandle, tasks, taskQueue := 0, map[], multiset{};
      loop, taskToRun, joinable, stopRequested := Exited, null, false, false;
      reserved, clock := {}, TIME_MIN;
    }

    // -------------------------------------------------------------------------------------
    // addTask and removeTask

    /** Takes a handle that no scheduler has had before; those that others have taken since this one's
        last are skipped. */
    method TakeHandle() returns (h: Handle)
      requires Valid() && Inv(Model()) && IsBehindCounter()
      modifies globHndlCount, `nextHandle, `reserved
      ensures Valid() && Model() == Step(old(Model()), Reserve(old(globHndlCount.count - nextHandle)))
      ensures h == old(globHndlCount.count) && globHndlCount.count == h + 1 && h in reserved && IsBehindCounter()
    {
      hide Inv, TaskValues, TasksValid, Step;
      assert Enabled(Model(), Reserve(globHndlCount.count - nextHandle));
      hide Enabled;
      Steps(Model(), Reserve(globHndlCount.count - nextHandle));
      h := globHndlCount.FetchAdd();
      nextHandle := h + 1;
      reserved := reserved + {h};
    }

    /** The critical section of addTask. */
    method InsertTask(h: Handle, inv: int) returns (inserted: bool)
      requires Valid() && Inv(Model()) && Enabled(Model(), Insert(h, inv))
      modifies `tasks, `taskQueue, `reserved
      ensures Valid() && Model() == Step(old(Model()), Insert(h, inv))
      ensures inserted == (h !in old(tasks))
    {
      hide Inv, Enabled, Step, Put, IntervalsPositive, TIME_MIN, TasksValid, TaskValues;
      InsertStep(Model(), h, inv);
      inserted := h !in tasks;
      if inserted {
        FileTask(h, inv);
      } else {
        reserved := reserved - {h};
      }
    }

    // try_emplace and push for a handle that is not in the map.
    method FileTask(h: Handle, inv: int)
      requires Valid() && h !in tasks && !loop.Holds(h)
      modifies `tasks, `taskQueue, `reserved
      ensures Valid()
      ensures Model() == old(Model().(tasks := TaskValues()[h := NewTask(h, inv)], reserved := reserved - {h},
                                      queue := Put(taskQueue, TaskIdentifier(h, TIME_MIN))))
    {
      hide Put;
      var task := new PeriodicTask(TaskIdentifier(h, TIME_MIN), inv);
      reserved := reserved - {h};
      tasks := tasks[h := task];
      taskQueue := Put(taskQueue, task.tid);
      assert TaskValues() == old(TaskValues())[h := task.Value()];
    }

    method RemoveTask(h: Handle) returns (found: bool)
      requires Valid() && Inv(Model())
      modifies `tasks, tasks.Values
      ensures Valid() && Model() == Step(old(Model()), Remove(h))
      ensures found == (h in old(tasks)) && (found ==> old(tasks)[h].cancelled)
    {
      hide Inv;
      found := h in tasks;
      if found {
        tasks[h].cancelled := true;
        tasks := tasks - {h};
      }
    }

    // -------------------------------------------------------------------------------------
    // run, stopAsync and stop

    method Run()
      requires Valid() && Inv(Model())
      modifies `loop, `joinable, `stopRequested
      ensures Valid() && Model() == Step(old(Model()), M.Run)
    {
      hide Inv, TaskValues, WakesUp, TopOf, WakeUp, PeekTop, LookupTask, Take, Put, Drop;
      hide M.EndTask, M.BeginTask, M.RequeueTask;
      if joinable {
        return;
      }
      joinable, stopRequested, loop := true, false, Top;
    }

    method StopAsync()
      requires Valid() && Inv(Model())
      modifies `stopRequested
      ensures Valid() && Model() == Step(old(Model()), RequestStop)
    {
      hide Inv, TaskValues, WakesUp, TopOf, WakeUp, PeekTop, LookupTask, Take, Put, Drop;
      hide M.EndTask, M.BeginTask, M.RequeueTask;
      if joinable {
        stopRequested := true;
      }
    }

    /** The end of stop, once the thread has left its loop. */
    method JoinLoop()
      requires Valid() && Inv(Model()) && loop.Exited?
      modifies `joinable
      ensures Valid() && Model() == Step(old(Model()), Join)
    {
      hide Inv, TaskValues, WakesUp, TopOf, WakeUp, PeekTop, LookupTask, Take, Put, Drop;
      hide M.EndTask, M.BeginTask, M.RequeueTask;
      joinable := false;
    }

    // -------------------------------------------------------------------------------------
    // The event loop

    method CheckStop()
      requires Valid() && Inv(Model()) && Enabled(Model(), Check)
      modifies `loop
      ensures Valid() && Model() == Step(old(Model()), Check)
    {
      hide Inv, TaskValues, WakesUp, TopOf, WakeUp, PeekTop, LookupTask, Take, Put, Drop;
      hide M.EndTask, M.BeginTask, M.RequeueTask;
      loop := if stopRequested then Exited else Ready;
    }

    /** The end of the first critical section: pop the entry if it is the top. */
    method PopIfTop(nextTid: TaskIdentifier, now: int)
      requires Valid()
      modifies `loop, `taskQueue, `clock
      ensures Valid()
      ensures Model() == old(
        if taskQueue != multiset{} && TopOf(taskQueue).hndl == nextTid.hndl
        then Model().(queue := Drop(taskQueue, TopOf(taskQueue)), loop := Popped(nextTid), clock := now)
        else Model().(loop := Top, clock := now))
    {
      hide TopOf, IsTop, Before, Drop, TasksValid, TaskValues;
      loop, clock := Top, now;
      if taskQueue != multiset{} {
        var top := TopOf(taskQueue);
        if top.hndl == nextTid.hndl {
          taskQueue := Drop(taskQueue, top);
          loop := Popped(nextTid);
        }
      }
    }

    // A change of the loop alone.
    method MoveLoop(next: Loop, now: int)
      requires Valid() && (next.Executing? ==> loop.Found? && next.tid == loop.tid) && !next.Found?
      modifies `loop, `clock
      ensures Valid() && Model() == old(Model()).(loop := next, clock := now)
    {
      hide TaskValues, TasksValid;
      loop, clock := next, now;
    }

    /** The first critical section, until it has an entry or has to wait. */
    method PeekQueue(now: int)
      requires Valid() && Inv(Model()) && Enabled(Model(), Peek(now))
      modifies `loop, `taskQueue, `clock
      ensures Valid() && Model() == Step(old(Model()), Peek(now))
    {
      PeekStep(Model(), now);
      hide Inv, Enabled, Step, Valid, TaskValues, TopOf, IsTop, Before, IntervalsPositive, Drop;
      if taskQueue == multiset{} {
        MoveLoop(Top, now);
      } else {
        var nextTid := TopOf(taskQueue);
        if nextTid.nextRun > now {
          MoveLoop(Waiting(nextTid), now);
        } else {
          PopIfTop(nextTid, now);
        }
      }
    }

    /** The rest of it after a wait: take the entry if it is still the top. */
    method WakeFromWait(now: int)
      requires Valid() && Inv(Model()) && Enabled(Model(), Wake(now))
      modifies `loop, `taskQueue, `clock
      ensures Valid() && Model() == Step(old(Model()), Wake(now))
    {
      WakeStep(Model(), now);
      hide Inv, Enabled, Step, Valid, TaskValues, TopOf, IsTop, Before, IntervalsPositive, Drop;
      PopIfTop(loop.tid, now);
    }

    /** The second critical section. */
    method FindTask()
      requires Valid() && Inv(Model()) && Enabled(Model(), Lookup)
      modifies `loop, `taskToRun
      ensures Valid() && Model() == Step(old(Model()), Lookup)
    {
      hide Inv, Enabled, Step;
      LookupStep(Model());
      if loop.tid.hndl !in tasks {
        loop := Top;
        return;
      }
      taskToRun := tasks[loop.tid.hndl];
      assert Model().tasks[loop.tid.hndl].interval > 0;
      loop := Found(loop.tid);
    }

    // The first half of doJob on the task that is held; only the entry's live task changes.
    method StartJob(now: int) returns (called: bool)
      requires Valid() && loop.Found?
      modifies taskToRun
      ensures Valid() && called == (loop.tid.hndl in tasks)
      ensures Model() == old(Model()).(tasks := TaskValues())
      ensures forall g | g in tasks && g != loop.tid.hndl :: TaskValues()[g] == old(TaskValues())[g]
      ensures called ==> TaskValues()[loop.tid.hndl] == M.BeginJob(old(TaskValues())[loop.tid.hndl], now)
    {
      hide M.BeginJob;
      called := taskToRun.BeginJob(now);
    }

    // The second half.
    method FinishJob(now: int)
      requires Valid() && loop.Executing?
      modifies taskToRun
      ensures Valid()
      ensures Model() == old(Model()).(tasks := TaskValues())
      ensures forall g | g in tasks && g != loop.tid.hndl :: TaskValues()[g] == old(TaskValues())[g]
      ensures loop.tid.hndl in tasks ==> old(TaskValues())[loop.tid.hndl].interval > 0
      ensures loop.tid.hndl in tasks ==>
        TaskValues()[loop.tid.hndl] == M.EndJob(old(TaskValues())[loop.tid.hndl], now)
    {
      hide M.EndJob;
      taskToRun.EndJob(now);
    }

    method BeginTask(now: int) returns (called: bool)
      requires Valid() && Inv(Model()) && Enabled(Model(), Begin(now))
      modifies `loop, `clock, taskToRun
      ensures Valid() && Model() == Step(old(Model()), Begin(now))
      ensures called <==> loop.tid.hndl in tasks
    {
      ghost var s := Model();
      assert s.loop.Found?;
      hide Inv, Enabled, Step, M.BeginJob, TasksValid;
      called := StartJob(now);
      BeginIs(s, TaskValues(), now);
      hide TaskValues, Valid;
      MoveLoop(if called then Executing(loop.tid) else Done(loop.tid), now);
    }

    method EndTask(now: int)
      requires Valid() && Inv(Model()) && Enabled(Model(), End(now))
      modifies `loop, `clock, taskToRun
      ensures Valid() && Model() == Step(old(Model()), End(now))
    {
      ghost var s := Model();
      assert s.loop.Executing?;
      hide Inv, Enabled, Step, M.EndJob, TasksValid;
      FinishJob(now);
      EndIs(s, TaskValues(), now);
      hide TaskValues, Valid;
      MoveLoop(Done(loop.tid), now);
    }

    /** The third critical section. */
    method RequeueTask()
      requires Valid() && Inv(Model()) && Enabled(Model(), Requeue)
      modifies `loop, `taskQueue
      ensures Valid() && Model() == Step(old(Model()), Requeue)
    {
      hide Inv, WakesUp, TopOf, M.EndTask, M.BeginTask, WakeUp, PeekTop, LookupTask, Take, Put, Drop;
      if loop.tid.hndl in tasks {
        taskQueue := Put(taskQueue, tasks[loop.tid.hndl].tid);
      }
      loop := Top;
    }
  }
}
