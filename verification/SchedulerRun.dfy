/** Runs of the scheduler: queue and map agree under every interleaving, and no queued entry can
    be overtaken for ever. */
module SchedulerRun {
  import opened Common
  import opened SchedulerModel

  /** ss[0] is an initial state and each ss[n + 1] is the result of event es[n]. A step is only
      defined where the invariant holds; RunInv shows that it holds everywhere. */
  ghost predicate IsRun(ss: seq<State>, es: seq<Event>)
    ensures IsRun(ss, es) ==> |ss| == |es| + 1
  {
    && |ss| == |es| + 1
    && Initial(ss[0])
    && forall n | 0 <= n < |es| :: IsStep(ss[n], es[n], ss[n + 1])
  }

  ghost predicate IsStep(s: State, e: Event, t: State) {
    Inv(s) ==> Enabled(s, e) && t == Step(s, e)
  }

  // Every task's key is on its grid; a task that has not run yet is due at once.
  ghost predicate OnGrid(t: Task) {
    && t.interval > 0 && t.execCount >= 0
    && t.tid.nextRun == if t.execCount == 0 then TIME_MIN else t.startTime + t.execCount * t.interval
  }

  ghost predicate GridInv(s: State) {
    && s.clock >= TIME_MIN
    && (forall h | h in s.tasks :: OnGrid(s.tasks[h]))
    && (s.loop.Executing? && s.loop.tid.hndl in s.tasks ==> Running(s.tasks[s.loop.tid.hndl], s.clock))
  }

  // A task inside job(): its start time is set, its key is still the old one.
  ghost predicate Running(t: Task, clock: int) {
    OnGrid(t) && (t.execCount == 0 ==> TIME_MIN <= t.startTime <= clock)
  }

  lemma RunInv(ss: seq<State>, es: seq<Event>, n: nat)
    requires IsRun(ss, es) && n <= |es|
    ensures Inv(ss[n])
    ensures n < |es| ==> Enabled(ss[n], es[n]) && ss[n + 1] == Step(ss[n], es[n])
  {
    hide Inv, Enabled, Step;
    if n == 0 {
      InitialInv(ss[0]);
    } else {
      RunInv(ss, es, n - 1);
      StepInv(ss[n - 1], es[n - 1]);
    }
    assert n < |es| ==> IsStep(ss[n], es[n], ss[n + 1]);
  }

  // Event k of a run takes the entry of h.
  ghost predicate TakesAt(ss: seq<State>, es: seq<Event>, k: nat, h: Handle)
    requires |ss| == |es| + 1 && k < |es|
  {
    (es[k].Peek? || es[k].Wake?) && ss[k + 1].loop.Popped? && ss[k + 1].loop.tid.hndl == h
  }

  /** Under every interleaving of additions, removals and the loop's critical sections: queued
      handles are distinct, and every live task has exactly one entry, whose key is its next
      run, unless it is the one the loop holds, which has none. */
  lemma QueueAndTasksAgree(ss: seq<State>, es: seq<Event>, n: nat, h: Handle)
    requires IsRun(ss, es) && n <= |es| && h in ss[n].tasks
    ensures ss[n].tasks[h].tid.hndl == h
    ensures !ss[n].loop.Holds(h) ==> ss[n].queue[ss[n].tasks[h].tid] == 1
    ensures forall t | t in ss[n].queue && t.hndl == h :: t == ss[n].tasks[h].tid && !ss[n].loop.Holds(h)
  {
    RunInv(ss, es, n);
  }

  /** Stopping and running again neither loses nor duplicates a task: whenever the loop is not
      running, every live task has its one entry in the queue. */
  lemma NothingLostWhileStopped(ss: seq<State>, es: seq<Event>, n: nat, h: Handle)
    requires IsRun(ss, es) && n <= |es| && ss[n].loop.Exited? && h in ss[n].tasks
    ensures ss[n].queue[ss[n].tasks[h].tid] == 1
    ensures forall t | t in ss[n].queue && t.hndl == h :: t == ss[n].tasks[h].tid
  {
    QueueAndTasksAgree(ss, es, n, h);
  }

  /** addTask never reports failure: the handle it inserts is new to the map and to the queue. */
  lemma InsertAlwaysAdds(ss: seq<State>, es: seq<Event>, n: nat)
    requires IsRun(ss, es) && n < |es| && es[n].Insert?
    ensures es[n].hndl !in ss[n].tasks && es[n].hndl in ss[n + 1].tasks
    ensures forall t | t in ss[n].queue :: t.hndl != es[n].hndl
    ensures ss[n + 1].queue == Put(ss[n].queue, TaskIdentifier(es[n].hndl, TIME_MIN))
  {
    RunInv(ss, es, n);
  }

  // How an entry comes to have no task: it had none before, or this step removes it.
  lemma DanglingStep(s: State, e: Event, t: TaskIdentifier)
    requires Inv(s) && Enabled(s, e) && t in Step(s, e).queue && t.hndl !in Step(s, e).tasks
    ensures (t in s.queue && t.hndl !in s.tasks) || (e == Remove(t.hndl) && t.hndl in s.tasks)
  {
    hide Inv, Step, Enabled, TopOf, BeginJob, EndJob, Put, Drop;
    Steps(s, e);
    if e.Requeue? && s.loop.tid.hndl in s.tasks { HeldFacts(s); }
  }

  /** An entry without a task was removed: some earlier removeTask call erased its live task. */
  lemma {:induction false} DanglingWasRemoved(ss: seq<State>, es: seq<Event>, n: nat, t: TaskIdentifier)
    returns (k: nat)
    requires IsRun(ss, es) && n <= |es| && t in ss[n].queue && t.hndl !in ss[n].tasks
    ensures k < n && es[k] == Remove(t.hndl) && t.hndl in ss[k].tasks
  {
    assert n > 0;
    hide IsRun, Step, Enabled;
    RunInv(ss, es, n - 1);
    DanglingStep(ss[n - 1], es[n - 1], t);
    k := n - 1;
    if t in ss[n - 1].queue && t.hndl !in ss[n - 1].tasks {
      k := DanglingWasRemoved(ss, es, n - 1, t);
    }
  }

  // ---------------------------------------------------------------------------------------
  // Keys stay on the grid

  // What one run of a task does to its key.
  lemma EndJobGrid(t: Task, clock: int, now: int)
    requires Running(t, clock)
    ensures OnGrid(EndJob(t, now)) && EndJob(t, now).execCount > t.execCount
    ensures EndJob(t, now).tid.nextRun >= t.tid.nextRun + t.interval
  {
    var u := EndJob(t, now);
    ProductStep(t.execCount, u.execCount, t.interval);
    assert t.execCount == 0 ==> t.execCount * t.interval == 0;
  }

  lemma GridStep(s: State, e: Event)
    requires Inv(s) && GridInv(s) && Enabled(s, e)
    ensures GridInv(Step(s, e))
  {
    hide Inv, Step, Enabled, TopOf, Put, Drop, OnGrid, BeginJob, EndJob;
    Steps(s, e);
    if e.End? || e.Begin? { GridDoJob(s, e); }
    if e.Insert? {
      InsertIsNew(s, e.hndl);
      NewIsOnGrid(e.hndl, e.interval);
    }
  }

  lemma NewIsOnGrid(h: Handle, interval: int)
    ensures OnGrid(NewTask(h, interval))
  {
  }

  lemma GridDoJob(s: State, e: Event)
    requires Inv(s) && GridInv(s) && Enabled(s, e) && (e.Begin? || e.End?)
    ensures GridInv(Step(s, e))
  {
    hide Inv, Step, Enabled, EndJob, BeginJob, OnGrid, TopOf;
    Steps(s, e);
    if s.loop.tid.hndl in s.tasks {
      var t := s.tasks[s.loop.tid.hndl];
      if e.End? {
        EndJobGrid(t, s.clock, e.now);
      } else {
        BeginJobGrid(t, e.now);
      }
    }
  }

  lemma BeginJobGrid(t: Task, now: int)
    requires OnGrid(t) && now >= TIME_MIN
    ensures Running(BeginJob(t, now), now)
  {
  }

  lemma InsertIsNew(s: State, h: Handle)
    requires Inv(s) && h in s.reserved
    ensures h !in s.tasks && !s.loop.Holds(h)
  {
  }

  lemma {:induction false} RunGrid(ss: seq<State>, es: seq<Event>, n: nat)
    requires IsRun(ss, es) && n <= |es|
    ensures GridInv(ss[n])
  {
    if n > 0 {
      hide IsRun, Step, Enabled;
      RunGrid(ss, es, n - 1);
      RunInv(ss, es, n - 1);
      GridStep(ss[n - 1], es[n - 1]);
    }
  }
}
