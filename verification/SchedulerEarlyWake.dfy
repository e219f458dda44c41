/** A stop requested during the wait makes the waiting entry run early: the concrete run. */
module SchedulerEarlyWake {
  import opened SchedulerModel
  import opened SchedulerRun
  import opened SchedulerTiming
  import opened Common

  const KEY0 := TaskIdentifier(0, TIME_MIN)
  const KEY1 := TaskIdentifier(0, 10)

  // One task with interval 10, before and after its first execution at time 0.
  function OneTask(queue: Queue, loop: Loop): State {
    State(1, {}, map[0 := Task(KEY0, 10, 0, 0)], queue, loop, true, false, 0)
  }

  function OneTaskRun(queue: Queue, loop: Loop, stop: bool, clock: int): State {
    State(1, {}, map[0 := Task(KEY1, 10, 0, 1)], queue, loop, true, stop, clock)
  }

  const NOTHING := State(0, {}, map[], multiset{}, Exited, false, false, 0)
  const RESERVED := NOTHING.(next := 1, reserved := {0})

  lemma OnlyTop(t: TaskIdentifier)
    ensures TopOf(multiset{t}) == t
  {
    assert t in multiset{t};
    TopUnique(multiset{t}, TopOf(multiset{t}), t);
  }

  lemma ReservingStep()
    ensures IsStep(NOTHING, Reserve(0), RESERVED)
  {
    hide TopOf, Inv, Step;
    assert Enabled(NOTHING, Reserve(0)) && IntervalsPositive(NOTHING);
    Steps(NOTHING, Reserve(0));
    assert Step(NOTHING, Reserve(0)) == RESERVED;
  }

  lemma AddingStep()
    ensures IsStep(RESERVED, Insert(0, 10), OneTask(multiset{KEY0}, Exited).(joinable := false))
  {
    assert RESERVED.reserved - {0} == NOTHING.reserved;
    assert Enabled(RESERVED, Insert(0, 10));
    Steps(RESERVED, Insert(0, 10));
    hide TopOf, Inv, Step, Enabled;
  }

  lemma StartingSteps()
    ensures IsStep(OneTask(multiset{KEY0}, Exited).(joinable := false), Run, OneTask(multiset{KEY0}, Top))
    ensures IsStep(OneTask(multiset{KEY0}, Top), Check, OneTask(multiset{KEY0}, Ready))
  {
    hide TopOf, Inv;
  }

  lemma FirstTakeStep()
    ensures IsStep(OneTask(multiset{KEY0}, Ready), Peek(0), OneTask(multiset{}, Popped(KEY0)))
  {
    OnlyTop(KEY0);
    hide TopOf, Inv;
  }

  lemma FirstRunSteps()
    ensures IsStep(OneTask(multiset{}, Popped(KEY0)), Lookup, OneTask(multiset{}, Found(KEY0)))
    ensures IsStep(OneTask(multiset{}, Found(KEY0)), Begin(0), OneTask(multiset{}, Executing(KEY0)))
    ensures IsStep(OneTask(multiset{}, Executing(KEY0)), End(0), OneTaskRun(multiset{}, Done(KEY0), false, 0))
    ensures IsStep(OneTaskRun(multiset{}, Done(KEY0), false, 0), Requeue, OneTaskRun(multiset{KEY1}, Top, false, 0))
  {
    hide TopOf, Inv;
  }

  lemma WaitingSteps()
    ensures IsStep(OneTaskRun(multiset{KEY1}, Top, false, 0), Check, OneTaskRun(multiset{KEY1}, Ready, false, 0))
    ensures IsStep(OneTaskRun(multiset{KEY1}, Ready, false, 0), Peek(1),
                   OneTaskRun(multiset{KEY1}, Waiting(KEY1), false, 1))
    ensures IsStep(OneTaskRun(multiset{KEY1}, Waiting(KEY1), false, 1), RequestStop,
                   OneTaskRun(multiset{KEY1}, Waiting(KEY1), true, 1))
  {
    OnlyTop(KEY1);
    hide TopOf, Inv;
  }

  lemma EarlySteps()
    ensures IsStep(OneTaskRun(multiset{KEY1}, Waiting(KEY1), true, 1), Wake(3),
                   OneTaskRun(multiset{}, Popped(KEY1), true, 3))
    ensures IsStep(OneTaskRun(multiset{}, Popped(KEY1), true, 3), Lookup, OneTaskRun(multiset{}, Found(KEY1), true, 3))
    ensures IsStep(OneTaskRun(multiset{}, Found(KEY1), true, 3), Begin(3),
                   OneTaskRun(multiset{}, Executing(KEY1), true, 3))
  {
    OnlyTop(KEY1);
    hide TopOf, Inv;
  }

  lemma Extend(ss: seq<State>, es: seq<Event>, e: Event, t: State) returns (ss': seq<State>, es': seq<Event>)
    requires IsRun(ss, es) && IsStep(ss[|es|], e, t)
    ensures IsRun(ss', es') && ss' == ss + [t] && es' == es + [e]
  {
    hide IsStep;
    ss', es' := ss + [t], es + [e];
  }

  lemma FirstRunStarts() returns (ss: seq<State>, es: seq<Event>)
    ensures IsRun(ss, es) && |es| == 7 && ss[7] == OneTask(multiset{}, Executing(KEY0))
    ensures es[6] == Begin(0) && ss[6] == OneTask(multiset{}, Found(KEY0))
  {
    ReservingStep();
    AddingStep();
    StartingSteps();
    FirstTakeStep();
    FirstRunSteps();
    ss, es := [NOTHING], [];
    assert IsRun(ss, es);
    hide *;
    ss, es := Extend(ss, es, Reserve(0), RESERVED);
    ss, es := Extend(ss, es, Insert(0, 10), OneTask(multiset{KEY0}, Exited).(joinable := false));
    ss, es := Extend(ss, es, Run, OneTask(multiset{KEY0}, Top));
    ss, es := Extend(ss, es, Check, OneTask(multiset{KEY0}, Ready));
    ss, es := Extend(ss, es, Peek(0), OneTask(multiset{}, Popped(KEY0)));
    ss, es := Extend(ss, es, Lookup, OneTask(multiset{}, Found(KEY0)));
    ss, es := Extend(ss, es, Begin(0), OneTask(multiset{}, Executing(KEY0)));
  }

  /** Without the condition the rate fails: a task of interval 10 runs at 0, the loop waits for 10,
      a stop is requested during the wait, and the task runs again at 3. */
  lemma StopBreaksTheRate() returns (ss: seq<State>, es: seq<Event>)
    ensures IsRun(ss, es) && |es| == 15
    ensures StartsRun(ss[6], es[6], 0) && StartsRun(ss[14], es[14], 0)
    ensures es[14].now < es[6].now + ss[6].tasks[0].interval
    ensures es[11].RequestStop? && es[12].Wake?
  {
    ss, es := FirstRunStarts();
    FirstRunSteps();
    WaitingSteps();
    EarlySteps();
    hide IsRun, IsStep;
    ss, es := Extend(ss, es, End(0), OneTaskRun(multiset{}, Done(KEY0), false, 0));
    ss, es := Extend(ss, es, Requeue, OneTaskRun(multiset{KEY1}, Top, false, 0));
    ss, es := Extend(ss, es, Check, OneTaskRun(multiset{KEY1}, Ready, false, 0));
    ss, es := Extend(ss, es, Peek(1), OneTaskRun(multiset{KEY1}, Waiting(KEY1), false, 1));
    ss, es := Extend(ss, es, RequestStop, OneTaskRun(multiset{KEY1}, Waiting(KEY1), true, 1));
    ss, es := Extend(ss, es, Wake(3), OneTaskRun(multiset{}, Popped(KEY1), true, 3));
    ss, es := Extend(ss, es, Lookup, OneTaskRun(multiset{}, Found(KEY1), true, 3));
    ss, es := Extend(ss, es, Begin(3), OneTaskRun(multiset{}, Executing(KEY1), true, 3));
  }
}
