/** What the scheduler's state means: which tasks are live, with which interval, and whether a stop has been
    asked for, is determined by the calls so far; and which entry the loop takes, by their keys. */
module SchedulerHistory {
  import opened Common
  import opened SchedulerModel
  import opened SchedulerRun

  // ---------------------------------------------------------------------------------------
  // Tasks

  /** The task was added, and not removed since. */
  predicate IsLive(es: seq<Event>, n: nat, h: Handle)
    requires n <= |es|
  {
    && n > 0 && es[n - 1] != Remove(h)
    && ((es[n - 1].Insert? && es[n - 1].hndl == h) || IsLive(es, n - 1, h))
  }

  // The event that added a live task.
  function AddedBy(es: seq<Event>, n: nat, h: Handle): (k: nat)
    requires n <= |es| && IsLive(es, n, h)
    ensures k < n && es[k].Insert? && es[k].hndl == h
  {
    if es[n - 1].Insert? && es[n - 1].hndl == h then n - 1 else AddedBy(es, n - 1, h)
  }

  // A second for an interval that is not positive.
  function Period(d: int): int { if d > 0 then d else 1_000_000_000 }

  lemma TasksStep(s: State, e: Event, h: Handle)
    requires Inv(s) && Enabled(s, e)
    ensures h in Step(s, e).tasks <==> e != Remove(h) && ((e.Insert? && e.hndl == h) || h in s.tasks)
    ensures h in Step(s, e).tasks ==>
      Step(s, e).tasks[h].interval == if e.Insert? && e.hndl == h then Period(e.interval) else s.tasks[h].interval
  {
    hide Inv, Step, Enabled, TopOf, Put, Drop, BeginJob, EndJob;
    Steps(s, e);
    if e.Insert? { InsertIsNew(s, e.hndl); }
  }

  /** Over every run the live tasks are those that were added and not removed since, and each has the
      interval it was added with. */
  lemma {:induction false} LiveIff(ss: seq<State>, es: seq<Event>, n: nat, h: Handle)
    requires IsRun(ss, es) && n <= |es|
    ensures h in ss[n].tasks <==> IsLive(es, n, h)
    ensures IsLive(es, n, h) ==> ss[n].tasks[h].interval == Period(es[AddedBy(es, n, h)].interval)
  {
    if n > 0 {
      RunInv(ss, es, n - 1);
      hide IsRun, Step, Enabled, Inv;
      LiveIff(ss, es, n - 1, h);
      TasksStep(ss[n - 1], es[n - 1], h);
    }
  }

  // A handle that addTask has used.
  predicate IsUsed(s: State, h: Handle) { h < s.next && h !in s.reserved }

  lemma UsedOnce(s: State, e: Event, h: Handle)
    requires Inv(s) && Enabled(s, e) && IsUsed(s, h)
    ensures IsUsed(Step(s, e), h) && !(e.Insert? && e.hndl == h)
  {
    hide Inv, Step, Enabled, TopOf, Put, Drop, BeginJob, EndJob;
    Steps(s, e);
  }

  lemma InsertUses(s: State, e: Event)
    requires Inv(s) && Enabled(s, e) && e.Insert?
    ensures IsUsed(Step(s, e), e.hndl)
  {
  }

  lemma {:induction false} AddedOnce(ss: seq<State>, es: seq<Event>, k: nat, n: nat, h: Handle)
    requires IsRun(ss, es) && k < n <= |es| && es[k].Insert? && es[k].hndl == h
    ensures IsUsed(ss[n], h)
    ensures forall i | k < i < n :: !(es[i].Insert? && es[i].hndl == h)
    decreases n
  {
    hide IsRun, Step, Enabled, Inv, IsUsed;
    RunInv(ss, es, n - 1);
    if k < n - 1 {
      AddedOnce(ss, es, k, n - 1, h);
      UsedOnce(ss[n - 1], es[n - 1], h);
    } else {
      InsertUses(ss[k], es[k]);
    }
  }

  /** A task that is added with an interval keeps it as long as it lives; without a positive one it gets a
      second. */
  lemma IntervalAsAsked(ss: seq<State>, es: seq<Event>, k: nat, n: nat)
    requires IsRun(ss, es) && k < n <= |es| && es[k].Insert? && es[k].hndl in ss[n].tasks
    ensures ss[n].tasks[es[k].hndl].interval == if es[k].interval > 0 then es[k].interval else 1_000_000_000
  {
    var h := es[k].hndl;
    LiveIff(ss, es, n, h);
    var i := AddedBy(es, n, h);
    if i < k { AddedOnce(ss, es, i, n, h); } else { AddedOnce(ss, es, k, n, h); }
    hide IsRun;
  }

  /** The job is called exactly if its task has not been removed when its run begins, and its entry comes
      back exactly if it has not been by its end. */
  lemma OnlyLiveRun(ss: seq<State>, es: seq<Event>, n: nat)
    requires IsRun(ss, es) && n < |es|
    ensures es[n].Begin? ==>
      ss[n].loop.Found? && (ss[n + 1].loop == Executing(ss[n].loop.tid) <==> IsLive(es, n, ss[n].loop.tid.hndl))
    ensures es[n].Lookup? ==>
      ss[n].loop.Popped? && (ss[n + 1].loop == Found(ss[n].loop.tid) <==> IsLive(es, n, ss[n].loop.tid.hndl))
    ensures es[n].Requeue? ==>
      && ss[n].loop.Done?
      && var h := ss[n].loop.tid.hndl;
         ((exists t | t in ss[n + 1].queue :: t.hndl == h) <==> IsLive(es, n, h))
  {
    RunInv(ss, es, n);
    RunInv(ss, es, n + 1);
    Steps(ss[n], es[n]);
    hide IsRun, Step, Enabled;
    if es[n].Lookup? || es[n].Begin? || es[n].Requeue? {
      var h := ss[n].loop.tid.hndl;
      LiveIff(ss, es, n, h);
      if es[n].Requeue? {
        if h in ss[n].tasks {
          assert ss[n].tasks[h].tid in ss[n + 1].queue;
        }
      }
    }
    hide IsLive;
  }

  // ---------------------------------------------------------------------------------------
  // Starting and stopping

  // The loop's thread was started and not joined since.
  predicate IsJoinable(es: seq<Event>, n: nat)
    requires n <= |es|
  {
    n > 0 && !es[n - 1].Join? && (es[n - 1].Run? || IsJoinable(es, n - 1))
  }

  // A stop was requested since the loop's thread was last started.
  predicate IsStopAsked(es: seq<Event>, n: nat)
    requires n <= |es|
  {
    && n > 0 && !(es[n - 1].Run? && !IsJoinable(es, n - 1))
    && ((es[n - 1].RequestStop? && IsJoinable(es, n - 1)) || IsStopAsked(es, n - 1))
  }

  lemma StopStep(s: State, e: Event)
    requires Inv(s) && Enabled(s, e)
    ensures Step(s, e).joinable <==> !e.Join? && (e.Run? || s.joinable)
    ensures Step(s, e).stopRequested <==>
      !(e.Run? && !s.joinable) && ((e.RequestStop? && s.joinable) || s.stopRequested)
  {
    hide Inv, Step, Enabled, TopOf, Put, Drop, BeginJob, EndJob;
    Steps(s, e);
  }

  lemma {:induction false} StopInRun(ss: seq<State>, es: seq<Event>, n: nat)
    requires IsRun(ss, es) && n <= |es|
    ensures ss[n].joinable == IsJoinable(es, n) && ss[n].stopRequested == IsStopAsked(es, n)
  {
    if n > 0 {
      RunInv(ss, es, n - 1);
      hide IsRun, Step, Enabled, Inv;
      StopInRun(ss, es, n - 1);
      StopStep(ss[n - 1], es[n - 1]);
    }
  }

  /** The loop ends exactly at a loop test that finds a stop requested since it was started; run() starts it
      exactly if the thread was never started or has been joined. */
  lemma LoopEndsIff(ss: seq<State>, es: seq<Event>, n: nat)
    requires IsRun(ss, es) && n < |es|
    ensures es[n].Check? ==> (ss[n + 1].loop.Exited? <==> IsStopAsked(es, n))
    ensures es[n].Run? ==> ss[n + 1].loop == if IsJoinable(es, n) then ss[n].loop else Top
    ensures !es[n].Check? && ss[n + 1].loop.Exited? ==> ss[n].loop.Exited?
  {
    StopInRun(ss, es, n);
    RunInv(ss, es, n);
    if !ss[n].loop.Exited? { LoopJoinable(ss[n]); }
    Steps(ss[n], es[n]);
    hide IsRun, Step, Enabled, IsStopAsked, IsJoinable, TopOf, Put, Drop, BeginJob, EndJob, Inv;
  }

  // ---------------------------------------------------------------------------------------
  // Which entry is taken

  lemma TopIsFirst(q: Queue, u: TaskIdentifier)
    requires u in q
    ensures var t := TopOf(q); t in q && (t.nextRun < u.nextRun || (t.nextRun == u.nextRun && t.hndl <= u.hndl))
  {
  }

  /** The entry the loop takes has the least key of all, and among those with its key the least handle. */
  lemma TakesFirst(ss: seq<State>, es: seq<Event>, n: nat, u: TaskIdentifier)
    requires IsRun(ss, es) && n < |es| && (es[n].Peek? || es[n].Wake?) && ss[n + 1].loop.Popped? && u in ss[n].queue
    ensures var t := ss[n + 1].loop.tid;
      && t in ss[n].queue && (t.nextRun < u.nextRun || (t.nextRun == u.nextRun && t.hndl <= u.hndl))
      && ss[n + 1].queue == ss[n].queue - multiset{t}
  {
    RunInv(ss, es, n);
    TopIsFirst(ss[n].queue, u);
    Steps(ss[n], es[n]);
    hide IsRun, Step, Enabled, TopOf;
    if es[n].Wake? && TopOf(ss[n].queue).hndl == ss[n].loop.tid.hndl { WaitedForTop(ss[n]); }
    hide Inv;
  }

  /** A task that is added is due at once: its key is the least time point. */
  lemma AddedIsDue(ss: seq<State>, es: seq<Event>, n: nat)
    requires IsRun(ss, es) && n < |es| && es[n].Insert?
    ensures TaskIdentifier(es[n].hndl, -9_223_372_036_854_775_808) in ss[n + 1].queue
    ensures es[n].hndl in ss[n + 1].tasks && ss[n + 1].tasks[es[n].hndl].execCount == 0
  {
    InsertAlwaysAdds(ss, es, n);
    RunInv(ss, es, n);
    Steps(ss[n], es[n]);
    hide IsRun, Step, Enabled, Inv;
  }
}
