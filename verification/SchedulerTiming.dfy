/** When tasks run: the catch-up arithmetic of doJob, and the rate it guarantees over whole runs. */
module SchedulerTiming {
  import opened Common
  import opened SchedulerModel
  import opened SchedulerRun
  import History = SchedulerHistory

  // ---------------------------------------------------------------------------------------
  // One run

  /** The catch-up rule. A run that ends at most one interval after the next grid point keeps that
      grid point; a later one moves to the first grid point strictly after its end. So the next
      run is never more than one interval in the past. */
  lemma CatchUp(t: Task, now: int)
    requires t.interval > 0
    ensures var u := EndJob(t, now); var ideal := t.startTime + (t.execCount + 1) * t.interval;
      && u.tid.nextRun == t.startTime + u.execCount * t.interval
      && u.startTime == t.startTime
      && (now <= ideal + t.interval <==> u.execCount == t.execCount + 1)
      && (now > ideal + t.interval ==> u.tid.nextRun - t.interval <= now < u.tid.nextRun)
      && now - t.interval <= u.tid.nextRun
  {
    var d, count := t.interval, t.execCount + 1;
    var gap := now - (t.startTime + count * d);
    var q := gap / d;
    assert q * d <= gap < q * d + d;
    assert (count + q + 1) * d == count * d + q * d + d;
    if gap > d {
      QuotientAtLeast(1, gap, d);
    }
  }

  /** A run that did not start before its time leaves the next one within one interval of its
      end, on either side. */
  lemma NextRunIsNear(t: Task, clock: int, now: int)
    requires Running(t, clock) && t.tid.nextRun <= clock <= now
    ensures now - t.interval <= EndJob(t, now).tid.nextRun <= now + t.interval
  {
    CatchUp(t, now);
    hide EndJob;
    assert (t.execCount + 1) * t.interval == t.execCount * t.interval + t.interval;
  }

  // ---------------------------------------------------------------------------------------
  // Early wake-ups

  // The wait for h ends before its time and its entry is taken all the same.
  ghost predicate IsEarly(s: State, e: Event, h: Handle)
    requires Enabled(s, e) && IntervalsPositive(s)
  {
    e.Wake? && Step(s, e).loop.Popped? && s.loop.tid.hndl == h && e.now < s.loop.tid.nextRun
  }

  /** Exactly when the loop takes an entry early: a stop is requested while it waits for the entry,
      which is still the top. */
  lemma EarlyIffStopped(s: State, e: Event, h: Handle)
    requires Inv(s) && Enabled(s, e) && e.Wake?
    ensures IsEarly(s, e, h) <==>
      s.stopRequested && s.loop.tid.hndl == h && e.now < s.loop.tid.nextRun && TopOf(s.queue) == s.loop.tid
  {
    assert s.loop.tid in s.queue;
    if TopOf(s.queue).hndl == s.loop.tid.hndl {
      WaitedForTop(s);
    }
    hide TopOf, Drop, Inv;
  }

  /** Of all steps that take an entry, exactly these take it before its key: those that end a wait
      before the awaited time with a stop requested. */
  lemma TakenEarlyIff(s: State, e: Event)
    requires Inv(s) && Enabled(s, e) && (e.Peek? || e.Wake?) && Step(s, e).loop.Popped?
    ensures var t := Step(s, e).loop.tid;
      && (e.now < t.nextRun <==> IsEarly(s, e, t.hndl))
      && (e.now < t.nextRun <==> e.Wake? && s.stopRequested && e.now < s.loop.tid.nextRun)
  {
    if e.Wake? { EarlyIffStopped(s, e, s.loop.tid.hndl); }
    hide Inv, TopOf, Drop, WakesUp;
  }

  // ---------------------------------------------------------------------------------------
  // Whole runs

  // The event is the start of a run of the live task h.
  predicate StartsRun(s: State, e: Event, h: Handle) {
    e.Begin? && s.loop.Found? && s.loop.tid.hndl == h && h in s.tasks
  }

  function RunsBefore(ss: seq<State>, es: seq<Event>, n: nat, h: Handle): nat
    requires n <= |es| <= |ss|
  {
    if n == 0 then 0
    else RunsBefore(ss, es, n - 1, h) + if StartsRun(ss[n - 1], es[n - 1], h) then 1 else 0
  }

  // Event k of a run takes the entry of h before its time.
  ghost predicate EarlyAt(ss: seq<State>, es: seq<Event>, k: nat, h: Handle)
    requires k < |es| <= |ss|
  {
    Enabled(ss[k], es[k]) && IntervalsPositive(ss[k]) && IsEarly(ss[k], es[k], h)
  }

  ghost predicate NeverEarly(ss: seq<State>, es: seq<Event>, n: nat, h: Handle)
    requires n <= |es| <= |ss|
  {
    forall k | 0 <= k < n :: !EarlyAt(ss, es, k, h)
  }

  lemma UnstoppedIsNeverEarly(ss: seq<State>, es: seq<Event>, n: nat, h: Handle)
    requires IsRun(ss, es) && n <= |es| && forall k | 0 <= k < n && es[k].Wake? :: !ss[k].stopRequested
    ensures NeverEarly(ss, es, n, h)
  {
    forall k | 0 <= k < n
      ensures !EarlyAt(ss, es, k, h)
    {
      RunInv(ss, es, k);
      hide IsRun, Step, Enabled, Inv, IsEarly;
      if es[k].Wake? { EarlyIffStopped(ss[k], es[k], h); } else { NotWaking(ss[k], es[k], h); }
    }
  }

  lemma NotWaking(s: State, e: Event, h: Handle)
    requires Enabled(s, e) && IntervalsPositive(s) && !e.Wake?
    ensures !IsEarly(s, e, h)
  {
  }

  // The entry of h that the loop holds is due.
  ghost predicate HeldIsDue(s: State, h: Handle) {
    (s.loop.Popped? || s.loop.Found? || s.loop.Executing?) && s.loop.tid.hndl == h && h in s.tasks ==>
      s.tasks[h].tid.nextRun <= s.clock
  }

  // A handle that addTask has given out and already used.
  predicate IsUsed(s: State, h: Handle) { h < s.next && h !in s.reserved }

  lemma LiveIsUsed(s: State, h: Handle)
    requires Inv(s) && h in s.tasks
    ensures IsUsed(s, h)
  {
  }

  lemma UsedStep(s: State, e: Event, h: Handle)
    requires Inv(s) && Enabled(s, e) && IsUsed(s, h)
    ensures IsUsed(Step(s, e), h)
    ensures h in Step(s, e).tasks ==> h in s.tasks
  {
    hide Inv, Step, Enabled, TopOf, Put, Drop, BeginJob, EndJob;
    Steps(s, e);
  }

  // What a step does to a task that lives on.
  lemma TaskStep(s: State, e: Event, h: Handle)
    requires Inv(s) && Enabled(s, e) && h in s.tasks && h in Step(s, e).tasks
    ensures Step(s, e).tasks[h] ==
      if StartsRun(s, e, h) then BeginJob(s.tasks[h], e.now)
      else if e.End? && s.loop == Executing(s.loop.tid) && s.loop.tid.hndl == h then EndJob(s.tasks[h], e.now)
      else s.tasks[h]
  {
    hide Inv, Step, Enabled, TopOf, Put, Drop, BeginJob, EndJob;
    Steps(s, e);
    if e.Insert? { InsertIsNew(s, e.hndl); }
  }

  // Which steps start and end the run of h.
  lemma LoopStep(s: State, e: Event, h: Handle)
    requires Inv(s) && Enabled(s, e) && h in s.tasks && h in Step(s, e).tasks
    ensures var t := Step(s, e); var running := t.loop.Executing? && t.loop.tid.hndl == h;
      && (StartsRun(s, e, h) ==> running && !s.loop.Executing?)
      && (running && !StartsRun(s, e, h) ==> s.loop == t.loop && !e.End?)
      && (s.loop.Executing? && s.loop.tid.hndl == h && !e.End? ==> running)
  {
    hide Inv, TopOf, Put, Drop, BeginJob, EndJob, IntervalsPositive, Step, Enabled;
    if !s.loop.Exited? { LoopJoinable(s); }
    Steps(s, e);
  }

  lemma DueStep(s: State, e: Event, h: Handle)
    requires Inv(s) && Enabled(s, e) && HeldIsDue(s, h) && !IsEarly(s, e, h)
    ensures HeldIsDue(Step(s, e), h)
  {
    hide Inv, Step, Enabled, IsEarly, HeldIsDue, IsTimed;
    if e.Peek? {
      DuePeek(s, e, h);
    } else if e.Wake? {
      DueWake(s, e, h);
    } else {
      DueOther(s, e, h);
    }
  }

  lemma DueOther(s: State, e: Event, h: Handle)
    requires Inv(s) && Enabled(s, e) && HeldIsDue(s, h)
    requires !e.Peek? && !e.Wake?
    ensures HeldIsDue(Step(s, e), h)
  {
    hide Inv, Step, Enabled, Put, EndJob;
    Steps(s, e);
    if e.Insert? { InsertIsNew(s, e.hndl); }
  }

  lemma DuePeek(s: State, e: Event, h: Handle)
    requires Inv(s) && Enabled(s, e) && e.Peek?
    ensures HeldIsDue(Step(s, e), h)
  {
    hide Inv, Step, Enabled, TopOf, Drop;
    Steps(s, e);
    if s.queue != multiset{} {
      TopIn(s.queue);
      EntryIsKey(s, TopOf(s.queue));
    }
  }

  lemma DueWakeIs(s: State, e: Event, h: Handle)
    requires Enabled(s, e) && IntervalsPositive(s) && e.Wake? && !IsEarly(s, e, h)
    ensures s.loop.Waiting? && (Step(s, e).loop.Popped? && s.loop.tid.hndl == h ==> s.loop.tid.nextRun <= e.now)
  {
    hide Step;
  }

  lemma DueWake(s: State, e: Event, h: Handle)
    requires Inv(s) && Enabled(s, e) && e.Wake? && !IsEarly(s, e, h)
    ensures HeldIsDue(Step(s, e), h)
  {
    DueWakeIs(s, e, h);
    hide Inv, Step, Enabled, TopOf, Drop, IsEarly;
    Steps(s, e);
    if s.queue != multiset{} && TopOf(s.queue).hndl == s.loop.tid.hndl {
      TopIn(s.queue);
      WaitedForTop(s);
      EntryIsKey(s, TopOf(s.queue));
    }
  }

  lemma EntryIsKey(s: State, t: TaskIdentifier)
    requires Inv(s) && t in s.queue
    ensures t.hndl in s.tasks ==> s.tasks[t.hndl].tid == t
  {
  }

  // The loop holds the entry of h and has not finished with it.
  predicate Serves(s: State, h: Handle) {
    (s.loop.Popped? || s.loop.Found? || s.loop.Executing?) && s.loop.tid.hndl == h
  }

  // Event k took the entry of h that the loop serves up to state n.
  ghost predicate OwnTake(ss: seq<State>, es: seq<Event>, k: nat, n: nat, h: Handle)
    requires |ss| == |es| + 1 && n <= |es|
  {
    k < n && TakesAt(ss, es, k, h) && forall i | k < i <= n :: Serves(ss[i], h)
  }

  lemma ServesStep(s: State, e: Event, h: Handle)
    requires Inv(s) && Enabled(s, e) && Serves(Step(s, e), h)
    ensures if (e.Peek? || e.Wake?) && Step(s, e).loop.Popped? then !Serves(s, h) else Serves(s, h) && !e.Wake?
  {
    hide Inv, Step, Enabled, TopOf, Put, Drop, BeginJob, EndJob;
    if !s.loop.Exited? { LoopJoinable(s); }
    Steps(s, e);
  }

  // Every entry the loop serves was taken by one event since when it has served nothing else.
  lemma {:induction false} OwnTakeOf(ss: seq<State>, es: seq<Event>, n: nat, h: Handle) returns (k: nat)
    requires IsRun(ss, es) && n <= |es| && Serves(ss[n], h)
    ensures k < n && OwnTake(ss, es, k, n, h)
  {
    hide Step, Enabled, Inv;
    assert n > 0;
    hide IsRun;
    RunInv(ss, es, n - 1);
    ServesStep(ss[n - 1], es[n - 1], h);
    k := n - 1;
    if !TakesAt(ss, es, n - 1, h) {
      k := OwnTakeOf(ss, es, n - 1, h);
    }
  }

  // If that take was not early, the entry is due for as long as it is served.
  lemma {:induction false} DueSinceTake(ss: seq<State>, es: seq<Event>, k: nat, n: nat, h: Handle)
    requires IsRun(ss, es) && n <= |es| && OwnTake(ss, es, k, n, h) && !EarlyAt(ss, es, k, h)
    ensures HeldIsDue(ss[n], h)
    decreases n
  {
    hide IsRun, Step, Enabled, Inv, IsEarly, EarlyAt, HeldIsDue;
    RunInv(ss, es, n - 1);
    assert Serves(ss[n], h);
    ServesStep(ss[n - 1], es[n - 1], h);
    if k < n - 1 {
      DueSinceTake(ss, es, k, n - 1, h);
      assert Serves(ss[n - 1], h);
      NotWaking(ss[n - 1], es[n - 1], h);
    } else {
      IdleIsDue(ss[k], h);
      EarlyAtIs(ss, es, k, h);
    }
    DueStep(ss[n - 1], es[n - 1], h);
  }

  lemma IdleIsDue(s: State, h: Handle)
    requires !Serves(s, h)
    ensures HeldIsDue(s, h)
  {
  }

  lemma EarlyAtIs(ss: seq<State>, es: seq<Event>, k: nat, h: Handle)
    requires k < |es| <= |ss| && Enabled(ss[k], es[k]) && Inv(ss[k])
    ensures EarlyAt(ss, es, k, h) <==> IsEarly(ss[k], es[k], h)
  {
    hide Enabled, IsEarly;
  }

  // The records of h match its history since its first run: `start` is when that run began.
  ghost predicate Recorded(s: State, h: Handle, runs: nat, start: int, interval: int) {
    h in s.tasks ==>
      var t := s.tasks[h];
      var running := s.loop.Executing? && s.loop.tid.hndl == h;
      && t.startTime == start && t.interval == interval && runs > 0
      && t.execCount >= (if running then runs - 1 else runs)
  }

  lemma RecordedStep(s: State, e: Event, h: Handle, runs: nat, start: int, interval: int)
    requires Inv(s) && GridInv(s) && Enabled(s, e) && IsUsed(s, h) && Recorded(s, h, runs, start, interval)
    ensures Recorded(Step(s, e), h, if StartsRun(s, e, h) then runs + 1 else runs, start, interval)
  {
    if h in Step(s, e).tasks {
      UsedStep(s, e, h);
      TaskStep(s, e, h);
      LoopStep(s, e, h);
      GridOf(s, h);
      var t := s.tasks[h];
      if e.End? {
        EndJobCounts(t, e.now);
      }
      hide Step, Inv, GridInv, EndJob, Enabled;
    }
  }

  lemma EndJobCounts(t: Task, now: int)
    requires t.interval > 0
    ensures EndJob(t, now).execCount > t.execCount && EndJob(t, now).startTime == t.startTime
  {
    CatchUp(t, now);
    var gap := now - (t.startTime + (t.execCount + 1) * t.interval);
    assert gap > t.interval ==> gap / t.interval >= 0;
  }

  lemma GridOf(s: State, h: Handle)
    requires GridInv(s) && h in s.tasks
    ensures OnGrid(s.tasks[h])
  {
  }

  lemma FirstRunRecorded(s: State, e: Event, h: Handle)
    requires Inv(s) && GridInv(s) && Enabled(s, e) && StartsRun(s, e, h) && s.tasks[h].execCount == 0
    ensures Recorded(Step(s, e), h, 1, e.now, s.tasks[h].interval)
    ensures IsUsed(Step(s, e), h)
  {
    LiveIsUsed(s, h);
    UsedStep(s, e, h);
    TaskStep(s, e, h);
    LoopStep(s, e, h);
    hide Step, Inv, Enabled, GridInv;
  }

  // Before its first run a live task has its initial counter and is not inside job().
  ghost predicate NotRunYet(s: State, h: Handle) {
    h in s.tasks ==> s.tasks[h].execCount == 0 && !(s.loop.Executing? && s.loop.tid.hndl == h)
  }

  lemma NotRunYetStep(s: State, e: Event, h: Handle)
    requires Inv(s) && Enabled(s, e) && NotRunYet(s, h) && !StartsRun(s, e, h)
    ensures NotRunYet(Step(s, e), h)
  {
    if h in Step(s, e).tasks {
      if h in s.tasks {
        TaskStep(s, e, h);
        LoopStep(s, e, h);
        hide Step, Inv, Enabled, EndJob, BeginJob;
      } else {
        InsertedFresh(s, e, h);
      }
    }
  }

  lemma InsertedFresh(s: State, e: Event, h: Handle)
    requires Inv(s) && Enabled(s, e) && h !in s.tasks && h in Step(s, e).tasks
    ensures NotRunYet(Step(s, e), h)
  {
    hide Inv, Step, Enabled, TopOf, Put, Drop, BeginJob, EndJob;
    Steps(s, e);
    if e.Insert? { InsertIsNew(s, e.hndl); }
  }

  lemma {:induction false} NotRunYetInRun(ss: seq<State>, es: seq<Event>, n: nat, h: Handle)
    requires IsRun(ss, es) && n <= |es| && RunsBefore(ss, es, n, h) == 0
    ensures NotRunYet(ss[n], h)
  {
    if n > 0 {
      hide IsRun, Step, Enabled, NotRunYet;
      NotRunYetInRun(ss, es, n - 1, h);
      RunInv(ss, es, n - 1);
      NotRunYetStep(ss[n - 1], es[n - 1], h);
    }
  }

  // After its first run the records of h are those of its history.
  lemma {:induction false} RecordedInRun(ss: seq<State>, es: seq<Event>, first: nat, n: nat, h: Handle)
    requires IsRun(ss, es) && first < n <= |es|
    requires StartsRun(ss[first], es[first], h) && RunsBefore(ss, es, first, h) == 0
    ensures Recorded(ss[n], h, RunsBefore(ss, es, n, h), es[first].now, ss[first].tasks[h].interval)
    ensures IsUsed(ss[n], h)
    decreases n
  {
    hide IsRun, Step, Enabled, NotRunYet, Recorded, IsUsed, Inv, GridInv;
    RunInv(ss, es, n - 1);
    RunGrid(ss, es, n - 1);
    if n - 1 == first {
      NotRunYetInRun(ss, es, first, h);
      NotRunYetCounter(ss[first], h);
      FirstRunRecorded(ss[first], es[first], h);
    } else {
      RecordedInRun(ss, es, first, n - 1, h);
      RecordedStep(ss[n - 1], es[n - 1], h, RunsBefore(ss, es, n - 1, h), es[first].now, ss[first].tasks[h].interval);
      UsedStep(ss[n - 1], es[n - 1], h);
    }
  }

  lemma NotRunYetCounter(s: State, h: Handle)
    requires NotRunYet(s, h) && h in s.tasks
    ensures s.tasks[h].execCount == 0
  {
  }

  lemma StartIsPunctual(s: State, e: Event, h: Handle, runs: nat, start: int, interval: int)
    requires Enabled(s, e) && StartsRun(s, e, h) && HeldIsDue(s, h) && GridInv(s)
    requires Recorded(s, h, runs, start, interval)
    ensures e.now >= start + runs * interval && s.tasks[h].interval == interval
  {
    GridOf(s, h);
    var t := s.tasks[h];
    assert t.execCount >= runs && t.interval == interval > 0;
    assert e.now >= t.startTime + t.execCount * interval;
    if t.execCount > runs {
      ProductStep(runs, t.execCount, interval);
    }
  }

  // A live task was added, and has the interval it was added with.
  lemma AddedWith(ss: seq<State>, es: seq<Event>, n: nat, h: Handle) returns (i: nat)
    requires IsRun(ss, es) && n <= |es| && h in ss[n].tasks
    ensures i < n && es[i].Insert? && es[i].hndl == h
    ensures ss[n].tasks[h].interval == if es[i].interval > 0 then es[i].interval else 1_000_000_000
  {
    hide IsRun;
    History.LiveIff(ss, es, n, h);
    i := History.AddedBy(es, n, h);
    History.IntervalAsAsked(ss, es, i, n);
  }

  /** The rate, execution by execution. The n-th execution of a task, counted from 0, starts no
      earlier than its first one plus n times the interval that it was added with (a second, if that is
      not positive), however late, long, interrupted or early the ones before it were, unless its own
      take was early: by TakenEarlyIff, unless a stop was requested while the loop waited for just this
      execution. */
  lemma NthRunNotBefore(ss: seq<State>, es: seq<Event>, first: nat, n: nat, h: Handle) returns (i: nat, k: nat)
    requires IsRun(ss, es) && first <= n < |es|
    requires StartsRun(ss[first], es[first], h) && RunsBefore(ss, es, first, h) == 0
    requires StartsRun(ss[n], es[n], h)
    ensures i < first && es[i].Insert? && es[i].hndl == h && OwnTake(ss, es, k, n, h)
    ensures var d := if es[i].interval > 0 then es[i].interval else 1_000_000_000;
      es[n].now < es[first].now + RunsBefore(ss, es, n, h) * d ==> EarlyAt(ss, es, k, h)
  {
    i := AddedWith(ss, es, first, h);
    k := RunNotBefore(ss, es, first, n, h);
  }

  lemma RunNotBefore(ss: seq<State>, es: seq<Event>, first: nat, n: nat, h: Handle) returns (k: nat)
    requires IsRun(ss, es) && first <= n < |es|
    requires StartsRun(ss[first], es[first], h) && RunsBefore(ss, es, first, h) == 0
    requires StartsRun(ss[n], es[n], h)
    ensures OwnTake(ss, es, k, n, h)
    ensures es[n].now < es[first].now + RunsBefore(ss, es, n, h) * ss[first].tasks[h].interval ==> EarlyAt(ss, es, k, h)
  {
    hide IsRun, Step, Enabled, Recorded, Inv, GridInv, HeldIsDue, EarlyAt, OwnTake;
    k := OwnTakeOf(ss, es, n, h);
    if first < n {
      RecordedInRun(ss, es, first, n, h);
      RunInv(ss, es, n);
      RunGrid(ss, es, n);
      if !EarlyAt(ss, es, k, h) {
        DueSinceTake(ss, es, k, n, h);
        StartIsPunctual(ss[n], es[n], h, RunsBefore(ss, es, n, h), es[first].now, ss[first].tasks[h].interval);
      }
    }
  }

  /** After every execution of a live task its key is a point of the grid of its start time, at
      least one interval after the old key, and no more than one interval before the time the
      execution ended. It is no more than one interval after that time either, unless the take of
      this execution was early. The interval is the one the task was added with. */
  lemma NextRunInRun(ss: seq<State>, es: seq<Event>, n: nat, h: Handle) returns (i: nat, k: nat)
    requires IsRun(ss, es) && n < |es|
    requires es[n].End? && ss[n].loop.Executing? && ss[n].loop.tid.hndl == h && h in ss[n].tasks
    ensures i < n && es[i].Insert? && es[i].hndl == h
    ensures OwnTake(ss, es, k, n, h) && h in ss[n + 1].tasks
    ensures var d := if es[i].interval > 0 then es[i].interval else 1_000_000_000;
      var t, u := ss[n].tasks[h], ss[n + 1].tasks[h];
      && u.startTime == t.startTime
      && u.tid.nextRun == u.startTime + u.execCount * d
      && u.tid.nextRun >= t.tid.nextRun + d
      && es[n].now - d <= u.tid.nextRun
      && (u.tid.nextRun <= es[n].now + d || EarlyAt(ss, es, k, h))
  {
    i := AddedWith(ss, es, n, h);
    RunInv(ss, es, n);
    RunGrid(ss, es, n);
    hide IsRun, EarlyAt, OwnTake, Inv, GridInv, Enabled, Step, HeldIsDue;
    k := OwnTakeOf(ss, es, n, h);
    if !EarlyAt(ss, es, k, h) { DueSinceTake(ss, es, k, n, h); }
    EndStep(ss[n], es[n], h);
  }

  lemma EndStep(s: State, e: Event, h: Handle)
    requires Inv(s) && GridInv(s) && Enabled(s, e)
    requires e.End? && s.loop.Executing? && s.loop.tid.hndl == h && h in s.tasks
    ensures h in Step(s, e).tasks
    ensures var t, u := s.tasks[h], Step(s, e).tasks[h];
      && u.startTime == t.startTime && u.interval == t.interval
      && u.tid.nextRun == u.startTime + u.execCount * u.interval
      && u.tid.nextRun >= t.tid.nextRun + t.interval
      && e.now - t.interval <= u.tid.nextRun
      && (HeldIsDue(s, h) ==> u.tid.nextRun <= e.now + t.interval)
  {
    var t := s.tasks[h];
    assert Running(t, s.clock);
    EndJobGrid(t, s.clock, e.now);
    CatchUp(t, e.now);
    if HeldIsDue(s, h) { NextRunIsNear(t, s.clock, e.now); }
    hide Inv, GridInv, EndJob, Running, OnGrid;
  }

  // ---------------------------------------------------------------------------------------
  // Once per stop

  // A stop is requested and the loop is on its way out.
  predicate Stopping(s: State) { s.stopRequested && !s.loop.Ready? && !s.loop.Waiting? }

  lemma StoppingStep(s: State, e: Event)
    requires Inv(s) && Enabled(s, e) && Stopping(s) && !(e.Run? && !s.joinable)
    ensures Stopping(Step(s, e))
  {
    hide Inv, Step, Enabled, TopOf, Put, Drop, BeginJob, EndJob;
    Steps(s, e);
  }

  lemma EarlyStops(s: State, e: Event, h: Handle)
    requires Inv(s) && Enabled(s, e) && IsEarly(s, e, h)
    ensures s.loop.Waiting? && Stopping(Step(s, e))
  {
    EarlyIffStopped(s, e, h);
    hide Inv, TopOf, Drop, WakesUp;
  }

  lemma {:induction false} StoppingUntilRun(ss: seq<State>, es: seq<Event>, j: nat, k: nat, h: Handle)
    requires IsRun(ss, es) && j < k <= |es| && EarlyAt(ss, es, j, h)
    requires forall i | j < i < k :: !(es[i].Run? && !ss[i].joinable)
    ensures Stopping(ss[k])
    decreases k
  {
    hide IsRun, Step, Enabled, Inv, IsEarly, Stopping, EarlyAt;
    RunInv(ss, es, k - 1);
    if j == k - 1 {
      EarlyAtIs(ss, es, j, h);
      EarlyStops(ss[j], es[j], h);
    } else {
      StoppingUntilRun(ss, es, j, k - 1, h);
      StoppingStep(ss[k - 1], es[k - 1]);
    }
  }

  /** A stop lets the loop take one entry early, not more: between two early takes, of whatever
      tasks, the loop was started anew. */
  lemma EarlyOncePerStop(ss: seq<State>, es: seq<Event>, j: nat, k: nat, g: Handle, h: Handle) returns (i: nat)
    requires IsRun(ss, es) && j < k < |es| && EarlyAt(ss, es, j, g) && EarlyAt(ss, es, k, h)
    ensures j < i < k && es[i].Run? && !ss[i].joinable
  {
    hide IsRun, EarlyAt;
    if i' :| j < i' < k && es[i'].Run? && !ss[i'].joinable {
      i := i';
    } else {
      StoppingUntilRun(ss, es, j, k, g);
      EarlyIsWaiting(ss, es, k, h);
      assert false;
    }
  }

  lemma EarlyIsWaiting(ss: seq<State>, es: seq<Event>, k: nat, h: Handle)
    requires |ss| == |es| + 1 && k < |es| && EarlyAt(ss, es, k, h)
    ensures ss[k].loop.Waiting?
  {
    hide IntervalsPositive, TopOf;
  }
}
