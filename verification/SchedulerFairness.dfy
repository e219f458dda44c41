/** Bounded bypass: how often other tasks can run before a queued entry is taken. */
module SchedulerFairness {
  import opened Common
  import opened SchedulerModel
  import opened SchedulerRun
  import SchedulerTiming

  predicate IsDue(s: State, e: TaskIdentifier) { e.nextRun <= s.clock }

  // How often an entry that moves by at least d per run can come before e after the run that is
  // under way. Once e is due each run leaves its task at most one interval before e.
  function SlackAfterRun(t: TaskIdentifier, e: TaskIdentifier, d: int, due: bool): (n: nat)
    requires d > 0
    ensures due ==> n <= 2
  {
    if !Before(t, e) then 0
    else
      var n := (e.nextRun - t.nextRun) / d;
      if due && n > 2 then 2 else n
  }

  // The same before that run.
  function Slack(t: TaskIdentifier, e: TaskIdentifier, d: int, due: bool): nat
    requires d > 0
  {
    if Before(t, e) then SlackAfterRun(t, e, d, due) + 1 else 0
  }

  ghost predicate HasEntryBefore(q: Queue, h: Handle, e: TaskIdentifier) {
    exists t :: t in q && t.hndl == h && Before(t, e)
  }

  /** A bound on how often handle h is still taken before e: floor((t - s) / d) + 1 for a queued
      task with key s and interval d, but at most three if e is due; one for an entry whose task
      has been removed. */
  ghost function Potential(s: State, h: Handle, e: TaskIdentifier): nat
    requires IntervalsPositive(s)
  {
    if h in s.tasks then
      var t := s.tasks[h];
      if s.loop.Holds(h) && !s.loop.Done? then SlackAfterRun(t.tid, e, t.interval, IsDue(s, e))
      else Slack(t.tid, e, t.interval, IsDue(s, e))
    else if HasEntryBefore(s.queue, h, e) then 1 else 0
  }

  // The step takes the entry of h out of the queue to run it.
  ghost predicate Takes(s: State, ev: Event, h: Handle)
    requires Enabled(s, ev) && IntervalsPositive(s)
  {
    (ev.Peek? || ev.Wake?) && Step(s, ev).loop.Popped? && Step(s, ev).loop.tid.hndl == h
  }

  lemma QuotientStep(x: int, y: int, d: int)
    requires d > 0 && y + d <= x
    ensures y / d + 1 <= x / d
  {
    var q := y / d;
    assert q * d <= y;
    assert (q + 1) * d == q * d + d;
    QuotientAtLeast(q + 1, x, d);
  }

  // A run moves the key by at least the interval, so it uses up one unit of slack; and it ends at
  // most one interval after the new key, so with e due two units are left.
  lemma RunUsesSlack(t: Task, clock: int, now: int, e: TaskIdentifier)
    requires Running(t, clock) && clock <= now
    ensures Slack(EndJob(t, now).tid, e, t.interval, e.nextRun <= now)
         <= SlackAfterRun(t.tid, e, t.interval, e.nextRun <= clock)
  {
    EndJobGrid(t, clock, now);
    SchedulerTiming.CatchUp(t, now);
    var u := EndJob(t, now).tid;
    hide EndJob, OnGrid;
    if Before(u, e) {
      QuotientStep(e.nextRun - t.tid.nextRun, e.nextRun - u.nextRun, t.interval);
      if e.nextRun <= now && (e.nextRun - u.nextRun) / t.interval > 1 {
        assert e.nextRun - u.nextRun <= t.interval;
        QuotientAtMostOne(e.nextRun - u.nextRun, t.interval);
      }
    }
  }

  lemma QuotientAtMostOne(x: int, d: int)
    requires d > 0 && x <= d
    ensures x / d <= 1
  {
    var q := x / d;
    assert q * d <= x;
    if q >= 2 {
      ProductStep(1, q, d);
    }
  }

  // The top of a queue that holds e comes before e, unless it is e.
  lemma TopBefore(s: State, e: TaskIdentifier)
    requires Inv(s) && e in s.queue
    ensures TopOf(s.queue) == e || Before(TopOf(s.queue), e)
  {
  }

  lemma TopFacts(s: State, e: TaskIdentifier)
    requires Inv(s) && !s.loop.HoldsEntry() && e in s.queue && TopOf(s.queue) != e
    ensures var top := TopOf(s.queue);
      && top in s.queue && Before(top, e)
      && (top.hndl in s.tasks ==> s.tasks[top.hndl].tid == top)
      && (forall u | u in s.queue && u.hndl == top.hndl :: u == top)
      && (forall u :: u in Drop(s.queue, top) <==> u in s.queue && u != top)
  {
    TopBefore(s, e);
    TakenQueue(s.queue, TopOf(s.queue));
    hide TopOf, Drop;
  }

  lemma TakeUsesSlack(s: State, e: TaskIdentifier, h: Handle)
    requires Inv(s) && !s.loop.HoldsEntry() && e in s.queue && TopOf(s.queue) != e && h != e.hndl
    ensures var t := Take(s, TopOf(s.queue));
      IntervalsPositive(t) && Potential(t, h, e) + (if TopOf(s.queue).hndl == h then 1 else 0) <= Potential(s, h, e)
  {
    TopFacts(s, e);
    hide Inv, TopOf, Drop, Before;
    var top := TopOf(s.queue);
    var t := Take(s, top);
    if h in s.tasks {
    } else if h == top.hndl {
      assert HasEntryBefore(s.queue, h, e);
      assert !HasEntryBefore(t.queue, h, e);
    } else {
      assert HasEntryBefore(t.queue, h, e) ==> HasEntryBefore(s.queue, h, e);
    }
  }

  // ---------------------------------------------------------------------------------------
  // Every step

  // Between s and t nothing changes for handle h as seen from e, but time passes.
  lemma SamePotential(s: State, t: State, h: Handle, e: TaskIdentifier)
    requires IntervalsPositive(s) && IntervalsPositive(t)
    requires (h in s.tasks) == (h in t.tasks)
    requires h in s.tasks ==> s.tasks[h].tid == t.tasks[h].tid && s.tasks[h].interval == t.tasks[h].interval
    requires h in s.tasks ==> (s.loop.Holds(h) && !s.loop.Done?) == (t.loop.Holds(h) && !t.loop.Done?)
    requires h !in s.tasks ==> forall u: TaskIdentifier | u.hndl == h :: u in t.queue <==> u in s.queue
    requires s.clock <= t.clock
    ensures Potential(t, h, e) <= Potential(s, h, e)
  {
    hide Before;
  }

  // The first critical section either takes the top or changes only where the loop stands.
  lemma FirstSectionEffect(s: State, ev: Event)
    requires Inv(s) && Enabled(s, ev) && (ev.Peek? || ev.Wake?)
    ensures var t := Step(s, ev);
      && !s.loop.HoldsEntry() && t.tasks == s.tasks
      && (t.loop.Popped? ==>
            && s.queue != multiset{} && t.queue == Drop(s.queue, TopOf(s.queue))
            && t.loop.tid.hndl == TopOf(s.queue).hndl)
      && (!t.loop.Popped? ==> t.queue == s.queue && !t.loop.HoldsEntry())
  {
    hide Inv, Step, Enabled, TopOf, Drop;
    Steps(s, ev);
  }

  lemma TopIsGone(s: State)
    requires Inv(s) && s.queue != multiset{}
    ensures TopOf(s.queue) !in Drop(s.queue, TopOf(s.queue))
  {
    TopIn(s.queue);
    TakenQueue(s.queue, TopOf(s.queue));
    hide TopOf, Drop;
  }

  lemma FirstSectionPotential(s: State, ev: Event, h: Handle, e: TaskIdentifier)
    requires Inv(s) && Enabled(s, ev) && (ev.Peek? || ev.Wake?)
    requires e in s.queue && e in Step(s, ev).queue && h != e.hndl
    ensures IntervalsPositive(Step(s, ev))
    ensures Potential(Step(s, ev), h, e) + (if Takes(s, ev, h) then 1 else 0) <= Potential(s, h, e)
  {
    FirstSectionEffect(s, ev);
    hide Inv, TopOf, Before, WakesUp, HasEntryBefore, Potential, DistinctEntries, Step, Enabled, Drop;
    var t := Step(s, ev);
    if t.loop.Popped? {
      TopIsGone(s);
      TakeUsesSlack(s, e, h);
      SamePotential(Take(s, TopOf(s.queue)), t, h, e);
    } else {
      SamePotential(s, t, h, e);
    }
  }

  lemma EndIsRunning(s: State, ev: Event)
    requires GridInv(s) && Enabled(s, ev) && ev.End? && s.loop.tid.hndl in s.tasks
    ensures s.loop.Executing? && Running(s.tasks[s.loop.tid.hndl], s.clock) && s.clock <= ev.now
  {
  }

  lemma EndKeepsInterval(t: Task, now: int)
    requires t.interval > 0
    ensures EndJob(t, now).interval == t.interval
  {
  }

  lemma EndPotential(s: State, ev: Event, h: Handle, e: TaskIdentifier)
    requires Inv(s) && GridInv(s) && Enabled(s, ev) && ev.End? && h == s.loop.tid.hndl && h in s.tasks
    ensures IntervalsPositive(Step(s, ev))
    ensures Potential(Step(s, ev), h, e) <= Potential(s, h, e)
  {
    StepInv(s, ev);
    EndIsRunning(s, ev);
    hide Inv, GridInv, Step, Enabled, EndJob, HasEntryBefore, Before, Slack, SlackAfterRun, Running;
    Steps(s, ev);
    RunUsesSlack(s.tasks[h], s.clock, ev.now, e);
    EndKeepsInterval(s.tasks[h], ev.now);
  }

  // Looking a task up and running it leave the queue alone, and every other task.
  lemma DoJobEffect(s: State, ev: Event, h: Handle)
    requires Inv(s) && Enabled(s, ev) && (ev.Lookup? || ev.Begin? || ev.End?)
    requires ev.End? ==> h != s.loop.tid.hndl || h !in s.tasks
    ensures var t := Step(s, ev);
      && t.queue == s.queue && (h in s.tasks) == (h in t.tasks)
      && (h in s.tasks ==> t.tasks[h].tid == s.tasks[h].tid && t.tasks[h].interval == s.tasks[h].interval)
      && (h in s.tasks ==> (s.loop.Holds(h) && !s.loop.Done?) == (t.loop.Holds(h) && !t.loop.Done?))
  {
    hide Inv, Step, Enabled, EndJob, BeginJob;
    Steps(s, ev);
  }

  lemma DoJobPotential(s: State, ev: Event, h: Handle, e: TaskIdentifier)
    requires Inv(s) && GridInv(s) && Enabled(s, ev) && (ev.Lookup? || ev.Begin? || ev.End?)
    ensures IntervalsPositive(Step(s, ev))
    ensures Potential(Step(s, ev), h, e) <= Potential(s, h, e)
  {
    hide Inv, GridInv, Step, Enabled, Potential, EndJob;
    Steps(s, ev);
    if ev.End? && h == s.loop.tid.hndl && h in s.tasks {
      EndPotential(s, ev, h, e);
    } else {
      StepInv(s, ev);
      DoJobEffect(s, ev, h);
      SamePotential(s, Step(s, ev), h, e);
    }
  }

  lemma RemovePotential(s: State, h: Handle, e: TaskIdentifier)
    requires Inv(s) && h in s.tasks
    ensures HasEntryBefore(s.queue, h, e) ==> 1 <= Potential(s, h, e)
  {
    if HasEntryBefore(s.queue, h, e) {
      var t :| t in s.queue && t.hndl == h && Before(t, e);
      assert t == s.tasks[h].tid && !s.loop.Holds(h);
      QuotientAtLeast(0, e.nextRun - t.nextRun, s.tasks[h].interval);
    }
  }

  // The steps that neither take an entry nor touch a task in the loop.
  predicate IsOther(ev: Event) {
    !ev.Peek? && !ev.Wake? && !ev.Lookup? && !ev.Begin? && !ev.End?
  }

  // Nothing changes for handle h, and entries of a removed h stay as they are.
  ghost predicate Untouched(s: State, t: State, h: Handle) {
    && (h in s.tasks) == (h in t.tasks) && (h in s.tasks ==> t.tasks[h] == s.tasks[h])
    && (h in s.tasks ==> (s.loop.Holds(h) && !s.loop.Done?) == (t.loop.Holds(h) && !t.loop.Done?))
    && (h !in s.tasks ==> forall u: TaskIdentifier | u.hndl == h :: u in t.queue <==> u in s.queue)
  }

  lemma RequeueEffect(s: State, h: Handle)
    requires Inv(s) && Enabled(s, Requeue)
    ensures Untouched(s, Step(s, Requeue), h)
  {
    hide Inv, Step, Enabled, Put;
    Steps(s, Requeue);
    if s.loop.tid.hndl in s.tasks { HeldFacts(s); }
  }

  lemma InsertEffect(s: State, g: Handle, interval: int, h: Handle)
    requires Inv(s) && Enabled(s, Insert(g, interval)) && g != h
    ensures Untouched(s, Step(s, Insert(g, interval)), h)
  {
    hide Inv, Step, Enabled, Put;
    Steps(s, Insert(g, interval));
  }

  lemma ThreadEffect(s: State, ev: Event, h: Handle)
    requires Inv(s) && Enabled(s, ev) && IsOther(ev) && !ev.Requeue? && !ev.Insert? && (ev.Remove? ==> ev.hndl != h)
    ensures Untouched(s, Step(s, ev), h)
  {
    hide Inv, Step, Enabled;
    Steps(s, ev);
    if s.loop.HoldsEntry() { LoopJoinable(s); }
  }

  lemma OtherEffect(s: State, ev: Event, h: Handle)
    requires Inv(s) && Enabled(s, ev) && IsOther(ev)
    requires (ev.Insert? || ev.Remove?) ==> ev.hndl != h
    ensures Untouched(s, Step(s, ev), h)
  {
    match ev {
      case Requeue => RequeueEffect(s, h); hide *;
      case Insert(g, interval) => InsertEffect(s, g, interval, h); hide *;
      case _ => ThreadEffect(s, ev, h); hide *;
    }
  }

  lemma OtherPotential(s: State, ev: Event, h: Handle, e: TaskIdentifier)
    requires Inv(s) && Enabled(s, ev) && IsOther(ev)
    requires ev.Insert? ==> ev.hndl != h
    ensures IntervalsPositive(Step(s, ev))
    ensures Potential(Step(s, ev), h, e) <= Potential(s, h, e)
  {
    StepInv(s, ev);
    if ev.Remove? && ev.hndl == h {
      hide Inv, Before, Slack, SlackAfterRun;
      if h in s.tasks { RemovePotential(s, h, e); }
    } else {
      OtherEffect(s, ev, h);
      hide Inv, Step, Enabled, HasEntryBefore, Before, Potential;
      SamePotential(s, Step(s, ev), h, e);
    }
  }

  /** Each time h is taken its potential drops; no other step that leaves e queued raises it. */
  lemma PotentialStep(s: State, ev: Event, h: Handle, e: TaskIdentifier)
    requires Inv(s) && GridInv(s) && Enabled(s, ev)
    requires e in s.queue && e in Step(s, ev).queue && h != e.hndl
    requires ev.Insert? ==> ev.hndl != h
    ensures IntervalsPositive(Step(s, ev))
    ensures Potential(Step(s, ev), h, e) + (if Takes(s, ev, h) then 1 else 0) <= Potential(s, h, e)
  {
    if ev.Peek? || ev.Wake? {
      FirstSectionPotential(s, ev, h, e);
    } else if ev.Lookup? || ev.Begin? || ev.End? {
      hide Potential, Inv, Step;
      DoJobPotential(s, ev, h, e);
    } else {
      hide Potential, Inv, Step;
      OtherPotential(s, ev, h, e);
    }
  }

  // ---------------------------------------------------------------------------------------
  // Runs

  // How often h is taken in events a..b.
  ghost function TimesTaken(ss: seq<State>, es: seq<Event>, a: nat, b: nat, h: Handle): nat
    requires |ss| == |es| + 1 && a <= b <= |es|
  {
    if a == b then 0 else TimesTaken(ss, es, a, b - 1, h) + if TakesAt(ss, es, b - 1, h) then 1 else 0
  }

  // e stays queued from state a to state b.
  ghost predicate StaysQueued(ss: seq<State>, a: nat, b: nat, e: TaskIdentifier)
    requires a <= b < |ss|
  {
    forall k | a <= k <= b :: e in ss[k].queue
  }

  /** Bounded bypass: while an entry e stays queued, any other task or removed entry that exists
      at the start is taken at most Potential times: for a queued task with key s and interval d
      that is floor((e.nextRun - s) / d) + 1, and at most three once e is due. Additions and removals
      may go on meanwhile. */
  lemma {:induction false} BoundedBypass(ss: seq<State>, es: seq<Event>, a: nat, b: nat, h: Handle, e: TaskIdentifier)
    requires IsRun(ss, es) && a <= b <= |es| && StaysQueued(ss, a, b, e)
    requires h != e.hndl && h < ss[a].next && h !in ss[a].reserved
    ensures IntervalsPositive(ss[a]) && IntervalsPositive(ss[b])
    ensures h < ss[b].next && h !in ss[b].reserved
    ensures TimesTaken(ss, es, a, b, h) + Potential(ss[b], h, e) <= Potential(ss[a], h, e)
  {
    hide Inv, GridInv, IsRun, Step, Enabled, Potential;
    RunInv(ss, es, a);
    RunInv(ss, es, b);
    if a < b {
      RunInv(ss, es, b - 1);
      RunGrid(ss, es, b - 1);
      BoundedBypass(ss, es, a, b - 1, h, e);
      OldHandlesStay(ss[b - 1], es[b - 1], h);
      PotentialStep(ss[b - 1], es[b - 1], h, e);
    }
  }

  lemma DueCap(s: State, h: Handle, e: TaskIdentifier)
    requires IntervalsPositive(s) && IsDue(s, e)
    ensures Potential(s, h, e) <= 3
  {
    hide Before;
  }

  /** Once e is due, whatever the key and the interval of another task are, it is taken at most
      three times before e. */
  lemma BypassOnceDue(ss: seq<State>, es: seq<Event>, a: nat, b: nat, h: Handle, e: TaskIdentifier)
    requires IsRun(ss, es) && a <= b <= |es| && StaysQueued(ss, a, b, e) && IsDue(ss[a], e)
    requires h != e.hndl && h < ss[a].next && h !in ss[a].reserved
    ensures TimesTaken(ss, es, a, b, h) <= 3
  {
    hide IsRun, Potential;
    BoundedBypass(ss, es, a, b, h, e);
    DueCap(ss[a], h, e);
  }

  lemma OldHandlesStay(s: State, ev: Event, h: Handle)
    requires Inv(s) && Enabled(s, ev) && h < s.next && h !in s.reserved
    ensures h < Step(s, ev).next && h !in Step(s, ev).reserved
    ensures ev.Insert? ==> ev.hndl != h
  {
    hide Inv, Step, Enabled, TopOf, Put, Drop, BeginJob, EndJob;
    Steps(s, ev);
  }

  // ---------------------------------------------------------------------------------------
  // All other handles together

  // The potentials of the handles below n other than e's own.
  ghost function Measure(s: State, n: nat, e: TaskIdentifier): nat
    requires IntervalsPositive(s)
  {
    if n == 0 then 0 else Measure(s, n - 1, e) + if n - 1 == e.hndl then 0 else Potential(s, n - 1, e)
  }

  // The handle a step takes, or none.
  ghost predicate TakesBelow(s: State, ev: Event, n: nat)
    requires Enabled(s, ev) && IntervalsPositive(s)
  {
    (ev.Peek? || ev.Wake?) && Step(s, ev).loop.Popped? && Step(s, ev).loop.tid.hndl < n
  }

  lemma {:induction false} MeasureStep(s: State, ev: Event, n: nat, e: TaskIdentifier)
    requires Inv(s) && GridInv(s) && Enabled(s, ev) && (ev.Insert? ==> IsDue(s, e))
    requires e in s.queue && e in Step(s, ev).queue
    requires TakesBelow(s, ev, n) ==> Step(s, ev).loop.tid.hndl != e.hndl
    ensures IntervalsPositive(Step(s, ev))
    ensures Measure(Step(s, ev), n, e) + (if TakesBelow(s, ev, n) then 1 else 0)
         <= Measure(s, n, e) + if ev.Insert? && ev.hndl < n then 3 else 0
  {
    hide Inv, GridInv, Step, Enabled, Potential;
    StepInv(s, ev);
    if n > 0 {
      MeasureStep(s, ev, n - 1, e);
      if n - 1 != e.hndl {
        if ev.Insert? && ev.hndl == n - 1 {
          InsertedCap(s, ev, e);
        } else {
          PotentialStep(s, ev, n - 1, e);
        }
      }
    }
  }

  // A task added while e is due adds at most three.
  lemma InsertedCap(s: State, ev: Event, e: TaskIdentifier)
    requires Inv(s) && Enabled(s, ev) && ev.Insert? && IsDue(s, e)
    ensures IntervalsPositive(Step(s, ev))
    ensures Potential(Step(s, ev), ev.hndl, e) <= 3
  {
    StepInv(s, ev);
    assert IsDue(Step(s, ev), e);
    hide Inv, Step, Potential;
    DueCap(Step(s, ev), ev.hndl, e);
  }

  // Handles the counter has not reached have nothing queued.
  lemma FreshPotential(s: State, h: Handle, e: TaskIdentifier)
    requires Inv(s) && h >= s.next
    ensures Potential(s, h, e) == 0
  {
    hide Before;
  }

  lemma {:induction false} MeasureBeyond(s: State, n: nat, e: TaskIdentifier)
    requires Inv(s) && n >= s.next
    ensures Measure(s, n, e) == Measure(s, s.next, e)
  {
    if n > s.next {
      MeasureBeyond(s, n - 1, e);
      FreshPotential(s, n - 1, e);
    }
  }

  // How many entries are taken in events a..b.
  ghost function TotalTaken(ss: seq<State>, es: seq<Event>, a: nat, b: nat): nat
    requires |ss| == |es| + 1 && a <= b <= |es|
  {
    if a == b then 0
    else TotalTaken(ss, es, a, b - 1) + if (es[b - 1].Peek? || es[b - 1].Wake?) && ss[b].loop.Popped? then 1 else 0
  }

  // A step after which e is still queued took some other handle, if any.
  lemma TakesOther(s: State, ev: Event, e: TaskIdentifier)
    requires Inv(s) && Enabled(s, ev) && (ev.Peek? || ev.Wake?) && Step(s, ev).loop.Popped?
    requires e in s.queue && e in Step(s, ev).queue
    ensures Step(s, ev).loop.tid.hndl != e.hndl && Step(s, ev).loop.tid.hndl < s.next
  {
    FirstSectionEffect(s, ev);
    TopFactsOf(s, e);
    hide Inv, Step, Enabled, TopOf, Drop;
  }

  lemma TopFactsOf(s: State, e: TaskIdentifier)
    requires Inv(s) && e in s.queue
    ensures TopOf(s.queue).hndl < s.next
    ensures e in Drop(s.queue, TopOf(s.queue)) ==> TopOf(s.queue).hndl != e.hndl
  {
    TopIn(s.queue);
    TopIsGone(s);
    hide TopOf, Drop;
  }

  lemma NextGrows(s: State, ev: Event)
    requires Inv(s) && Enabled(s, ev)
    ensures s.next <= Step(s, ev).next
  {
    hide Step, Enabled, TopOf, Put, Drop, BeginJob, EndJob;
    Steps(s, ev);
  }

  // How many tasks are added in events a..b.
  function Additions(es: seq<Event>, a: nat, b: nat): nat
    requires a <= b <= |es|
  {
    if a == b then 0 else Additions(es, a, b - 1) + if es[b - 1].Insert? then 1 else 0
  }

  lemma DueStays(s: State, ev: Event, e: TaskIdentifier)
    requires Enabled(s, ev) && IntervalsPositive(s) && IsDue(s, e)
    ensures IsDue(Step(s, ev), e)
  {
  }

  /** While e stays queued the loop takes at most Measure other entries, and three more for each
      task that is added; additions are only counted once e is due. */
  lemma {:induction false} OvertakenBoundedly(ss: seq<State>, es: seq<Event>, a: nat, b: nat, e: TaskIdentifier)
    requires IsRun(ss, es) && a <= b <= |es| && StaysQueued(ss, a, b, e)
    requires IsDue(ss[a], e) || forall k | a <= k < b :: !es[k].Insert?
    ensures IntervalsPositive(ss[a]) && IntervalsPositive(ss[b]) && (IsDue(ss[a], e) ==> IsDue(ss[b], e))
    ensures TotalTaken(ss, es, a, b) + Measure(ss[b], ss[b].next, e)
         <= Measure(ss[a], ss[a].next, e) + 3 * Additions(es, a, b)
  {
    hide Inv, GridInv, IsRun, Step, Enabled, Measure, IsDue;
    RunInv(ss, es, a);
    RunInv(ss, es, b);
    if a < b {
      RunInv(ss, es, b - 1);
      RunGrid(ss, es, b - 1);
      OvertakenBoundedly(ss, es, a, b - 1, e);
      var s, ev := ss[b - 1], es[b - 1];
      if (ev.Peek? || ev.Wake?) && ss[b].loop.Popped? { TakesOther(s, ev, e); }
      if IsDue(s, e) { DueStays(s, ev, e); }
      NextGrows(s, ev);
      MeasureStep(s, ev, ss[b].next, e);
      MeasureBeyond(s, ss[b].next, e);
    }
  }

  /** An entry leaves the queue only by being taken, and it does so before the loop has taken more
      than Measure others, and three more for each addition once the entry is due. */
  lemma EventuallyTaken(ss: seq<State>, es: seq<Event>, a: nat, b: nat, e: TaskIdentifier) returns (k: nat)
    requires IsRun(ss, es) && a <= b <= |es| && e in ss[a].queue
    requires IsDue(ss[a], e) || forall i | a <= i < b :: !es[i].Insert?
    requires IntervalsPositive(ss[a])
    requires TotalTaken(ss, es, a, b) > Measure(ss[a], ss[a].next, e) + 3 * Additions(es, a, b)
    ensures a <= k < b && e in ss[k].queue && e !in ss[k + 1].queue && TakesAt(ss, es, k, e.hndl)
  {
    hide IsRun, Measure;
    if StaysQueued(ss, a, b, e) {
      OvertakenBoundedly(ss, es, a, b, e);
    }
    k := FirstGone(ss, a, b, e);
    LeftByTaking(ss, es, k, e);
  }

  lemma LeftByTaking(ss: seq<State>, es: seq<Event>, k: nat, e: TaskIdentifier)
    requires IsRun(ss, es) && k < |es| && e in ss[k].queue && e !in ss[k + 1].queue
    ensures TakesAt(ss, es, k, e.hndl)
  {
    RunInv(ss, es, k);
    LeavesByTaking(ss[k], es[k], e);
  }

  lemma {:induction false} FirstGone(ss: seq<State>, a: nat, b: nat, e: TaskIdentifier) returns (k: nat)
    requires a <= b < |ss| && e in ss[a].queue && !StaysQueued(ss, a, b, e)
    ensures a <= k < b && e in ss[k].queue && e !in ss[k + 1].queue
    decreases b - a
  {
    if e in ss[a + 1].queue {
      k := FirstGone(ss, a + 1, b, e);
    } else {
      k := a;
    }
  }

  lemma LeavesByTaking(s: State, ev: Event, e: TaskIdentifier)
    requires Inv(s) && Enabled(s, ev) && e in s.queue && e !in Step(s, ev).queue
    ensures (ev.Peek? || ev.Wake?) && Step(s, ev).loop.Popped? && Step(s, ev).loop.tid.hndl == e.hndl
  {
    hide Inv, Step, Enabled, TopOf, Put, Drop, BeginJob, EndJob;
    Steps(s, ev);
    if ev.Peek? || ev.Wake? { FirstSectionEffect(s, ev); }
  }

  /** While an entry is due, the loop never waits: its first critical section takes an entry. */
  lemma DueMeansNoWait(s: State, now: int, e: TaskIdentifier)
    requires Inv(s) && Enabled(s, Peek(now)) && e in s.queue && e.nextRun <= now
    ensures Step(s, Peek(now)).loop.Popped?
  {
    TopBefore(s, e);
    hide Inv, TopOf;
  }

  // ---------------------------------------------------------------------------------------
  // Progress

  // The steps of the loop itself.
  predicate IsLoopEvent(ev: Event) {
    ev.Check? || ev.Peek? || ev.Wake? || ev.Lookup? || ev.Begin? || ev.End? || ev.Requeue?
  }

  function LoopEvents(es: seq<Event>, a: nat, b: nat): nat
    requires a <= b <= |es|
  {
    if a == b then 0 else LoopEvents(es, a, b - 1) + if IsLoopEvent(es[b - 1]) then 1 else 0
  }

  // The loop test does not find a stop requested.
  predicate GoesOn(s: State, ev: Event) { ev.Check? ==> !s.stopRequested }

  // How many steps the loop is from taking an entry, at most.
  function Rank(l: Loop): nat {
    match l
    case Exited => 0
    case Ready => 1
    case Top => 2
    case Done(_) => 3
    case Waiting(_) => 3
    case Executing(_) => 4
    case Found(_) => 5
    case Popped(_) => 6
  }

  // A step of the loop takes an entry or comes closer to it; other threads leave the loop alone.
  predicate Advances(s: State, ev: Event, t: State) {
    && !t.loop.Exited?
    && (IsLoopEvent(ev) ==>
          if (ev.Peek? || ev.Wake?) && t.loop.Popped? then Rank(s.loop) > 0 else Rank(t.loop) < Rank(s.loop))
    && (!IsLoopEvent(ev) ==> t.loop == s.loop)
  }

  lemma RankOfJob(s: State, ev: Event)
    requires Enabled(s, ev) && IntervalsPositive(s) && (ev.Lookup? || ev.Begin? || ev.End? || ev.Requeue?)
    ensures Advances(s, ev, Step(s, ev))
  {
    hide IntervalsPositive, Step, Enabled, Put, BeginJob, EndJob;
    Steps(s, ev);
  }

  lemma RankOfWake(s: State, now: int)
    requires Enabled(s, Wake(now)) && IntervalsPositive(s)
    ensures Advances(s, Wake(now), Step(s, Wake(now)))
  {
    hide IntervalsPositive, Step, Enabled, TopOf, Drop;
    Steps(s, Wake(now));
  }

  lemma RankOfOthers(s: State, ev: Event)
    requires Inv(s) && Enabled(s, ev) && !s.loop.Exited? && GoesOn(s, ev) && (ev.Check? || !IsLoopEvent(ev))
    ensures Advances(s, ev, Step(s, ev))
  {
    hide Inv, Step, Enabled;
    LoopJoinable(s);
    Steps(s, ev);
  }

  lemma RankStep(s: State, ev: Event, e: TaskIdentifier)
    requires Inv(s) && Enabled(s, ev) && e in s.queue && IsDue(s, e) && !s.loop.Exited? && GoesOn(s, ev)
    ensures Advances(s, ev, Step(s, ev))
  {
    match ev {
      case Peek(now) => DueMeansNoWait(s, now, e); PeekStarts(s, ev); hide Step, Inv, Enabled;
      case Wake(now) => RankOfWake(s, now); hide *;
      case Check => RankOfOthers(s, ev); hide *;
      case Lookup => RankOfJob(s, ev); hide *;
      case Begin(_) => RankOfJob(s, ev); hide *;
      case End(_) => RankOfJob(s, ev); hide *;
      case Requeue => RankOfJob(s, ev); hide *;
      case _ => RankOfOthers(s, ev); hide *;
    }
  }

  lemma PeekStarts(s: State, ev: Event)
    requires Enabled(s, ev) && ev.Peek?
    ensures Rank(s.loop) > 0 && IsLoopEvent(ev)
  {
  }

  // While a due entry stays queued the loop takes an entry in any seven of its steps.
  lemma {:induction false} LoopAdvances(ss: seq<State>, es: seq<Event>, a: nat, b: nat, e: TaskIdentifier)
    requires IsRun(ss, es) && a <= b <= |es| && StaysQueued(ss, a, b, e) && IsDue(ss[a], e)
    requires !ss[a].loop.Exited? && forall k | a <= k < b :: GoesOn(ss[k], es[k])
    ensures IsDue(ss[b], e) && !ss[b].loop.Exited?
    ensures LoopEvents(es, a, b) + Rank(ss[b].loop) <= 6 * TotalTaken(ss, es, a, b) + Rank(ss[a].loop)
  {
    hide Inv, IsRun, Step, Enabled, IsDue, IsLoopEvent, GoesOn;
    if a < b {
      LoopAdvances(ss, es, a, b - 1, e);
      RunInv(ss, es, b - 1);
      DueStays(ss[b - 1], es[b - 1], e);
      assert GoesOn(ss[b - 1], es[b - 1]);
      RankStep(ss[b - 1], es[b - 1], e);
      TakesAreLoopEvents(es[b - 1]);
    }
  }

  lemma TakesAreLoopEvents(ev: Event)
    ensures ev.Peek? || ev.Wake? ==> IsLoopEvent(ev)
  {
  }

  // The handles other than e's own that can still be taken.
  ghost function Rivals(s: State, e: TaskIdentifier): set<Handle> {
    s.tasks.Keys + (set t | t in s.queue :: t.hndl) - {e.hndl}
  }

  ghost function RivalsBelow(s: State, n: nat, e: TaskIdentifier): set<Handle> {
    set h | h in Rivals(s, e) && h < n
  }

  lemma NoRival(s: State, h: Handle, e: TaskIdentifier)
    requires IntervalsPositive(s) && h !in Rivals(s, e) && h != e.hndl
    ensures Potential(s, h, e) == 0
  {
    hide Before;
  }

  lemma {:induction false} MeasureOnceDue(s: State, n: nat, e: TaskIdentifier)
    requires IntervalsPositive(s) && IsDue(s, e)
    ensures Measure(s, n, e) <= 3 * |RivalsBelow(s, n, e)|
  {
    hide Potential, Rivals;
    if n > 0 {
      var below, all := RivalsBelow(s, n - 1, e), RivalsBelow(s, n, e);
      MeasureOnceDue(s, n - 1, e);
      if n - 1 in Rivals(s, e) {
        assert all == below + {n - 1};
        DueCap(s, n - 1, e);
      } else {
        assert all == below;
        if n - 1 != e.hndl { NoRival(s, n - 1, e); }
      }
    }
  }

  lemma AllRivals(s: State, e: TaskIdentifier)
    requires Inv(s)
    ensures RivalsBelow(s, s.next, e) == Rivals(s, e)
  {
    hide DistinctEntries;
  }

  /** Every overdue entry is dispatched: from any state in which the loop runs and e is due, e is
      taken before the loop has made eighteen steps for each other task or entry there is, eighteen
      for each task added meanwhile, and six more, unless the loop test finds a stop requested.
      Additions, removals and the other threads may interleave in any way. */
  lemma OverdueIsDispatched(ss: seq<State>, es: seq<Event>, a: nat, b: nat, e: TaskIdentifier) returns (k: nat)
    requires IsRun(ss, es) && a <= b <= |es| && e in ss[a].queue && e.nextRun <= ss[a].clock
    requires !ss[a].loop.Exited? && forall i | a <= i < b :: GoesOn(ss[i], es[i])
    requires LoopEvents(es, a, b) >= 18 * (|Rivals(ss[a], e)| + Additions(es, a, b)) + 6
    ensures a <= k < b && e in ss[k].queue && e !in ss[k + 1].queue && TakesAt(ss, es, k, e.hndl)
  {
    hide IsRun, Measure, GoesOn, Rivals, Inv, Step, Enabled, RivalsBelow;
    if StaysQueued(ss, a, b, e) {
      RunInv(ss, es, a);
      OvertakenBoundedly(ss, es, a, b, e);
      MeasureOnceDue(ss[a], ss[a].next, e);
      AllRivals(ss[a], e);
      LoopAdvances(ss, es, a, b, e);
    }
    k := FirstGone(ss, a, b, e);
    LeftByTaking(ss, es, k, e);
  }

  /** And the loop is never stuck: unless it has exited, one of its steps is possible at any later
      time. */
  lemma LoopIsEnabled(s: State, now: int) returns (ev: Event)
    requires Inv(s) && !s.loop.Exited? && now >= s.clock && (s.loop.Waiting? ==> now >= s.loop.tid.nextRun)
    ensures IsLoopEvent(ev) && Enabled(s, ev)
  {
    match s.loop {
      case Top => ev := Check;
      case Ready => ev := Peek(now);
      case Waiting(_) => ev := Wake(now);
      case Popped(_) => ev := Lookup;
      case Found(_) => ev := Begin(now);
      case Executing(_) => ev := End(now);
      case Done(_) => ev := Requeue;
    }
    hide Inv;
  }
}
