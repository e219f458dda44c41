/** The periodic task scheduler as a state machine: one atomic step per critical section of the
    event loop, per half of doJob, and per call of another thread. */
module SchedulerModel {
  import opened Common

  type Handle = nat
  const SECOND: int := 1000 * MS

  datatype TaskIdentifier = TaskIdentifier(hndl: Handle, nextRun: int)

  // operator<=>: by next run, ties by handle.
  predicate Before(a: TaskIdentifier, b: TaskIdentifier) {
    a.nextRun < b.nextRun || (a.nextRun == b.nextRun && a.hndl < b.hndl)
  }

  datatype Task = Task(tid: TaskIdentifier, interval: int, startTime: int, execCount: int)

  function NewTask(h: Handle, interval: int): Task {
    Task(TaskIdentifier(h, TIME_MIN), if interval > 0 then interval else SECOND, 0, 0)
  }

  /** doJob before the job is called. */
  function BeginJob(t: Task, now: int): (r: Task)
    ensures r.tid == t.tid && r.interval == t.interval
  {
    if t.execCount == 0 then t.(startTime := now) else t
  }

  /** doJob after the job has returned: count the run, skip grid points that are long past. */
  function EndJob(t: Task, now: int): (r: Task)
    requires t.interval > 0
    ensures r.tid.hndl == t.tid.hndl && r.interval == t.interval
  {
    var count := t.execCount + 1;
    var gap := now - (t.startTime + count * t.interval);
    var count' := if gap > t.interval then count + gap / t.interval + 1 else count;
    t.(execCount := count', tid := t.tid.(nextRun := t.startTime + count' * t.interval))
  }

  // ---------------------------------------------------------------------------------------
  // States

  /** Where the event loop stands. `Top` is the loop test, `Ready` the start of the first
      critical section, `Exited` covers a loop that has ended or was never started. */
  datatype Loop =
    | Exited
    | Top
    | Ready
    | Waiting(tid: TaskIdentifier)    // in wait_until for this entry
    | Popped(tid: TaskIdentifier)     // after the first critical section
    | Found(tid: TaskIdentifier)      // after the second
    | Executing(tid: TaskIdentifier)  // inside job()
    | Done(tid: TaskIdentifier)       // after doJob
  {
    // The loop has taken an entry out of the queue and not yet dealt with it.
    predicate HoldsEntry() { Popped? || Found? || Executing? || Done? }

    predicate Holds(h: Handle) { HoldsEntry() && tid.hndl == h }
  }

  type Queue = multiset<TaskIdentifier>

  function Put(q: Queue, t: TaskIdentifier): (r: Queue)
    ensures forall u :: u in r <==> u in q || u == t
  {
    q + multiset{t}
  }

  function Drop(q: Queue, t: TaskIdentifier): (r: Queue)
    ensures forall u | u in r :: u in q
    ensures forall u | u in q && u != t :: u in r
  {
    q - multiset{t}
  }

  datatype State = State(
    next: Handle, reserved: set<Handle>,
    tasks: map<Handle, Task>, queue: Queue,
    loop: Loop, joinable: bool, stopRequested: bool, clock: int)

  predicate Initial(s: State) {
    && s.next == 0 && s.reserved == {} && s.tasks == map[] && s.queue == multiset{}
    && s.loop == Exited && !s.joinable && !s.stopRequested && s.clock >= TIME_MIN
  }

  predicate IsTop(q: Queue, t: TaskIdentifier) {
    t in q && forall u | u in q :: !Before(u, t)
  }

  lemma {:induction false} TopExists(q: Queue) returns (t: TaskIdentifier)
    requires q != multiset{}
    ensures IsTop(q, t)
    decreases |q|
  {
    t :| t in q;
    var rest := q - multiset{t};
    if rest != multiset{} {
      var u := TopExists(rest);
      assert forall v | v in q :: v == t || v in rest;
      if Before(u, t) {
        t := u;
      }
    } else {
      assert q == rest + multiset{t};
    }
  }

  lemma TopUnique(q: Queue, t: TaskIdentifier, u: TaskIdentifier)
    requires IsTop(q, t) && IsTop(q, u)
    ensures t == u
  {
  }

  // What std::priority_queue's top returns.
  function TopOf(q: Queue): (t: TaskIdentifier)
    requires q != multiset{}
    ensures IsTop(q, t)
  {
    assert exists t :: t in q && IsTop(q, t) by {
      var t := TopExists(q);
    }
    assert forall t, u | IsTop(q, t) && IsTop(q, u) :: t == u by {
      forall t, u | IsTop(q, t) && IsTop(q, u) ensures t == u { TopUnique(q, t, u); }
    }
    var t :| t in q && IsTop(q, t);
    t
  }

  // ---------------------------------------------------------------------------------------
  // Steps

  datatype Event =
    | Reserve(skipped: nat)                // addTask takes its handle; other schedulers may have taken some
    | Insert(hndl: Handle, interval: int)  // addTask's critical section
    | Remove(hndl: Handle)
    | Run | RequestStop | Join             // run(); stopAsync(); the join in stop()
    | Check                                // the loop test
    | Peek(now: int)                       // first critical section, up to the wait
    | Wake(now: int)                       // first critical section, after the wait
    | Lookup                               // second critical section
    | Begin(now: int) | End(now: int)      // doJob around job()
    | Requeue                              // third critical section

  predicate IsTimed(e: Event) { e.Peek? || e.Wake? || e.Begin? || e.End? }

  // What makes wait_until return: the time is reached, the queue has a new top, or a stop.
  ghost predicate WakesUp(s: State, t: TaskIdentifier, now: int) {
    || now >= t.nextRun
    || s.queue == multiset{} || Before(TopOf(s.queue), t)
    || s.stopRequested
  }

  /** The environment: the clock does not go back, handles come from addTask's own counter, a
      joined thread has ended, and each loop event happens where the loop stands. */
  ghost predicate Enabled(s: State, e: Event) {
    (IsTimed(e) ==> e.now >= s.clock) &&
    match e
    case Reserve(_) => true
    case Insert(h, _) => h in s.reserved
    case Remove(_) => true
    case Run => true
    case RequestStop => true
    case Join => s.loop.Exited?
    case Check => s.loop.Top?
    case Peek(_) => s.loop.Ready?
    case Wake(now) => s.loop.Waiting? && WakesUp(s, s.loop.tid, now)
    case Lookup => s.loop.Popped?
    case Begin(_) => s.loop.Found?
    case End(_) => s.loop.Executing?
    case Requeue => s.loop.Done?
  }

  function Take(s: State, t: TaskIdentifier): State {
    s.(queue := Drop(s.queue, t), loop := Popped(t))
  }

  function Advance(s: State, e: Event): State {
    if IsTimed(e) then s.(clock := e.now) else s
  }

  /** try_emplace and push: a handle that is already in the map adds nothing. */
  function InsertTask(s: State, h: Handle, interval: int): State {
    var t := s.(reserved := s.reserved - {h});
    if h in s.tasks then t
    else t.(tasks := s.tasks[h := NewTask(h, interval)],
            queue := Put(s.queue, TaskIdentifier(h, TIME_MIN)))
  }

  ghost predicate IntervalsPositive(s: State) {
    forall h | h in s.tasks :: s.tasks[h].interval > 0
  }

  function RunLoop(s: State): State {
    if s.joinable then s else s.(joinable := true, stopRequested := false, loop := Top)
  }

  ghost function PeekTop(s: State, now: int): State {
    if s.queue == multiset{} then s.(loop := Top)
    else if TopOf(s.queue).nextRun > now then s.(loop := Waiting(TopOf(s.queue)))
    else Take(s, TopOf(s.queue))
  }

  ghost function WakeUp(s: State): State
    requires s.loop.Waiting?
  {
    if s.queue != multiset{} && TopOf(s.queue).hndl == s.loop.tid.hndl then
      Take(s, TopOf(s.queue)).(loop := Popped(s.loop.tid))
    else s.(loop := Top)
  }

  function LookupTask(s: State): State
    requires s.loop.HoldsEntry()
  {
    s.(loop := if s.loop.tid.hndl in s.tasks then Found(s.loop.tid) else Top)
  }

  /** A cancelled task's doJob returns at once. */
  function BeginTask(s: State, now: int): State
    requires s.loop.HoldsEntry()
  {
    var h := s.loop.tid.hndl;
    if h in s.tasks then s.(tasks := s.tasks[h := BeginJob(s.tasks[h], now)], loop := Executing(s.loop.tid))
    else s.(loop := Done(s.loop.tid))
  }

  predicate HeldIsPositive(s: State)
    requires s.loop.HoldsEntry()
  {
    s.loop.tid.hndl in s.tasks ==> s.tasks[s.loop.tid.hndl].interval > 0
  }

  function EndTask(s: State, now: int): State
    requires s.loop.HoldsEntry() && HeldIsPositive(s)
  {
    var h := s.loop.tid.hndl;
    if h in s.tasks then s.(tasks := s.tasks[h := EndJob(s.tasks[h], now)], loop := Done(s.loop.tid))
    else s.(loop := Done(s.loop.tid))
  }

  function RequeueTask(s: State): State
    requires s.loop.HoldsEntry()
  {
    var h := s.loop.tid.hndl;
    if h in s.tasks then s.(queue := Put(s.queue, s.tasks[h].tid), loop := Top) else s.(loop := Top)
  }

  ghost function Apply(s: State, e: Event): State
    requires Enabled(s, e) && IntervalsPositive(s)
  {
    match e
    case Reserve(skipped) => s.(next := s.next + skipped + 1, reserved := s.reserved + {s.next + skipped})
    case Insert(h, interval) => InsertTask(s, h, interval)
    case Remove(h) => s.(tasks := s.tasks - {h})
    case Run => RunLoop(s)
    case RequestStop => s.(stopRequested := s.joinable || s.stopRequested)
    case Join => s.(joinable := false)
    case Check => s.(loop := if s.stopRequested then Exited else Ready)
    case Peek(now) => PeekTop(s, now)
    case Wake(_) => WakeUp(s)
    case Lookup => LookupTask(s)
    case Begin(now) => BeginTask(s, now)
    case End(now) => EndTask(s, now)
    case Requeue => RequeueTask(s)
  }

  ghost function Step(s: State, e: Event): State
    requires Enabled(s, e) && IntervalsPositive(s)
  {
    Advance(Apply(s, e), e)
  }

  /** The steps one by one, for proofs that leave the step function closed. */
  lemma Steps(s: State, e: Event)
    requires Enabled(s, e) && IntervalsPositive(s)
    ensures e.Reserve? ==>
      Step(s, e) == s.(next := s.next + e.skipped + 1, reserved := s.reserved + {s.next + e.skipped})
    ensures e.Insert? ==> e.hndl in s.reserved && Step(s, e) == InsertTask(s, e.hndl, e.interval)
    ensures e.Remove? ==> Step(s, e) == s.(tasks := s.tasks - {e.hndl})
    ensures e.Run? ==> Step(s, e) == RunLoop(s)
    ensures e.RequestStop? ==> Step(s, e) == s.(stopRequested := s.joinable || s.stopRequested)
    ensures e.Join? ==> s.loop.Exited? && Step(s, e) == s.(joinable := false)
    ensures e.Check? ==> s.loop.Top? && Step(s, e) == s.(loop := if s.stopRequested then Exited else Ready)
    ensures e.Peek? ==> s.loop.Ready? && Step(s, e) == PeekTop(s, e.now).(clock := e.now)
    ensures e.Wake? ==> s.loop.Waiting? && Step(s, e) == WakeUp(s).(clock := e.now)
    ensures e.Lookup? ==> s.loop.Popped? && Step(s, e) == LookupTask(s)
    ensures e.Begin? ==> s.loop.Found? && Step(s, e) == BeginTask(s, e.now).(clock := e.now)
    ensures e.End? ==> s.loop.Executing? && HeldIsPositive(s) && Step(s, e) == EndTask(s, e.now).(clock := e.now)
    ensures e.Requeue? ==> s.loop.Done? && Step(s, e) == RequeueTask(s)
    ensures IsTimed(e) ==> s.clock <= e.now
  {
  }

  // ---------------------------------------------------------------------------------------
  // The invariant

  // Queued handles are distinct.
  ghost predicate DistinctEntries(q: Queue) {
    && (forall t | t in q :: q[t] == 1)
    && (forall t, u | t in q && u in q && t.hndl == u.hndl :: t == u)
  }

  // Handles come from the counter, each task is filed under its own.
  ghost predicate HandlesOk(s: State) {
    && (forall h | h in s.reserved :: h < s.next && h !in s.tasks && !s.loop.Holds(h))
    && (forall t | t in s.queue :: t.hndl < s.next && t.hndl !in s.reserved)
    && (forall h | h in s.tasks :: h < s.next && s.tasks[h].tid.hndl == h)
    && (s.loop.Waiting? || s.loop.HoldsEntry() ==> s.loop.tid.hndl < s.next)
    && (!s.joinable ==> s.loop.Exited?)
  }

  // Every live task has exactly one entry, under its own key, unless the loop holds it; an
  // entry whose task is gone is the only other kind.
  ghost predicate QueueAgrees(s: State) {
    && (forall h | h in s.tasks && !s.loop.Holds(h) :: s.tasks[h].tid in s.queue)
    && (forall t | t in s.queue :: !s.loop.Holds(t.hndl) && (t.hndl in s.tasks ==> t == s.tasks[t.hndl].tid))
    && (s.loop.Waiting? ==> s.loop.tid in s.queue)
    && ((s.loop.Popped? || s.loop.Found? || s.loop.Executing?) && s.loop.tid.hndl in s.tasks ==>
          s.tasks[s.loop.tid.hndl].tid == s.loop.tid)
  }

  ghost predicate Inv(s: State)
    ensures Inv(s) ==> IntervalsPositive(s)
  {
    IntervalsPositive(s) && DistinctEntries(s.queue) && HandlesOk(s) && QueueAgrees(s)
  }

  lemma InitialInv(s: State)
    requires Initial(s)
    ensures Inv(s)
  {
  }

  lemma TakenQueue(q: Queue, t: TaskIdentifier)
    requires DistinctEntries(q) && t in q
    ensures DistinctEntries(Drop(q, t))
    ensures forall u :: u in Drop(q, t) <==> u in q && u != t
  {
  }

  lemma PushedQueue(q: Queue, t: TaskIdentifier)
    requires DistinctEntries(q) && forall u | u in q :: u.hndl != t.hndl
    ensures DistinctEntries(Put(q, t))
  {
    assert t !in q;
  }

  // The rest of the invariant depends on the queue through membership only.
  lemma TakenInv(s: State, t: TaskIdentifier, q: Queue)
    requires Inv(s) && !s.loop.HoldsEntry() && s.joinable && t in s.queue
    requires DistinctEntries(q) && forall u :: u in q <==> u in s.queue && u != t
    ensures Inv(s.(queue := q, loop := Popped(t)))
  {
    assert forall u | u in q :: u.hndl != t.hndl;
    hide DistinctEntries;
  }

  // Task and entry of t's handle are added together, or its entry comes back from the loop.
  ghost predicate Pushes(s: State, t: TaskIdentifier, u: State) {
    && (forall e :: e in u.queue <==> e in s.queue || e == t)
    && t.hndl in u.tasks && u.tasks[t.hndl].tid == t && u.tasks[t.hndl].interval > 0 && t.hndl < s.next
    && (forall h :: h in u.tasks <==> h in s.tasks || h == t.hndl)
    && (forall h | h in s.tasks && h != t.hndl :: u.tasks[h] == s.tasks[h])
    && (if s.loop.Holds(t.hndl) then u.loop == Top else u.loop == s.loop && t.hndl !in s.tasks && t.hndl in s.reserved)
    && u.reserved == s.reserved - {t.hndl} && u.next == s.next && u.joinable == s.joinable
  }

  lemma PushedHandles(s: State, t: TaskIdentifier, u: State)
    requires IntervalsPositive(s) && HandlesOk(s) && Pushes(s, t, u)
    ensures IntervalsPositive(u) && HandlesOk(u)
  {
  }

  lemma PushedAgrees(s: State, t: TaskIdentifier, u: State)
    requires HandlesOk(s) && QueueAgrees(s) && Pushes(s, t, u)
    ensures QueueAgrees(u)
  {
  }

  lemma PushedInv(s: State, t: TaskIdentifier, u: State)
    requires Inv(s) && DistinctEntries(u.queue) && Pushes(s, t, u)
    ensures Inv(u)
  {
    hide DistinctEntries, HandlesOk, QueueAgrees, IntervalsPositive, Pushes;
    PushedHandles(s, t, u);
    PushedAgrees(s, t, u);
  }

  lemma TakeInv(s: State)
    requires Inv(s) && !s.loop.HoldsEntry() && s.queue != multiset{} && s.joinable
    ensures Inv(Take(s, TopOf(s.queue)))
  {
    var t := TopOf(s.queue);
    TakenQueue(s.queue, t);
    hide Inv;
    TakenInv(s, t, Drop(s.queue, t));
  }

  lemma InsertInv(s: State, h: Handle, interval: int)
    requires Inv(s) && h in s.reserved
    ensures Inv(InsertTask(s, h, interval))
  {
    var entry := TaskIdentifier(h, TIME_MIN);
    assert h !in s.tasks && !s.loop.Holds(h) && h < s.next && forall u | u in s.queue :: u.hndl != h;
    PushedQueue(s.queue, entry);
    hide Inv;
    PushedInv(s, entry, InsertTask(s, h, interval));
  }

  lemma RequeueInv(s: State)
    requires Inv(s) && s.loop.Done? && s.loop.tid.hndl in s.tasks
    ensures Inv(s.(queue := Put(s.queue, s.tasks[s.loop.tid.hndl].tid), loop := Top))
  {
    var h := s.loop.tid.hndl;
    var entry := s.tasks[h].tid;
    assert entry.hndl == h && h !in s.reserved && forall u | u in s.queue :: u.hndl != h;
    PushedQueue(s.queue, entry);
    hide Inv;
    assert s.reserved - {h} == s.reserved;
    PushedInv(s, entry, s.(queue := Put(s.queue, entry), loop := Top));
  }

  // Updating the task the loop holds keeps the agreement, whatever its new key is.
  lemma HeldTaskInv(s: State, t: Task, loop: Loop)
    requires Inv(s) && s.loop.HoldsEntry() && loop.HoldsEntry() && loop.tid == s.loop.tid
    requires s.loop.tid.hndl in s.tasks && t.interval > 0 && t.tid.hndl == s.loop.tid.hndl
    requires loop.Done? || t.tid == s.loop.tid
    ensures Inv(s.(tasks := s.tasks[s.loop.tid.hndl := t], loop := loop))
  {
    hide DistinctEntries, Before;
  }

  // Dropping an entry whose task is gone, or moving on with it.
  lemma MoveLoopInv(s: State, loop: Loop)
    requires Inv(s)
    requires s.loop.HoldsEntry() ==> s.loop.tid.hndl !in s.tasks
    requires !loop.Waiting? && !loop.HoldsEntry()
    requires loop.Exited? || s.joinable
    ensures Inv(s.(loop := loop))
  {
    hide DistinctEntries;
  }

  lemma HeldFacts(s: State)
    requires Inv(s) && s.loop.HoldsEntry() && s.loop.tid.hndl in s.tasks
    ensures var t := s.tasks[s.loop.tid.hndl];
      t.interval > 0 && t.tid.hndl == s.loop.tid.hndl && (!s.loop.Done? ==> t.tid == s.loop.tid)
  {
  }

  lemma LookupInv(s: State)
    requires Inv(s) && Enabled(s, Lookup)
    ensures Inv(Apply(s, Lookup))
  {
    var h := s.loop.tid.hndl;
    hide Inv;
    if h in s.tasks {
      HeldFacts(s);
      HeldTaskInv(s, s.tasks[h], Found(s.loop.tid));
      assert s.tasks[h := s.tasks[h]] == s.tasks;
    } else {
      LoopJoinable(s);
      MoveLoopInv(s, Top);
    }
  }

  lemma BeginTaskInv(s: State, now: int)
    requires Inv(s) && s.loop.Found?
    ensures Inv(BeginTask(s, now))
  {
    hide Inv, BeginJob;
    if s.loop.tid.hndl in s.tasks {
      HeldFacts(s);
      HeldTaskInv(s, BeginJob(s.tasks[s.loop.tid.hndl], now), Executing(s.loop.tid));
    } else {
      GoneTaskInv(s);
    }
  }

  lemma EndTaskInv(s: State, now: int)
    requires Inv(s) && s.loop.Executing?
    ensures Inv(EndTask(s, now))
  {
    hide Inv, EndJob;
    if s.loop.tid.hndl in s.tasks {
      HeldFacts(s);
      HeldTaskInv(s, EndJob(s.tasks[s.loop.tid.hndl], now), Done(s.loop.tid));
    } else {
      GoneTaskInv(s);
    }
  }

  lemma LoopJoinable(s: State)
    requires Inv(s) && !s.loop.Exited?
    ensures s.joinable
  {
  }

  lemma GoneTaskInv(s: State)
    requires Inv(s) && s.loop.HoldsEntry() && s.loop.tid.hndl !in s.tasks
    ensures Inv(s.(loop := Done(s.loop.tid)))
  {
    hide DistinctEntries;
  }

  lemma ReserveInv(s: State, skipped: nat)
    requires Inv(s)
    ensures Inv(Apply(s, Reserve(skipped)))
  {
    hide DistinctEntries;
  }

  lemma RemoveInv(s: State, h: Handle)
    requires Inv(s)
    ensures Inv(Apply(s, Remove(h)))
  {
    hide DistinctEntries;
  }

  lemma RunLoopInv(s: State)
    requires Inv(s)
    ensures Inv(RunLoop(s))
  {
    hide DistinctEntries;
  }

  lemma StopRequestInv(s: State, stop: bool)
    requires Inv(s)
    ensures Inv(s.(stopRequested := stop))
  {
    hide DistinctEntries;
  }

  lemma JoinedInv(s: State)
    requires Inv(s) && s.loop.Exited?
    ensures Inv(s.(joinable := false))
  {
    hide DistinctEntries;
  }

  lemma CheckedInv(s: State)
    requires Inv(s) && s.loop.Top?
    ensures Inv(s.(loop := if s.stopRequested then Exited else Ready))
  {
    hide Inv;
    LoopJoinable(s);
    MoveLoopInv(s, if s.stopRequested then Exited else Ready);
  }

  lemma WaitedForTop(s: State)
    requires Inv(s) && s.loop.Waiting? && s.queue != multiset{} && TopOf(s.queue).hndl == s.loop.tid.hndl
    ensures TopOf(s.queue) == s.loop.tid
  {
  }

  lemma FirstSectionInv(s: State, e: Event)
    requires Inv(s) && Enabled(s, e) && (e.Peek? || e.Wake?)
    ensures Inv(Apply(s, e))
  {
    hide Inv, Put, Drop, Before, InsertTask, BeginJob, EndJob, IsTop;
    LoopJoinable(s);
    MoveLoopInv(s, Top);
    if s.queue != multiset{} {
      var top := TopOf(s.queue);
      assert top in s.queue by { TopIn(s.queue); }
      if e.Wake? && top.hndl == s.loop.tid.hndl { WaitedForTop(s); }
      TakeInv(s);
      WaitInv(s, top);
      hide TopOf;
    }
  }

  lemma TopIn(q: Queue)
    requires q != multiset{}
    ensures TopOf(q) in q
  {
  }

  lemma WaitInv(s: State, t: TaskIdentifier)
    requires Inv(s) && s.joinable && !s.loop.HoldsEntry() && t in s.queue
    ensures Inv(s.(loop := Waiting(t)))
  {
    hide DistinctEntries;
  }

  // The clock is not part of the invariant.
  lemma AdvanceInv(s: State, e: Event)
    requires Inv(s)
    ensures Inv(Advance(s, e))
  {
    hide DistinctEntries;
  }

  lemma StepInv(s: State, e: Event)
    requires Inv(s) && Enabled(s, e)
    ensures Inv(Step(s, e))
  {
    match e {
      case Insert(h, interval) => InsertInv(s, h, interval);
      case Peek(_) => FirstSectionInv(s, e);
      case Wake(_) => FirstSectionInv(s, e);
      case Requeue => FinishInv(s);
      case Lookup => LookupInv(s);
      case Begin(now) => BeginTaskInv(s, now);
      case End(now) => EndTaskInv(s, now);
      case Reserve(skipped) => ReserveInv(s, skipped);
      case Remove(h) => RemoveInv(s, h);
      case Run => RunLoopInv(s);
      case RequestStop => StopRequestInv(s, s.joinable || s.stopRequested);
      case Join => JoinedInv(s);
      case Check => CheckedInv(s);
    }
    hide *;
    AdvanceInv(Apply(s, e), e);
  }

  lemma FinishInv(s: State)
    requires Inv(s) && Enabled(s, Requeue)
    ensures Inv(Apply(s, Requeue))
  {
    if s.loop.tid.hndl in s.tasks { RequeueInv(s); } else { MoveLoopInv(s, Top); }
    hide Inv;
  }
}
