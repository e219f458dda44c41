/** The hero's deploy mode as a state machine over its inputs, and what holds in all its runs. The
    state keeps only what cannot be derived; the class in Hero shows that the original's other
    fields agree with it. */
module HeroModel {
  import opened Common

  datatype Key = J | H | K | L | Other
  const HERO_RANGED: u32 := 4  // ShooterPerformance::HeroRanged
  const HOLD_TIME: int := 500  // pressDeployModeTimeOut, in ms
  const RESTART_PERIOD: int := 500

  // Which of the watched keys are down.
  datatype Keys = Keys(j: bool, h: bool, k: bool, l: bool) {
    predicate Down(key: Key) {
      match key
      case J => j
      case H => h
      case K => k
      case L => l
      case Other => false
    }

    function With(key: Key, down: bool): (r: Keys)
      ensures forall other: Key :: r.Down(other) == if other == key && key != Other then down else Down(other)
    {
      match key
      case J => this.(j := down)
      case H => this.(h := down)
      case K => this.(k := down)
      case L => this.(l := down)
      case Other => this
    }
  }

  const NO_KEYS := Keys(false, false, false, false)

  // A press that is being held: the mode it asks for and when it began.
  datatype Hold = Hold(target: bool, since: int)

  datatype State = State(
    server: bool, shooter: Option<u32>, vt: bool, keys: Keys, hold: Option<Hold>,
    clock: int, lastRestart: Option<int>)
  {
    predicate Ranged() { shooter == Some(HERO_RANGED) }

    predicate Deployed() { server && Ranged() }
  }

  predicate Initial(s: State) {
    !s.server && !s.vt && s.keys == NO_KEYS && s.hold == None && s.lastRestart == None
  }

  datatype Event =
    | Press(key: Key, now: int) | Release(key: Key) | ResetKeys
    | ServerStatus(status: Option<u32>)  // None: a message that does not parse or has no status
    | Performance(shooter: Option<u32>)  // None: no shooter in the robot's static status
    | ConnectionLost
    | Tick(now: int)                     // the animation's timer

  // The clock is read at presses and ticks, and does not go back.
  predicate Enabled(s: State, e: Event) { e.Press? || e.Tick? ==> e.now >= s.clock }

  // The key that asks for a mode.
  function KeyFor(target: bool): Key { if target then K else L }

  // A key event that changes the key's recorded state.
  predicate IsEdge(s: State, e: Event) {
    (e.Press? && e.key != Other && !s.keys.Down(e.key)) || (e.Release? && s.keys.Down(e.key))
  }

  /** A press starts a hold if it asks, in ranged mode, for the mode the robot is not in and no
      other hold is under way. */
  predicate Starts(s: State, e: Event, target: bool) {
    e.Press? && e.key == KeyFor(target) && IsEdge(s, e) && s.Ranged() && s.Deployed() != target && s.hold == None
  }

  predicate Restarts(s: State, e: Event) {
    && e.Press? && e.key == H && IsEdge(s, e) && s.vt
    && (s.lastRestart.Some? ==> e.now - s.lastRestart.value >= RESTART_PERIOD)
  }

  predicate IsRipe(s: State, now: int) { s.hold.Some? && now - s.hold.value.since >= HOLD_TIME }

  /** The deploy command that the event publishes. */
  function Published(s: State, e: Event): Option<bool> {
    if e.Tick? && IsRipe(s, e.now) then Some(s.hold.value.target) else None
  }

  // A new status: a change of the effective mode ends the hold and sets the video to match.
  function Settle(s: State, t: State): State {
    if s.Deployed() != t.Deployed() then t.(vt := t.Deployed(), hold := None)
    else if !t.Ranged() then t.(vt := false, hold := None)
    else t
  }

  function PressKey(s: State, k: Key, now: int): State {
    var t := s.(keys := s.keys.With(k, true), clock := now);
    match k
    case J => t.(vt := if s.Deployed() then s.vt else !s.vt && s.Ranged())
    case H => if Restarts(s, Press(H, now)) then t.(lastRestart := Some(now)) else t
    case K => if Starts(s, Press(K, now), true) then t.(hold := Some(Hold(true, now))) else t
    case L => if Starts(s, Press(L, now), false) then t.(hold := Some(Hold(false, now))) else t
    case Other => t
  }

  function ReleaseKey(s: State, k: Key): State {
    s.(keys := s.keys.With(k, false), hold := if s.hold.Some? && KeyFor(s.hold.value.target) == k then None else s.hold)
  }

  function Step(s: State, e: Event): State {
    match e
    case Press(k, now) => if IsEdge(s, e) then PressKey(s, k, now) else s.(clock := now)
    case Release(k) => if IsEdge(s, e) then ReleaseKey(s, k) else s
    case ResetKeys => s.(keys := NO_KEYS, hold := None)
    case ServerStatus(status) => if status.Some? then Settle(s, s.(server := status.value == 1)) else s
    case Performance(shooter) => Settle(s, s.(shooter := shooter))
    case ConnectionLost => s.(server := false, keys := NO_KEYS, hold := None, vt := false)
    case Tick(now) => s.(clock := now, hold := if IsRipe(s, now) then None else s.hold)
  }

  // ---------------------------------------------------------------------------------------
  // The invariant

  predicate Inv(s: State) {
    && (s.vt ==> s.Ranged())
    && (s.Deployed() ==> s.vt)
    && (s.hold.Some? ==>
          && s.keys.Down(KeyFor(s.hold.value.target))
          && s.Ranged() && s.Deployed() == !s.hold.value.target
          && s.hold.value.since <= s.clock)
  }

  lemma StepInv(s: State, e: Event)
    requires Inv(s) && Enabled(s, e)
    ensures Inv(Step(s, e))
  {
  }

  // ---------------------------------------------------------------------------------------
  // Runs

  ghost predicate IsRun(ss: seq<State>, es: seq<Event>)
    ensures IsRun(ss, es) ==> |ss| == |es| + 1
  {
    && |ss| == |es| + 1
    && Initial(ss[0])
    && forall n | 0 <= n < |es| :: IsStep(ss[n], es[n], ss[n + 1])
  }

  ghost predicate IsStep(s: State, e: Event, t: State) {
    Enabled(s, e) && t == Step(s, e)
  }

  /** In every state of every run the video follows the mode, and a pending press means that its
      key is held, in ranged mode, while the robot is not in the mode it asks for. */
  lemma {:induction false} RunInv(ss: seq<State>, es: seq<Event>, n: nat)
    requires IsRun(ss, es) && n <= |es|
    ensures Inv(ss[n])
    ensures ss[n].Deployed() ==> ss[n].vt
    ensures ss[n].vt ==> ss[n].Ranged()
    ensures ss[n].hold.Some? ==> var m := ss[n].hold.value.target;
      ss[n].keys.Down(if m then K else L) && ss[n].Ranged() && ss[n].Deployed() == !m
  {
    if n > 0 {
      RunInv(ss, es, n - 1);
      assert IsStep(ss[n - 1], es[n - 1], ss[n]);
      StepInv(ss[n - 1], es[n - 1]);
    }
  }

  // Press k started a hold for mode m that is still the pending one in state n.
  ghost predicate HeldSince(ss: seq<State>, es: seq<Event>, k: nat, n: nat, m: bool)
    requires n <= |es| < |ss|
  {
    && k < n && Starts(ss[k], es[k], m)
    && forall i | k < i <= n :: ss[i].hold == Some(Hold(m, es[k].now))
  }

  lemma HoldOrigin(s: State, e: Event)
    requires Step(s, e).hold.Some?
    ensures var m := Step(s, e).hold.value.target;
      s.hold == Step(s, e).hold || (Starts(s, e, m) && Step(s, e).hold == Some(Hold(m, e.now)))
  {
  }

  // A hold was started by a press and has been pending ever since.
  lemma {:induction false} HoldStarted(ss: seq<State>, es: seq<Event>, n: nat) returns (k: nat)
    requires IsRun(ss, es) && n <= |es| && ss[n].hold.Some?
    ensures HeldSince(ss, es, k, n, ss[n].hold.value.target)
  {
    assert n > 0;
    assert IsStep(ss[n - 1], es[n - 1], ss[n]);
    hide IsRun, Step, Starts;
    HoldOrigin(ss[n - 1], es[n - 1]);
    k := n - 1;
    if ss[n - 1].hold == ss[n].hold {
      k := HoldStarted(ss, es, n - 1);
    }
  }

  lemma HeldMeans(ss: seq<State>, es: seq<Event>, k: nat, n: nat, m: bool, i: nat)
    requires IsRun(ss, es) && n < |es| && HeldSince(ss, es, k, n, m) && k < i <= n
    ensures ss[i].keys.Down(KeyFor(m)) && ss[i].Ranged() && ss[i].Deployed() == !m
    ensures i < n ==> Published(ss[i], es[i]) == None
  {
    RunInv(ss, es, i);
    if i < n {
      assert IsStep(ss[i], es[i], ss[i + 1]);
    }
  }

  /** Every published command ends one uninterrupted hold: some earlier press of the key for its
      mode started it, at least 500 ms have passed since, and in all the states between the key was
      down, the robot was in ranged mode and not in the mode asked for, and nothing was published. */
  lemma CommandAfterHold(ss: seq<State>, es: seq<Event>, n: nat) returns (k: nat)
    requires IsRun(ss, es) && n < |es| && Published(ss[n], es[n]).Some?
    ensures var m := Published(ss[n], es[n]).value;
      && HeldSince(ss, es, k, n, m)
      && es[k].Press? && es[k].key == KeyFor(m) && !ss[k].keys.Down(KeyFor(m))
      && es[n].now - es[k].now >= HOLD_TIME
      && (forall i | k < i <= n ::
            ss[i].keys.Down(KeyFor(m)) && ss[i].Ranged() && ss[i].Deployed() == !m
            && (i < n ==> Published(ss[i], es[i]) == None))
  {
    k := HoldStarted(ss, es, n);
    var m := ss[n].hold.value.target;
    forall i | k < i <= n
      ensures ss[i].keys.Down(KeyFor(m)) && ss[i].Ranged() && ss[i].Deployed() == !m
      ensures i < n ==> Published(ss[i], es[i]) == None
    {
      HeldMeans(ss, es, k, n, m, i);
    }
  }

  /** Each press yields at most one command: the press behind a command comes after every earlier
      command, so two commands never share one. */
  lemma OneCommandPerPress(ss: seq<State>, es: seq<Event>, a: nat, b: nat, k: nat)
    requires IsRun(ss, es) && a < b < |es|
    requires Published(ss[a], es[a]).Some? && Published(ss[b], es[b]).Some?
    requires HeldSince(ss, es, k, b, Published(ss[b], es[b]).value)
    ensures a < k
  {
    assert IsStep(ss[a], es[a], ss[a + 1]);
    assert ss[a + 1].hold == None;
  }

  // What ends a hold for mode m early.
  predicate Interrupts(s: State, e: Event, m: bool) {
    || e == Release(KeyFor(m)) || e.ResetKeys? || e.ConnectionLost?
    || !Step(s, e).Ranged() || Step(s, e).Deployed() != s.Deployed()
  }

  lemma HoldBegins(s: State, e: Event, m: bool)
    requires Starts(s, e, m)
    ensures Step(s, e).hold == Some(Hold(m, e.now))
  {
  }

  lemma HoldKept(s: State, e: Event, m: bool)
    requires Inv(s) && Enabled(s, e) && s.hold.Some? && s.hold.value.target == m
    requires !Interrupts(s, e, m) && (e.Tick? ==> e.now - s.hold.value.since < HOLD_TIME)
    ensures Step(s, e).hold == s.hold
  {
  }

  lemma {:induction false} HoldKeptInRun(ss: seq<State>, es: seq<Event>, k: nat, n: nat, m: bool)
    requires IsRun(ss, es) && k < n <= |es| && Starts(ss[k], es[k], m)
    requires forall i | k < i < n ::
      !Interrupts(ss[i], es[i], m) && (es[i].Tick? ==> es[i].now - es[k].now < HOLD_TIME)
    ensures ss[n].hold == Some(Hold(m, es[k].now))
    decreases n
  {
    hide Starts, Step, Interrupts, Inv;
    assert IsStep(ss[n - 1], es[n - 1], ss[n]);
    if k < n - 1 {
      HoldKeptInRun(ss, es, k, n - 1, m);
      RunInv(ss, es, n - 1);
      HoldKept(ss[n - 1], es[n - 1], m);
    } else {
      HoldBegins(ss[k], es[k], m);
    }
  }

  /** Conversely, a press that starts a hold publishes its command at the first tick that comes
      500 ms later, unless the hold is interrupted before. */
  lemma HoldPublishes(ss: seq<State>, es: seq<Event>, k: nat, n: nat, m: bool)
    requires IsRun(ss, es) && k < n < |es| && Starts(ss[k], es[k], m)
    requires forall i | k < i < n ::
      !Interrupts(ss[i], es[i], m) && (es[i].Tick? ==> es[i].now - es[k].now < HOLD_TIME)
    ensures es[n].Tick? && es[n].now - es[k].now >= HOLD_TIME <==> Published(ss[n], es[n]) == Some(m)
  {
    HoldKeptInRun(ss, es, k, n, m);
  }

  lemma {:induction false} RestartRecorded(ss: seq<State>, es: seq<Event>, a: nat, n: nat)
    requires IsRun(ss, es) && a < n <= |es| && Restarts(ss[a], es[a])
    ensures ss[n].lastRestart.Some? && es[a].now <= ss[n].lastRestart.value <= ss[n].clock
    decreases n
  {
    assert IsStep(ss[n - 1], es[n - 1], ss[n]);
    if a < n - 1 {
      RestartRecorded(ss, es, a, n - 1);
    }
  }

  /** The deploy video is restarted at most once in 500 ms. */
  lemma RestartsSpaced(ss: seq<State>, es: seq<Event>, a: nat, b: nat)
    requires IsRun(ss, es) && a < b < |es| && Restarts(ss[a], es[a]) && Restarts(ss[b], es[b])
    ensures es[b].now - es[a].now >= RESTART_PERIOD
  {
    RestartRecorded(ss, es, a, b);
  }
}
