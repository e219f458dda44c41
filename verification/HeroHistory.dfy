/** What the hero's state means: over every run each of its parts is determined by the inputs so far. The
    server's mode is its last status, keys are down from press to release, and so on. */
module HeroHistory {
  import opened Common
  import opened HeroModel

  /** The last readable status was "deployed" (1), and the connection has not been lost since. */
  predicate ServerSays(es: seq<Event>, n: nat)
    requires n <= |es|
  {
    && n > 0 && !es[n - 1].ConnectionLost?
    && if es[n - 1].ServerStatus? && es[n - 1].status.Some? then es[n - 1].status.value == 1 else ServerSays(es, n - 1)
  }

  // The shooter performance that was last reported; `start` is the one at the beginning.
  function Reported(start: Option<u32>, es: seq<Event>, n: nat): Option<u32>
    requires n <= |es|
  {
    if n == 0 then start
    else if es[n - 1].Performance? then es[n - 1].shooter
    else Reported(start, es, n - 1)
  }

  predicate IsRanged(start: Option<u32>, es: seq<Event>, n: nat)
    requires n <= |es|
  {
    Reported(start, es, n) == Some(4)
  }

  predicate IsDeployed(start: Option<u32>, es: seq<Event>, n: nat)
    requires n <= |es|
  {
    ServerSays(es, n) && IsRanged(start, es, n)
  }

  // The key was pressed, and since then neither released nor lost with the keyboard or the connection.
  predicate IsDown(es: seq<Event>, n: nat, key: Key)
    requires n <= |es|
  {
    && n > 0 && key != Other
    && !(es[n - 1].Release? && es[n - 1].key == key) && !es[n - 1].ResetKeys? && !es[n - 1].ConnectionLost?
    && ((es[n - 1].Press? && es[n - 1].key == key) || IsDown(es, n - 1, key))
  }

  // Event n presses a key that was up.
  predicate GoesDown(es: seq<Event>, n: nat, key: Key)
    requires n < |es|
  {
    es[n].Press? && es[n].key == key && !IsDown(es, n, key)
  }

  /** The deploy video is shown: it follows every change of the mode, needs ranged mode, and outside of
      deploy mode each press of J turns it over. */
  predicate IsShown(start: Option<u32>, es: seq<Event>, n: nat)
    requires n <= |es|
  {
    && n > 0 && IsRanged(start, es, n) && !es[n - 1].ConnectionLost?
    && if IsDeployed(start, es, n) != IsDeployed(start, es, n - 1) then IsDeployed(start, es, n)
       else if GoesDown(es, n - 1, J) && !IsDeployed(start, es, n - 1) then !IsShown(start, es, n - 1)
       else IsShown(start, es, n - 1)
  }

  /** The deploy video is restarted: H is pressed while it is shown, at least 500 ms after the last time. */
  predicate IsRestart(start: Option<u32>, es: seq<Event>, n: nat)
    requires n < |es|
    decreases n, 1
  {
    && GoesDown(es, n, H) && IsShown(start, es, n)
    && var last := LastRestart(start, es, n); last.None? || es[n].now - last.value >= 500
  }

  function LastRestart(start: Option<u32>, es: seq<Event>, n: nat): Option<int>
    requires n <= |es|
    decreases n, 0
  {
    if n == 0 then None
    else if IsRestart(start, es, n - 1) then Some(es[n - 1].now)
    else LastRestart(start, es, n - 1)
  }

  /** The press that is being held: one of K outside of deploy mode, or of L in it, with the robot ranged
      and no other held. It ends when its key is released, with the keyboard, the connection, ranged mode
      or the mode it started in, and after 500 ms. */
  function Held(start: Option<u32>, es: seq<Event>, n: nat): Option<Hold>
    requires n <= |es|
  {
    if n == 0 then None
    else
      var h, e := Held(start, es, n - 1), es[n - 1];
      if h.None? then
        if GoesDown(es, n - 1, K) && IsRanged(start, es, n - 1) && !IsDeployed(start, es, n - 1) then
          Some(Hold(true, e.now))
        else if GoesDown(es, n - 1, L) && IsDeployed(start, es, n - 1) then Some(Hold(false, e.now))
        else None
      else if !IsDown(es, n, if h.value.target then K else L) then None
      else if IsDeployed(start, es, n) == h.value.target || !IsRanged(start, es, n) then None
      else if e.Tick? && e.now - h.value.since >= 500 then None
      else h
  }

  // The command that event n publishes: that of a press held for 500 ms.
  function Command(start: Option<u32>, es: seq<Event>, n: nat): Option<bool>
    requires n < |es|
  {
    var h := Held(start, es, n);
    if es[n].Tick? && h.Some? && es[n].now - h.value.since >= 500 then Some(h.value.target) else None
  }

  // The state is the one that the first n events make.
  ghost predicate Matches(s: State, start: Option<u32>, es: seq<Event>, n: nat)
    requires n <= |es|
  {
    && s.server == ServerSays(es, n) && s.shooter == Reported(start, es, n)
    && s.keys == Keys(IsDown(es, n, J), IsDown(es, n, H), IsDown(es, n, K), IsDown(es, n, L))
    && s.vt == IsShown(start, es, n) && s.lastRestart == LastRestart(start, es, n)
    && s.hold == Held(start, es, n)
  }

  // What a step does to a key, to the video and to the hold.
  lemma KeyStep(s: State, e: Event, key: Key)
    ensures Step(s, e).keys.Down(key) <==>
      && key != Other && !(e.Release? && e.key == key) && !e.ResetKeys? && !e.ConnectionLost?
      && ((e.Press? && e.key == key) || s.keys.Down(key))
  {
    NoneDown(key);
    hide Starts, Restarts, IsRipe, Keys.With;
    OtherIsNeverDown(s.keys);
    hide Keys.Down;
  }

  lemma NoneDown(key: Key)
    ensures !NO_KEYS.Down(key)
  {
  }

  lemma OtherIsNeverDown(keys: Keys)
    ensures !keys.Down(Other)
  {
  }

  lemma VideoStep(s: State, e: Event)
    requires Inv(s)
    ensures var t := Step(s, e);
      t.vt <==>
        && t.Ranged() && !e.ConnectionLost?
        && if t.Deployed() != s.Deployed() then t.Deployed()
           else if e.Press? && e.key == J && !s.keys.Down(J) && !s.Deployed() then !s.vt
           else s.vt
  {
  }

  lemma RestartStep(s: State, e: Event)
    ensures Restarts(s, e) <==>
      && e.Press? && e.key == H && !s.keys.Down(H) && s.vt
      && (s.lastRestart.None? || e.now - s.lastRestart.value >= 500)
    ensures Step(s, e).lastRestart == if Restarts(s, e) then Some(e.now) else s.lastRestart
  {
  }

  lemma HoldStep(s: State, e: Event)
    requires Inv(s)
    ensures var t := Step(s, e);
      t.hold ==
        if s.hold.None? then
          if e.Press? && e.key == K && !s.keys.Down(K) && s.Ranged() && !s.Deployed() then Some(Hold(true, e.now))
          else if e.Press? && e.key == L && !s.keys.Down(L) && s.Deployed() then Some(Hold(false, e.now))
          else None
        else if !t.keys.Down(if s.hold.value.target then K else L) then None
        else if t.Deployed() == s.hold.value.target || !t.Ranged() then None
        else if e.Tick? && e.now - s.hold.value.since >= 500 then None
        else s.hold
  {
  }

  lemma KeysByEvents(s: State, start: Option<u32>, es: seq<Event>, n: nat)
    requires n < |es| && Matches(s, start, es, n)
    ensures forall k: Key :: s.keys.Down(k) <==> IsDown(es, n, k)
    ensures forall k: Key :: Step(s, es[n]).keys.Down(k) <==> IsDown(es, n + 1, k)
  {
    hide IsShown, LastRestart, Held, Reported, ServerSays, Step;
    forall k: Key
      ensures s.keys.Down(k) <==> IsDown(es, n, k)
      ensures Step(s, es[n]).keys.Down(k) <==> IsDown(es, n + 1, k)
    {
      KeyStep(s, es[n], k);
    }
  }

  lemma KeysAre(keys: Keys)
    ensures keys == Keys(keys.Down(J), keys.Down(H), keys.Down(K), keys.Down(L))
  {
  }

  lemma ModeByEvents(s: State, start: Option<u32>, es: seq<Event>, n: nat)
    requires n < |es| && Matches(s, start, es, n)
    ensures Step(s, es[n]).server == ServerSays(es, n + 1) && Step(s, es[n]).shooter == Reported(start, es, n + 1)
    ensures s.Ranged() <==> IsRanged(start, es, n)
    ensures s.Deployed() <==> IsDeployed(start, es, n)
    ensures Step(s, es[n]).Ranged() <==> IsRanged(start, es, n + 1)
    ensures Step(s, es[n]).Deployed() <==> IsDeployed(start, es, n + 1)
  {
    hide IsShown, LastRestart, Held, IsDown;
  }

  lemma VideoByEvents(s: State, start: Option<u32>, es: seq<Event>, n: nat)
    requires n < |es| && Inv(s) && Matches(s, start, es, n)
    ensures Step(s, es[n]).vt == IsShown(start, es, n + 1)
    ensures Restarts(s, es[n]) <==> IsRestart(start, es, n)
    ensures Step(s, es[n]).lastRestart == LastRestart(start, es, n + 1)
  {
    KeysByEvents(s, start, es, n);
    ModeByEvents(s, start, es, n);
    VideoStep(s, es[n]);
    RestartStep(s, es[n]);
    hide IsDown, ServerSays, Reported, Held, Step, Inv, IsDeployed, IsRanged, Restarts;
  }

  lemma DeployedIsRanged(start: Option<u32>, es: seq<Event>, n: nat)
    requires n <= |es|
    ensures IsDeployed(start, es, n) ==> IsRanged(start, es, n)
  {
  }

  lemma HoldByEvents(s: State, start: Option<u32>, es: seq<Event>, n: nat)
    requires n < |es| && Inv(s) && Matches(s, start, es, n)
    ensures Step(s, es[n]).hold == Held(start, es, n + 1)
    ensures Published(s, es[n]) == Command(start, es, n)
  {
    KeysByEvents(s, start, es, n);
    ModeByEvents(s, start, es, n);
    HoldStep(s, es[n]);
    DeployedIsRanged(start, es, n);
    hide IsDown, ServerSays, Reported, IsShown, LastRestart, Step, Inv, IsDeployed, IsRanged;
  }

  lemma MatchesNext(s: State, start: Option<u32>, es: seq<Event>, n: nat)
    requires n < |es| && Inv(s) && Matches(s, start, es, n)
    ensures Matches(Step(s, es[n]), start, es, n + 1)
  {
    KeysByEvents(s, start, es, n);
    ModeByEvents(s, start, es, n);
    VideoByEvents(s, start, es, n);
    HoldByEvents(s, start, es, n);
    KeysAre(Step(s, es[n]).keys);
    hide Step, Inv, IsDown, ServerSays, Reported, IsShown, LastRestart, Held;
  }

  lemma {:induction false} MatchesInRun(ss: seq<State>, es: seq<Event>, n: nat)
    requires IsRun(ss, es) && n <= |es|
    ensures Matches(ss[n], ss[0].shooter, es, n)
  {
    if n > 0 {
      MatchesInRun(ss, es, n - 1);
      RunInv(ss, es, n - 1);
      assert IsStep(ss[n - 1], es[n - 1], ss[n]);
      hide IsRun, Step, Matches, Inv;
      MatchesNext(ss[n - 1], ss[0].shooter, es, n - 1);
    }
  }

  /** The mode law: the robot is deployed exactly if the server's last word is "deployed" and the last
      performance reported is the ranged hero's. */
  lemma DeployedIff(ss: seq<State>, es: seq<Event>, n: nat)
    requires IsRun(ss, es) && n <= |es|
    ensures ss[n].Deployed() <==> ServerSays(es, n) && Reported(ss[0].shooter, es, n) == Some(4)
    ensures ss[n].vt <==> IsShown(ss[0].shooter, es, n)
    ensures forall k: Key :: ss[n].keys.Down(k) <==> IsDown(es, n, k)
  {
    MatchesInRun(ss, es, n);
    hide IsRun, IsShown, LastRestart, Held, IsDown;
  }

  /** What goes out is determined by the inputs: a command is published, and the video restarted, exactly
      when the events say so. */
  lemma OutputsIff(ss: seq<State>, es: seq<Event>, n: nat)
    requires IsRun(ss, es) && n < |es|
    ensures Published(ss[n], es[n]) == Command(ss[0].shooter, es, n)
    ensures Restarts(ss[n], es[n]) <==> IsRestart(ss[0].shooter, es, n)
  {
    MatchesInRun(ss, es, n);
    RunInv(ss, es, n);
    hide IsRun, Step, Matches, Inv;
    HoldByEvents(ss[n], ss[0].shooter, es, n);
    VideoByEvents(ss[n], ss[0].shooter, es, n);
  }
}
