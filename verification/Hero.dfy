/** The hero's model class. Valid states how its fields agree with each other; every handler keeps
    it and is the step of HeroModel. */
module Hero {
  import opened Common
  import opened HeroModel

  // A video item of the user interface: its visibility, or None once it has been destroyed.
  type Item = Option<bool>

  predicate Shows(item: Item, visible: bool) { item.Some? ==> item.value == visible }

  function KeyEvent(key: Key, isPressed: bool, now: int): Event {
    if isPressed then Press(key, now) else Release(key)
  }

  lemma OnlyHRestarts(s: State, key: Key, isPressed: bool, now: int)
    ensures Restarts(s, KeyEvent(key, isPressed, now)) ==> key == H && isPressed
    ensures Step(s, KeyEvent(Other, isPressed, now)) == if isPressed then s.(clock := now) else s
  {
  }

  // A press that is dated by the clock as it reads already.
  lemma ClockFirst(s: State, key: Key, isPressed: bool, now: int)
    ensures var t := s.(clock := if isPressed then now else s.clock); var e := KeyEvent(key, isPressed, now);
      && Step(t, KeyEvent(key, isPressed, t.clock)) == Step(s, e)
      && (Restarts(t, KeyEvent(key, isPressed, t.clock)) <==> Restarts(s, e))
  {
  }

  // What the two deploy keys do.
  function AfterModeKey(s: State, target: bool, isPressed: bool, now: int): State {
    var k, u := KeyFor(target), if isPressed then s.(clock := now) else s;
    var t := u.(keys := s.keys.With(k, isPressed));
    if s.keys.Down(k) == isPressed then u
    else if isPressed then
      if s.Ranged() && s.Deployed() != target && s.hold == None then t.(hold := Some(Hold(target, now))) else t
    else if s.hold.Some? && s.hold.value.target == target then t.(hold := None)
    else t
  }

  lemma ModeKeyIs(s: State, target: bool, isPressed: bool, now: int)
    ensures Step(s, KeyEvent(KeyFor(target), isPressed, now)) == AfterModeKey(s, target, isPressed, now)
  {
  }

  class GHeroModel {
    var isDeployVt: bool
    var isDeployMode: bool
    var isJPressed: bool
    var isHPressed: bool
    var isKPressed: bool
    var isLPressed: bool
    var serverDeployMode: bool
    var pendingDeployMode: Option<bool>
    var animation: Option<int>  // when it was started, while it runs
    var lastDeployVtRestartTime: Option<int>
    var imgTransItem: Item
    var deployVtItem: Item
    var shooter: Option<u32>    // in the robot's static status
    var clock: int

    predicate IsHeroRanged()
      reads `shooter
    {
      shooter == Some(HERO_RANGED)
    }

    ghost function Model(): State
      reads this
    {
      State(serverDeployMode, shooter, isDeployVt,
            Keys(isJPressed, isHPressed, isKPressed, isLPressed),
            if pendingDeployMode.Some? && animation.Some? then
              Some(Hold(pendingDeployMode.value, animation.value))
            else None,
            clock, lastDeployVtRestartTime)
    }

    /** The mode is the server's, if the robot is ranged; of the two video items the one that
        isDeployVt says is visible and the other is not; the timer runs exactly while a press is
        pending; and the invariant of the state machine holds. */
    ghost predicate Valid()
      reads this
    {
      && isDeployMode == (serverDeployMode && IsHeroRanged())
      && Shows(deployVtItem, isDeployVt) && Shows(imgTransItem, !isDeployVt)
      && (pendingDeployMode.Some? <==> animation.Some?)
      && Inv(Model())
    }

    constructor (shooter: Option<u32>, imgTransItem: Item, deployVtItem: Item, now: int)
      ensures Valid() && Initial(Model()) && this.shooter == shooter && clock == now
    {
      isDeployVt, isDeployMode, serverDeployMode := false, false, false;
      isJPressed, isHPressed, isKPressed, isLPressed := false, false, false, false;
      pendingDeployMode, animation, lastDeployVtRestartTime := None, None, None;
      this.imgTransItem, this.deployVtItem, this.shooter, clock := imgTransItem, deployVtItem, shooter, now;
      new;
      SetDeployVt(false);
      UpdateEffectiveDeployMode();
    }

    method SetDeployVt(value: bool)
      modifies `isDeployVt, `deployVtItem, `imgTransItem
      ensures isDeployVt == (value && IsHeroRanged())
      ensures Shows(deployVtItem, isDeployVt) && Shows(imgTransItem, !isDeployVt)
      ensures (deployVtItem.None? <==> old(deployVtItem).None?) && (imgTransItem.None? <==> old(imgTransItem).None?)
    {
      var visible := value && IsHeroRanged();
      if deployVtItem.Some? {
        deployVtItem := Some(visible);
      }
      if imgTransItem.Some? {
        imgTransItem := Some(!visible);
      }
      if isDeployVt == visible {
        return;
      }
      isDeployVt := visible;
    }

    method CancelDeployModePress()
      modifies `animation, `pendingDeployMode
      ensures animation == None && pendingDeployMode == None
    {
      animation := None;
      pendingDeployMode := None;
    }

    method SetDeployMode(mode: bool)
      modifies `isDeployMode, `isDeployVt, `deployVtItem, `imgTransItem, `animation, `pendingDeployMode
      ensures isDeployMode == mode
      ensures if old(isDeployMode) == mode then
                && isDeployVt == old(isDeployVt)
                && deployVtItem == old(deployVtItem) && imgTransItem == old(imgTransItem)
                && animation == old(animation) && pendingDeployMode == old(pendingDeployMode)
              else
                && isDeployVt == (mode && IsHeroRanged()) && animation == None && pendingDeployMode == None
                && Shows(deployVtItem, isDeployVt) && Shows(imgTransItem, !isDeployVt)
    {
      if isDeployMode == mode {
        return;
      }
      CancelDeployModePress();
      isDeployMode := mode;
      SetDeployVt(mode);
    }

    method StartDeployModePress(target: bool)
      modifies `animation, `pendingDeployMode
      ensures if IsHeroRanged() && isDeployMode != target && old(pendingDeployMode) == None then
                pendingDeployMode == Some(target) && animation == Some(clock)
              else
                pendingDeployMode == old(pendingDeployMode) && animation == old(animation)
    {
      if !IsHeroRanged() || isDeployMode == target || pendingDeployMode.Some? {
        return;
      }
      pendingDeployMode := Some(target);
      animation := Some(clock);
    }

    // Called whenever the server's mode or the robot's status has changed.
    method UpdateEffectiveDeployMode()
      requires Shows(deployVtItem, isDeployVt) && Shows(imgTransItem, !isDeployVt)
      modifies `isDeployMode, `isDeployVt, `deployVtItem, `imgTransItem, `animation, `pendingDeployMode
      ensures isDeployMode == (serverDeployMode && IsHeroRanged())
      ensures Shows(deployVtItem, isDeployVt) && Shows(imgTransItem, !isDeployVt)
      ensures !IsHeroRanged() || isDeployMode != old(isDeployMode) ==>
        isDeployVt == isDeployMode && animation == None && pendingDeployMode == None
      ensures IsHeroRanged() && isDeployMode == old(isDeployMode) ==>
        isDeployVt == old(isDeployVt) && animation == old(animation) && pendingDeployMode == old(pendingDeployMode)
    {
      if !IsHeroRanged() {
        CancelDeployModePress();
        SetDeployMode(false);
        SetDeployVt(false);
        return;
      }
      SetDeployMode(serverDeployMode);
    }

    /** parseDeployModeStatus, with None for a message without a readable status. */
    method OnDeployModeStatus(status: Option<u32>)
      requires Valid()
      modifies this
      ensures Valid() && Model() == Step(old(Model()), ServerStatus(status))
    {
      hide Inv;
      StepInv(Model(), ServerStatus(status));
      if status.None? {
        return;
      }
      serverDeployMode := status.value == 1;
      UpdateEffectiveDeployMode();
    }

    method OnStaticStatusChanged(newShooter: Option<u32>)
      requires Valid()
      modifies this
      ensures Valid() && Model() == Step(old(Model()), Performance(newShooter))
    {
      hide Inv;
      StepInv(Model(), Performance(newShooter));
      shooter := newShooter;
      UpdateEffectiveDeployMode();
    }

    method ReleaseAllKeys()
      modifies `isJPressed, `isHPressed, `isKPressed, `isLPressed
      ensures !isJPressed && !isHPressed && !isKPressed && !isLPressed
    {
      isJPressed, isHPressed, isKPressed, isLPressed := false, false, false, false;
    }

    method OnKeyReset()
      requires Valid()
      modifies this
      ensures Valid() && Model() == Step(old(Model()), ResetKeys)
    {
      hide Inv;
      StepInv(Model(), ResetKeys);
      ReleaseAllKeys();
      CancelDeployModePress();
    }

    // The clock is read at a press.
    method ReadClock(isPressed: bool, now: int)
      requires Valid() && (isPressed ==> now >= clock)
      modifies `clock
      ensures Valid() && Model() == old(Model()).(clock := if isPressed then now else old(clock))
    {
      if isPressed {
        clock := now;
      }
    }

    method OnJ(isPressed: bool)
      requires Valid()
      modifies this
      ensures Valid() && clock == old(clock) && Model() == Step(old(Model()), KeyEvent(J, isPressed, clock))
    {
      hide Inv;
      StepInv(Model(), KeyEvent(J, isPressed, clock));
      if isJPressed != isPressed {
        isJPressed := isPressed;
        if isPressed && !isDeployMode {
          SetDeployVt(!isDeployVt);
        }
      }
    }

    method OnH(isPressed: bool) returns (restarted: bool)
      requires Valid()
      modifies this
      ensures Valid() && clock == old(clock) && Model() == Step(old(Model()), KeyEvent(H, isPressed, clock))
      ensures restarted <==> Restarts(old(Model()), KeyEvent(H, isPressed, clock))
    {
      hide Inv;
      StepInv(Model(), KeyEvent(H, isPressed, clock));
      restarted := false;
      if isHPressed != isPressed {
        isHPressed := isPressed;
        if isPressed && isDeployVt {
          restarted := RestartDeployVt();
        }
      }
    }

    // A press of the key that asks for a mode, and its release.
    method HoldModeKey(target: bool)
      requires (pendingDeployMode.Some? <==> animation.Some?) && isDeployMode == Model().Deployed()
      modifies `animation, `pendingDeployMode
      ensures pendingDeployMode.Some? <==> animation.Some?
      ensures var s := old(Model());
        Model() == if s.Ranged() && s.Deployed() != target && s.hold == None
                   then s.(hold := Some(Hold(target, clock))) else s
    {
      if isDeployMode != target {
        StartDeployModePress(target);
      }
    }

    method LetGoModeKey(target: bool)
      requires pendingDeployMode.Some? <==> animation.Some?
      modifies `animation, `pendingDeployMode
      ensures pendingDeployMode.Some? <==> animation.Some?
      ensures var s := old(Model());
        Model() == if s.hold.Some? && s.hold.value.target == target then s.(hold := None) else s
    {
      if pendingDeployMode == Some(target) {
        CancelDeployModePress();
      }
    }

    method OnK(isPressed: bool)
      requires Valid()
      modifies `isKPressed, `animation, `pendingDeployMode
      ensures Valid() && clock == old(clock) && Model() == Step(old(Model()), KeyEvent(K, isPressed, clock))
    {
      hide Inv, Step;
      StepInv(Model(), KeyEvent(K, isPressed, clock));
      ModeKeyIs(Model(), true, isPressed, clock);
      if isKPressed != isPressed {
        isKPressed := isPressed;
        if isPressed {
          HoldModeKey(true);
        } else {
          LetGoModeKey(true);
        }
      }
    }

    method OnL(isPressed: bool)
      requires Valid()
      modifies `isLPressed, `animation, `pendingDeployMode
      ensures Valid() && clock == old(clock) && Model() == Step(old(Model()), KeyEvent(L, isPressed, clock))
    {
      hide Inv, Step;
      StepInv(Model(), KeyEvent(L, isPressed, clock));
      ModeKeyIs(Model(), false, isPressed, clock);
      if isLPressed != isPressed {
        isLPressed := isPressed;
        if isPressed {
          HoldModeKey(false);
        } else {
          LetGoModeKey(false);
        }
      }
    }

    /** The press and release events of onNewKeyEvent. */
    method OnNewKeyEvent(key: Key, isPressed: bool, now: int) returns (restarted: bool)
      requires Valid() && (isPressed ==> now >= clock)
      modifies this
      ensures Valid() && Model() == Step(old(Model()), KeyEvent(key, isPressed, now))
      ensures restarted <==> Restarts(old(Model()), KeyEvent(key, isPressed, now))
    {
      hide Inv, Valid, Step, Restarts;
      ClockFirst(Model(), key, isPressed, now);
      ReadClock(isPressed, now);
      hide Model;
      restarted := false;
      match key {
        case J => OnJ(isPressed);
        case H => restarted := OnH(isPressed);
        case K => OnK(isPressed);
        case L => OnL(isPressed);
        case Other =>
      }
      OnlyHRestarts(old(Model()), key, isPressed, now);
    }

    method RestartDeployVt() returns (restarted: bool)
      modifies `lastDeployVtRestartTime
      ensures restarted <==>
        && isDeployVt
        && (old(lastDeployVtRestartTime).Some? ==> clock - old(lastDeployVtRestartTime).value >= RESTART_PERIOD)
      ensures lastDeployVtRestartTime == if restarted then Some(clock) else old(lastDeployVtRestartTime)
    {
      if !isDeployVt {
        return false;
      }
      if lastDeployVtRestartTime.Some? && clock - lastDeployVtRestartTime.value < RESTART_PERIOD {
        return false;
      }
      lastDeployVtRestartTime := Some(clock);
      return true;
    }

    /** The connection was lost or could not be made. */
    method ResetStatus()
      requires Valid()
      modifies this
      ensures Valid() && Model() == Step(old(Model()), ConnectionLost)
    {
      hide Inv;
      StepInv(Model(), ConnectionLost);
      serverDeployMode := false;
      ReleaseAllKeys();
      CancelDeployModePress();
      SetDeployMode(false);
      SetDeployVt(false);
    }

    // The handler of the animation's end; the animation has stopped by itself.
    method OnAnimationFinished() returns (published: Option<bool>)
      requires animation == None
      modifies `pendingDeployMode
      ensures pendingDeployMode == None
      ensures published ==
        if IsHeroRanged() && old(pendingDeployMode).Some? && isDeployMode != old(pendingDeployMode).value
        then old(pendingDeployMode) else None
    {
      var target := pendingDeployMode;
      pendingDeployMode := None;
      published := if target.Some? && IsHeroRanged() && isDeployMode != target.value then target else None;
    }

    /** A tick of the animation's timer. The handler's own checks never fail: each hold that runs
        to its end publishes its command. */
    method Tick(now: int) returns (published: Option<bool>)
      requires Valid() && now >= clock
      modifies this
      ensures Valid() && Model() == Step(old(Model()), HeroModel.Tick(now))
      ensures published == Published(old(Model()), HeroModel.Tick(now))
    {
      clock := now;
      published := None;
      if animation.Some? && now - animation.value >= HOLD_TIME {
        animation := None;
        published := OnAnimationFinished();
      }
    }
  }
}
