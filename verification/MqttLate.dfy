/** A handler in another thread is called after its binding was replaced: the concrete run. */
module MqttLate {
  import opened Common
  import opened MqttFenceModel
  import opened MqttFence

  const T := Topic("t")
  const OLD_CLIENT := Client(0, "a", "u")
  const NEW_CLIENT := Client(1, "b", "u")
  const H := Handler(0, T, false)
  const CALL := Call(H, 1, [], 0)
  const SLOT := Slot(OLD_CLIENT, T, 1)

  const NOTHING := State(0, None, map[], Idle, false, 0, 0, 0, {}, [], [], [], [])
  const BINDING := NOTHING.(generation := 1, clientCount := 1, phase := Numbered(Snapshot(1, OLD_CLIENT)))
  const CLEARED := BINDING.(phase := Cleared(Snapshot(1, OLD_CLIENT)))
  const BOUND := CLEARED.(phase := Idle, snapshot := Some(Snapshot(1, OLD_CLIENT)))
  const REGISTERED := BOUND.(register := map[T := Channel(SLOT, [H])], slots := {SLOT}, handlerCount := 1)
  const DELIVERED := REGISTERED.(posted := [Post(T, 1, [], 0)], deliveryCount := 1)
  const CALLING := DELIVERED.(posted := [], calls := [CALL])
  const CHECKED := CALLING.(calls := [], checked := [CALL])
  const REBINDING := CHECKED.(generation := 2, clientCount := 2, phase := Numbered(Snapshot(2, NEW_CLIENT)))
  const RECLEARED := REBINDING.(register := map[], phase := Cleared(Snapshot(2, NEW_CLIENT)))
  const REBOUND := RECLEARED.(phase := Idle, snapshot := Some(Snapshot(2, NEW_CLIENT)))

  lemma BindingSteps()
    ensures IsStep(NOTHING, BeginBind("a", "u", true), BINDING)
    ensures IsStep(BINDING, ClearRegister, CLEARED)
    ensures IsStep(CLEARED, StoreSnapshot, BOUND)
  {
  }

  lemma MessageSteps()
    ensures IsStep(BOUND, Register(true, T, true, false), REGISTERED)
    ensures IsStep(REGISTERED, Deliver(SLOT, []), DELIVERED)
  {
    var none: seq<Handler> := [];
    assert none + [H] == [H];
    assert BOUND.slots + {SLOT} == {SLOT};
    assert RegisterStep(BOUND, T, false).register == REGISTERED.register;
    assert DELIVERED.posted == REGISTERED.posted + [Post(T, 1, [], 0)];
  }

  lemma HopSteps()
    ensures IsStep(DELIVERED, Dispatch, CALLING)
    ensures IsStep(CALLING, Check(0), CHECKED)
  {
    assert [Post(T, 1, [], 0)][1..] == [];
    assert CallsFor([H], Post(T, 1, [], 0)) == [CALL];
  }

  lemma RebindingSteps()
    ensures IsStep(CHECKED, BeginBind("b", "u", true), REBINDING)
    ensures IsStep(REBINDING, ClearRegister, RECLEARED)
    ensures IsStep(RECLEARED, StoreSnapshot, REBOUND)
    ensures IsStep(REBOUND, Invoke(0), REBOUND.(checked := []))
  {
  }

  /** The binding of a message can be replaced between the check in the handler's thread (event 6) and
      the call (event 10), if that is not the adapter's thread. */
  lemma RemoteHandlersMayBeLate() returns (ss: seq<State>, es: seq<Event>)
    ensures IsRun(ss, es) && |es| == 11 && es[6] == Check(0) && es[10] == Invoke(0)
    ensures ss[10].checked == [CALL] && CheckedBy(ss[6], es[6], CALL)
    ensures ss[10].snapshot != ss[6].snapshot && !PassesSecondHop(ss[10], CALL)
  {
    BindingSteps();
    MessageSteps();
    HopSteps();
    RebindingSteps();
    ss := [NOTHING, BINDING, CLEARED, BOUND, REGISTERED, DELIVERED, CALLING, CHECKED, REBINDING, RECLEARED,
           REBOUND, REBOUND.(checked := [])];
    es := [BeginBind("a", "u", true), ClearRegister, StoreSnapshot, Register(true, T, true, false),
           Deliver(SLOT, []), Dispatch, Check(0), BeginBind("b", "u", true), ClearRegister, StoreSnapshot,
           Invoke(0)];
    hide IsStep;
  }
}
