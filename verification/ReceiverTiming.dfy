/** What the receive loop adds to the reassembler: a bound on the age of slots, and when running
    out of memory stops it. */
module ReceiverTiming {
  import opened Common
  import opened PacketHeader
  import opened VidRender
  import opened ReassemblyModel
  import opened ReassemblyInvariant
  import Run = ReassemblyRun
  import L = ReceiverModel

  // ---------------------------------------------------------------------------------------
  // Start times of slots

  // Slot j of t is slot j of s, possibly with more data, or was opened at `now`.
  ghost predicate KeepsStart(s: State, t: State, j: nat, now: TimePoint)
    requires |s.slots| == |t.slots| == MAX_SLOTS && j < MAX_SLOTS
  {
    t.slots[j].Occupied() ==>
      || t.slots[j].asmStart == now
      || (s.slots[j].Occupied() && t.slots[j].asmStart == s.slots[j].asmStart)
  }

  lemma FilledStart(bi: bool, packet: seq<u8>, r: Routed, j: nat)
    requires Inv(r.s) && Run.SectionOk(bi, packet, r) && j < MAX_SLOTS
    ensures var t := Run.Filled(bi, packet, r);
      |t.slots| == MAX_SLOTS && t.slots[j].asmStart == r.s.slots[j].asmStart && t.slots[j].frame == r.s.slots[j].frame
  {
    hide Parse, Inv;
  }

  lemma RoutedStart(s: State, packet: seq<u8>, now: TimePoint, r: Routed, j: nat)
    requires Run.RouteOk(s, packet, now, r) && j < MAX_SLOTS
    ensures |s.slots| == |r.s.slots| == MAX_SLOTS && KeepsStart(s, r.s, j, now)
  {
    hide Inv, Parse, Run.IsAdmitted, Run.StartsSession;
  }

  lemma PushedStart(s: State, packet: seq<u8>, r: Routed, env: PushEnv, j: nat)
    requires Inv(r.s) && Run.SectionOk(s.fromBi, packet, r) && j < MAX_SLOTS
    ensures var t := Run.RecvStep(s, packet, r, env);
      |t.slots| == MAX_SLOTS && (t.slots[j].Occupied() ==>
        t.slots[j].asmStart == r.s.slots[j].asmStart && r.s.slots[j].Occupied())
  {
    FilledStart(s.fromBi, packet, r, j);
    hide Inv, Parse, Run.Filled, Run.Completes;
  }

  lemma RecvKeepsStart(s: State, packet: seq<u8>, now: TimePoint, pick: nat, env: PushEnv, j: nat)
    requires Inv(s) && Run.Enabled(s, Run.Recv(packet, now, pick, env)) && j < MAX_SLOTS
    ensures var t := Run.Step(s, Run.Recv(packet, now, pick, env)); |t.slots| == MAX_SLOTS && KeepsStart(s, t, j, now)
  {
    var r := Route(s, packet, now, pick);
    hide Inv, Parse, Route, Run.RecvStep, Run.RouteOk;
    Run.RouteInv(s, packet, now, pick);
    RoutedStart(s, packet, now, r, j);
    RoutedInv(s, packet, now, r);
    PushedStart(s, packet, r, env, j);
  }

  lemma RoutedInv(s: State, packet: seq<u8>, now: TimePoint, r: Routed)
    requires Run.RouteOk(s, packet, now, r)
    ensures Inv(r.s)
  {
  }

  // After a scan from slot j on, slots from j on have not timed out.
  lemma {:induction false} ScanFromClears(s: State, j: nat, now: TimePoint, envs: seq<PushEnv>, k: nat)
    requires j <= |s.slots| == |envs| && k < |s.slots|
    ensures var u := ScanFrom(s, j, now, envs).slots[k];
      (u == s.slots[k] || u == EMPTY_SLOT) && (k >= j ==> !TimedOut(u, now))
    decreases |s.slots| - j
  {
    if j < |s.slots| {
      ScanFromClears(ScanSlot(s, j, now, envs[j]), j + 1, now, envs, k);
    }
  }

  lemma ScanClears(s: State, now: TimePoint, envs: seq<PushEnv>, j: nat)
    requires Inv(s) && Run.Enabled(s, Run.Scan(now, envs)) && j < MAX_SLOTS
    ensures var t := Run.Step(s, Run.Scan(now, envs));
      && |t.slots| == MAX_SLOTS
      && (t.slots[j].Occupied() ==> t.slots[j] == s.slots[j] && now - t.slots[j].asmStart <= REASSEMBLE_TIMEOUT)
  {
    ScanFromClears(Expire(s, now), 0, now, envs, j);
    hide Inv, ScanFrom;
  }

  lemma OtherKeepsSlots(s: State, e: Run.Event)
    requires Inv(s) && Run.Enabled(s, e) && (e.Release? || e.Allow?)
    ensures Run.Step(s, e).slots == s.slots
  {
    hide Inv;
  }

  // ---------------------------------------------------------------------------------------
  // The age of slots under the loop

  // How old a slot can be when the loop goes to its blocking receive, and at any other time.
  const MAX_AGE: int := REASSEMBLE_TIMEOUT + L.SCAN_PERIOD
  const MAX_AGE_RECEIVED: int := MAX_AGE + L.RECV_TIMEOUT

  function AgeLimit(phase: L.Phase): int { if phase.Receiving? then MAX_AGE else MAX_AGE_RECEIVED }

  // The slot was no older than the timeout at the last scan, and is no older than the limit now.
  ghost predicate SlotAged(s: L.State, slot: Slot) {
    slot.Occupied() ==>
      && slot.asmStart <= s.clock && s.lastScan - slot.asmStart <= REASSEMBLE_TIMEOUT
      && s.clock - slot.asmStart <= AgeLimit(s.phase)
  }

  ghost predicate Aged(s: L.State) {
    && s.lastScan <= s.clock && |s.r.slots| == MAX_SLOTS
    && forall j | 0 <= j < MAX_SLOTS :: SlotAged(s, s.r.slots[j])
  }

  lemma AgedSlot(s: L.State, e: L.Event, j: nat)
    requires Inv(s.r) && L.Enabled(s, e) && Aged(s) && j < MAX_SLOTS
    ensures var t := L.Step(s, e); |t.r.slots| == MAX_SLOTS && SlotAged(t, t.r.slots[j])
  {
    assert SlotAged(s, s.r.slots[j]);
    match e
    case Turn(now, scanNow, envs) =>
      if L.Scans(s, e) { ScanClears(s.r, scanNow, envs, j); }
      hide Run.Step, Run.Enabled, Inv;
    case Receive(result, now, pick, env) =>
      if result.Packet? { RecvKeepsStart(s.r, result.bytes, now, pick, env, j); }
      hide Run.Step, Run.Enabled, Inv;
    case Background(b) =>
      OtherKeepsSlots(s.r, b);
      hide Run.Step, Run.Enabled, Inv;
    case Stop =>
      hide Run.Step, Run.Enabled, Inv;
  }

  lemma AgedStep(s: L.State, e: L.Event)
    requires Inv(s.r) && L.Enabled(s, e) && Aged(s)
    ensures Aged(L.Step(s, e))
  {
    AgedSlot(s, e, 0);
    forall j | 0 <= j < MAX_SLOTS
      ensures SlotAged(L.Step(s, e), L.Step(s, e).r.slots[j])
    {
      AgedSlot(s, e, j);
    }
    hide Run.Step, Run.Enabled, Inv, SlotAged;
  }

  lemma {:induction false} RunAged(ss: seq<L.State>, es: seq<L.Event>, n: nat)
    requires L.IsRun(ss, es) && n <= |es|
    ensures Aged(ss[n])
  {
    if n > 0 {
      L.RunInv(ss, es, n - 1);
      hide L.IsRun, L.Step, L.Enabled, Aged, Inv;
      RunAged(ss, es, n - 1);
      AgedStep(ss[n - 1], es[n - 1]);
    }
  }

  /** In every state of every run no slot is older than 115 ms at the last clock reading, and none
      is older than 65 ms, the reassembly timeout and the scan period, when the loop goes to its
      blocking receive: frames that stall are given up in time however packets arrive. */
  lemma SlotsAreYoung(ss: seq<L.State>, es: seq<L.Event>, n: nat, j: nat)
    requires L.IsRun(ss, es) && n <= |es| && j < MAX_SLOTS
    ensures |ss[n].r.slots| == MAX_SLOTS
    ensures ss[n].r.slots[j].Occupied() ==> ss[n].clock - ss[n].r.slots[j].asmStart <= 115 * MS
    ensures ss[n].r.slots[j].Occupied() && ss[n].phase.Receiving? ==>
      ss[n].clock - ss[n].r.slots[j].asmStart <= 65 * MS
  {
    RunAged(ss, es, n);
    hide L.IsRun;
    assert SlotAged(ss[n], ss[n].r.slots[j]);
  }

  /** A packet never reaches a slot older than 115 ms either: receiving may take 50 ms more. */
  lemma SlotsAreYoungAtReception(ss: seq<L.State>, es: seq<L.Event>, n: nat, j: nat)
    requires L.IsRun(ss, es) && n < |es| && es[n].Receive? && j < MAX_SLOTS
    ensures |ss[n].r.slots| == MAX_SLOTS
    ensures ss[n].r.slots[j].Occupied() ==> es[n].now - ss[n].r.slots[j].asmStart <= 115 * MS
  {
    L.RunInv(ss, es, n);
    SlotsAreYoung(ss, es, n, j);
    hide L.IsRun, Inv, Run.Enabled;
  }

  // ---------------------------------------------------------------------------------------
  // Running out of memory

  // Failures for want of memory since the last successful receive; other errors do not count.
  function NoMemorySince(es: seq<L.Event>, n: nat): nat
    requires n <= |es|
  {
    if n == 0 then 0
    else if es[n - 1].Receive? && (es[n - 1].result.Packet? || es[n - 1].result.Empty?) then 0
    else NoMemorySince(es, n - 1) + if es[n - 1].Receive? && es[n - 1].result.NoMemory? then 1 else 0
  }

  lemma {:induction false} NoMemoryCounted(ss: seq<L.State>, es: seq<L.Event>, n: nat)
    requires L.IsRun(ss, es) && n <= |es|
    ensures ss[n].noMemory == NoMemorySince(es, n)
  {
    if n > 0 {
      L.RunInv(ss, es, n - 1);
      NoMemoryCounted(ss, es, n - 1);
      hide L.IsRun, Inv, Run.Step, Run.Enabled;
    }
  }

  /** Exactly what ends the loop from inside: the sixth failure for want of memory without a
      successful receive in between, timeouts and interruptions notwithstanding, or an error that
      the loop does not know. */
  lemma LoopEndsIff(ss: seq<L.State>, es: seq<L.Event>, n: nat)
    requires L.IsRun(ss, es) && n < |es| && es[n].Receive?
    ensures ss[n + 1].phase.Stopped? <==>
      es[n].result.Fatal? || (es[n].result.NoMemory? && NoMemorySince(es, n + 1) > 5)
  {
    L.RunInv(ss, es, n);
    NoMemoryCounted(ss, es, n);
    hide L.IsRun, Inv, Run.Step, Run.Enabled;
  }
}
