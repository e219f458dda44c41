/** Which slot a packet gets, what is evicted for it, and what the scan gives up or pushes: said on the
    fields of the slots. */
module ReassemblyPolicy {
  import opened Common
  import opened PacketHeader
  import opened FramePool
  import opened VidRender
  import opened ReassemblyModel
  import opened ReassemblyInvariant
  import opened ReassemblyRun
  import opened ReassemblyHistory
  import opened ReassemblyDelivery

  // ---------------------------------------------------------------------------------------
  // Choosing a slot

  // Frame i is to go before frame k: the smaller class first, then the older, then the lower position.
  predicate GoesBefore(slots: seq<Slot>, i: nat, k: nat)
    requires i < |slots| && k < |slots|
  {
    var li, lk := slots[i].frame.DataLen() >= 5000, slots[k].frame.DataLen() >= 5000;
    || (!li && lk)
    || (li == lk && slots[i].asmStart < slots[k].asmStart)
    || (li == lk && slots[i].asmStart == slots[k].asmStart && i < k)
  }

  ghost predicate AllTaken(slots: seq<Slot>, idx: u16) {
    forall j | 0 <= j < |slots| :: slots[j].Occupied() && slots[j].frameIdx != idx
  }

  // The slot policy with every slot taken by another frame.
  lemma ChosenIsFirst(slots: seq<Slot>, idx: u16, k: nat)
    requires k < |slots| && AllTaken(slots, idx)
    ensures Chosen(slots, idx) == k <==> forall i | 0 <= i < |slots| && i != k :: GoesBefore(slots, k, i)
  {
    var j := Chosen(slots, idx);
    assert forall i :: !Matches(slots, idx, i) && !Vacant(slots, i);
    forall i | 0 <= i < |slots| && i != j
      ensures GoesBefore(slots, j, i)
    {
      assert OfSize(slots, false, i) || OfSize(slots, true, i);
    }
    if k != j {
      assert GoesBefore(slots, j, k);
      assert !GoesBefore(slots, k, j);
    }
  }

  // A packet of a session under way.
  ghost predicate Continues(s: State, packet: seq<u8>, now: TimePoint) {
    IsAdmitted(s, packet, now) && !StartsSession(s, packet, now)
  }

  lemma RouteContinues(s: State, packet: seq<u8>, now: TimePoint, pick: nat)
    requires Inv(s) && Continues(s, packet, now)
    ensures var h := Parse(s.fromBi, packet); var t := Expire(s, now).(lastSynced := now);
      t.slots == s.slots && t.free == s.free && Route(s, packet, now, pick) == Locate(t, h, now, pick)
  {
    hide Inv, Parse, Locate, Diff;
  }

  /** Eviction: a packet of a session under way empties an occupied slot k before fill() if and only if
      all five slots are taken by other frames and k goes before all others: a frame shorter than 5000
      bytes before any longer one, within a class the one opened first, at the same time the lower
      position. No other slot is touched. */
  lemma EvictedIff(s: State, packet: seq<u8>, now: TimePoint, pick: nat, k: nat)
    requires Inv(s) && now < TIME_MAX && Continues(s, packet, now) && k < 5 && s.slots[k].Occupied()
    ensures Route(s, packet, now, pick).s.slots[k] != s.slots[k] <==>
      && AllTaken(s.slots, Parse(s.fromBi, packet).frameIdx)
      && forall i | 0 <= i < 5 && i != k :: GoesBefore(s.slots, k, i)
  {
    var h := Parse(s.fromBi, packet);
    RouteContinues(s, packet, now, pick);
    hide Route, Continues, Parse;
    var t := Expire(s, now).(lastSynced := now);
    if AllTaken(s.slots, h.frameIdx) {
      ChosenIsFirst(s.slots, h.frameIdx, k);
      EvictsChosen(t, h, now, pick, k);
    } else {
      RoomStays(t, h, now, pick, k);
    }
    hide Inv, GoesBefore, Locate;
  }

  // With all slots taken by others exactly the chosen one is replaced.
  lemma EvictsChosen(s: State, h: Header, now: TimePoint, pick: nat, k: nat)
    requires |s.slots| == MAX_SLOTS && k < MAX_SLOTS && s.slots[k].Occupied() && AllTaken(s.slots, h.frameIdx)
    ensures Locate(s, h, now, pick).s.slots[k] != s.slots[k] <==> Chosen(s.slots, h.frameIdx) == k
  {
    var j := Chosen(s.slots, h.frameIdx);
    assert s.slots[j].frameIdx != h.frameIdx && s.slots[j].Occupied();
    hide IsChoice;
  }

  lemma RoomStays(s: State, h: Header, now: TimePoint, pick: nat, k: nat)
    requires |s.slots| == MAX_SLOTS && k < MAX_SLOTS && s.slots[k].Occupied() && !AllTaken(s.slots, h.frameIdx)
    ensures Locate(s, h, now, pick).s.slots[k] == s.slots[k]
  {
    var i :| 0 <= i < |s.slots| && !(s.slots[i].Occupied() && s.slots[i].frameIdx != h.frameIdx);
    assert Matches(s.slots, h.frameIdx, i) || Vacant(s.slots, i);
  }

  /** Placement: a packet of a session under way goes to the slot of its frame if there is one, and
      otherwise, if some slot is vacant, to the first of those. */
  lemma PlacedIn(s: State, packet: seq<u8>, now: TimePoint, pick: nat, k: nat)
    requires Inv(s) && Continues(s, packet, now) && k < 5
    ensures var r := Route(s, packet, now, pick); var idx := Parse(s.fromBi, packet).frameIdx;
      && (s.slots[k].Occupied() && s.slots[k].frameIdx == idx ==> r.Ready? && r.j == k)
      && (!s.slots[k].Occupied() && (forall i | 0 <= i < 5 :: s.slots[i].Occupied() ==> s.slots[i].frameIdx != idx)
          && (forall i | 0 <= i < k :: s.slots[i].Occupied()) && s.free != [] ==>
            r.Ready? && r.j == k)
  {
    var h := Parse(s.fromBi, packet);
    RouteContinues(s, packet, now, pick);
    hide Route, Continues, Parse, Conserved;
    var t := Expire(s, now).(lastSynced := now);
    var j := Chosen(t.slots, h.frameIdx);
    if s.slots[k].Occupied() {
      assert s.slots[k].frameIdx == h.frameIdx ==> Matches(t.slots, h.frameIdx, k);
    } else {
      assert Vacant(t.slots, k);
    }
  }

  // A packet that is dropped for its header touches no slot.
  lemma DroppedKeeps(s: State, packet: seq<u8>, now: TimePoint, pick: nat)
    requires |s.slots| == MAX_SLOTS && !IsAdmitted(s, packet, now)
    ensures Route(s, packet, now, pick).s.slots == s.slots
  {
  }

  lemma AdmittedHasHeader(s: State, packet: seq<u8>, now: TimePoint)
    requires IsAdmitted(s, packet, now)
    ensures |packet| >= HEADER_SIZE
  {
  }

  /** The same over runs, for every packet that starts no session. */
  lemma EvictionInRun(ss: seq<State>, es: seq<Event>, n: nat, k: nat)
    requires IsRun(ss, es) && n < |es| && es[n].Recv? && !StartsSession(ss[n], es[n].packet, es[n].now)
    requires k < 5 && OccupiedAt(ss[n], k)
    ensures RouteAt(ss, es, n).s.slots[k] != ss[n].slots[k] <==>
      && IsAdmitted(ss[n], es[n].packet, es[n].now)
      && AllTaken(ss[n].slots, Parse(ss[n].fromBi, es[n].packet).frameIdx)
      && forall i | 0 <= i < 5 && i != k :: GoesBefore(ss[n].slots, k, i)
  {
    RunInv(ss, es, n);
    var r := RouteAt(ss, es, n);
    hide IsRun, Parse, Route, Inv, IsAdmitted, StartsSession;
    if IsAdmitted(ss[n], es[n].packet, es[n].now) {
      AdmittedHasHeader(ss[n], es[n].packet, es[n].now);
      EvictedIff(ss[n], es[n].packet, es[n].now, es[n].pick, k);
    } else {
      DroppedKeeps(ss[n], es[n].packet, es[n].now, es[n].pick);
    }
  }

  // ---------------------------------------------------------------------------------------
  // What the pipeline is offered

  predicate Takes(env: PushEnv) {
    env.pipelineReady && !env.fileSource && !env.levelExceeded && env.bufferCreated && env.flowOk
  }

  /** A completed frame is in the pipeline afterwards exactly if it is not empty and the library took it. */
  lemma CompletedIsOffered(ss: seq<State>, es: seq<Event>, n: nat)
    requires IsRun(ss, es) && n < |es| && PushesAt(ss, es, n)
    ensures var f := PushedSlot(ss, es, n).frame;
      ss[n + 1].inFlight == ss[n].inFlight + if f.DataLen() > 0 && Takes(es[n].env) then [f] else []
  {
    hide IsRun, Parse;
    PushedSlotFacts(ss, es, n);
  }

  // ---------------------------------------------------------------------------------------
  // The scan

  // The option "push incomplete frames" after n events; it is off until it is set.
  function AllowedBy(es: seq<Event>, n: nat): bool
    requires n <= |es|
  {
    if n == 0 then false else if es[n - 1].Allow? then es[n - 1].allow else AllowedBy(es, n - 1)
  }

  lemma {:induction false} ClearFromOption(s: State, j: nat)
    requires j <= |s.slots|
    ensures ClearFrom(s, j).allowIncomplete == s.allowIncomplete
    decreases |s.slots| - j
  {
    if j < |s.slots| { ClearFromOption(ClearSlot(s, j), j + 1); }
  }

  lemma {:induction false} ScanFromOption(s: State, j: nat, now: TimePoint, envs: seq<PushEnv>)
    requires j <= |s.slots| == |envs|
    ensures ScanFrom(s, j, now, envs).allowIncomplete == s.allowIncomplete
    decreases |s.slots| - j
  {
    if j < |s.slots| { ScanFromOption(ScanSlot(s, j, now, envs[j]), j + 1, now, envs); }
  }

  lemma RouteOption(s: State, packet: seq<u8>, now: TimePoint, pick: nat)
    requires |s.slots| == MAX_SLOTS
    ensures Route(s, packet, now, pick).s.allowIncomplete == s.allowIncomplete
  {
    hide Parse, Diff, ClearFrom, Chosen, RemoveAt, IsStale;
    ClearFromOption(Expire(s, now), 0);
  }

  lemma OptionStep(s: State, e: Event)
    requires Inv(s) && Enabled(s, e)
    ensures Step(s, e).allowIncomplete == if e.Allow? then e.allow else s.allowIncomplete
  {
    if e.Recv? {
      RouteInv(s, e.packet, e.now, e.pick);
      RouteOption(s, e.packet, e.now, e.pick);
      RecvOption(s, e.packet, Route(s, e.packet, e.now, e.pick), e.env);
    }
    if e.Scan? { ScanFromOption(Expire(s, e.now), 0, e.now, e.envs); }
    hide Inv, Route, ScanFrom, Parse, RecvStep, SectionOk, RouteOk;
  }

  lemma RecvOption(s: State, packet: seq<u8>, r: Routed, env: PushEnv)
    requires Inv(r.s) && SectionOk(s.fromBi, packet, r)
    ensures RecvStep(s, packet, r, env).allowIncomplete == r.s.allowIncomplete
  {
    hide Inv, Parse, FillAccepts, SectionOk;
  }

  lemma {:induction false} OptionInRun(ss: seq<State>, es: seq<Event>, n: nat)
    requires IsRun(ss, es) && n <= |es|
    ensures ss[n].allowIncomplete == AllowedBy(es, n)
  {
    if n > 0 {
      RunInv(ss, es, n - 1);
      hide IsRun, Step, Enabled, Inv;
      OptionInRun(ss, es, n - 1);
      OptionStep(ss[n - 1], es[n - 1]);
    } else {
      hide Indices;
    }
  }

  // Slot j has been assembling for more than 60 ms.
  predicate IsOverdue(slots: seq<Slot>, now: TimePoint, j: nat)
    requires j < |slots|
  {
    slots[j].Occupied() && now - slots[j].asmStart > 60_000_000
  }

  // The last pushed index when the scan comes to slot j.
  function LastAt(slots: seq<Slot>, last: u16, allowed: bool, now: TimePoint, j: nat): u16
    requires j <= |slots|
    decreases j, 0
  {
    if j == 0 then last
    else if GoesOut(slots, last, allowed, now, j - 1) then slots[j - 1].frameIdx
    else LastAt(slots, last, allowed, now, j - 1)
  }

  /** The scan pushes slot j: it is overdue, incomplete frames are allowed, at least 95 % of it has arrived,
      and its index is 1 to 32767 ahead of the last pushed one. */
  predicate GoesOut(slots: seq<Slot>, last: u16, allowed: bool, now: TimePoint, j: nat)
    requires j < |slots|
    decreases j, 1
  {
    && IsOverdue(slots, now, j) && allowed
    && 0 < slots[j].frame.DataLen() && slots[j].curLen <= slots[j].frame.DataLen()
    && 100 * slots[j].curLen >= 95 * slots[j].frame.DataLen()
    && 1 <= (slots[j].frameIdx - LastAt(slots, last, allowed, now, j)) % 65536 <= 32767
  }

  // The frames that the library takes of those pushed from the slots before j.
  function TakenBefore(slots: seq<Slot>, last: u16, allowed: bool, now: TimePoint, envs: seq<PushEnv>, j: nat)
    : seq<FrameData>
    requires j <= |slots| == |envs|
  {
    if j == 0 then []
    else
      TakenBefore(slots, last, allowed, now, envs, j - 1) +
      if GoesOut(slots, last, allowed, now, j - 1) && Takes(envs[j - 1]) then [slots[j - 1].frame] else []
  }

  // The state when the scan comes to slot j, by the fields of the slots it found.
  ghost predicate ScannedTo(s: State, t: State, now: TimePoint, envs: seq<PushEnv>, j: nat)
    requires j <= |s.slots| == |envs|
  {
    && t.allowIncomplete == s.allowIncomplete && |t.slots| == |s.slots|
    && t.lastPushed == LastAt(s.slots, s.lastPushed, s.allowIncomplete, now, j)
    && t.inFlight == s.inFlight + TakenBefore(s.slots, s.lastPushed, s.allowIncomplete, now, envs, j)
    && (forall i | 0 <= i < |s.slots| ::
          t.slots[i] == if i < j && IsOverdue(s.slots, now, i) then EMPTY_SLOT else s.slots[i])
  }

  lemma AheadIs(a: u16, b: u16)
    ensures IsAfter(a, b) <==> 1 <= (a - b) % 65536 <= 32767
  {
  }

  lemma ScanNext(s: State, t: State, now: TimePoint, envs: seq<PushEnv>, j: nat)
    requires j < |s.slots| == |envs| && ScannedTo(s, t, now, envs, j)
    ensures ScannedTo(s, ScanSlot(t, j, now, envs[j]), now, envs, j + 1)
  {
    AheadIs(s.slots[j].frameIdx, t.lastPushed);
    hide IsAfter;
  }

  lemma {:induction false} ScanAll(s: State, t: State, now: TimePoint, envs: seq<PushEnv>, j: nat)
    requires j <= |s.slots| == |envs| && ScannedTo(s, t, now, envs, j)
    ensures ScannedTo(s, ScanFrom(t, j, now, envs), now, envs, |s.slots|)
    decreases |s.slots| - j
  {
    if j < |s.slots| {
      ScanNext(s, t, now, envs, j);
      hide ScannedTo, ScanSlot;
      ScanAll(s, ScanSlot(t, j, now, envs[j]), now, envs, j + 1);
    }
  }

  /** The scan over runs: it empties exactly the slots that have been assembling for more than 60 ms, and
      of those pushes exactly the ones that go out, one after the other; the option is what it was last
      set to. */
  lemma ScanInRun(ss: seq<State>, es: seq<Event>, n: nat)
    requires IsRun(ss, es) && n < |es| && es[n].Scan?
    ensures |ss[n].slots| == |ss[n + 1].slots| == |es[n].envs| == 5
    ensures ss[n + 1].lastPushed == LastAt(ss[n].slots, ss[n].lastPushed, AllowedBy(es, n), es[n].now, 5)
    ensures ss[n + 1].inFlight == ss[n].inFlight +
      TakenBefore(ss[n].slots, ss[n].lastPushed, AllowedBy(es, n), es[n].now, es[n].envs, 5)
    ensures forall i | 0 <= i < 5 ::
      ss[n + 1].slots[i] == if IsOverdue(ss[n].slots, es[n].now, i) then EMPTY_SLOT else ss[n].slots[i]
  {
    RunInv(ss, es, n);
    OptionInRun(ss, es, n);
    hide IsRun, Inv, AllowedBy;
    var s := Expire(ss[n], es[n].now);
    assert ScannedTo(s, s, es[n].now, es[n].envs, 0);
    ScanAll(s, s, es[n].now, es[n].envs, 0);
    hide ScanFrom, GoesOut, LastAt, TakenBefore;
  }
}
