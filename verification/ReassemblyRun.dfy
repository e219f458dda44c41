/** Steps and runs of the reassembler, and the invariant over every run. */
module ReassemblyRun {
  import opened Common
  import opened PacketHeader
  import opened FramePool
  import opened VidRender
  import opened ReassemblyModel
  import opened ReassemblyInvariant

  // ---------------------------------------------------------------------------------------
  // Routing a packet keeps the invariant and reaches only its own slot

  // A slot just opened for header h at time now.
  ghost predicate Fresh(slot: Slot, h: Header, now: TimePoint) {
    && slot.Occupied() && slot.frame.frameLen == h.frameLen && slot.frameIdx == h.frameIdx
    && slot.curLen == 0 && slot.received == {} && slot.asmStart == now
  }

  lemma AdmitInv(s: State, idx: u16, now: TimePoint)
    requires Inv(s)
    ensures Inv(Admit(s, idx, now))
    ensures var t := Admit(s, idx, now);
      && t.mem == s.mem && t.inFlight == s.inFlight && t.fromBi == s.fromBi
      && t.lastPushed == (if Resyncs(s, idx) then Pred(idx) else s.lastPushed)
      && t.slots == if Resyncs(s, idx) then NoSlots() else s.slots
  {
    ClearFromInv(s, 0);
    var t := if Resyncs(s, idx) then ClearFrom(s, 0) else s;
    SessionFieldsFree(t, Admit(s, idx, now));
    assert Resyncs(s, idx) ==> t.slots == NoSlots();
  }

  function NoSlots(): seq<Slot> { seq(MAX_SLOTS, _ => EMPTY_SLOT) }

  // Only slot j may differ, unless it was emptied.
  ghost predicate OthersKept(old_: seq<Slot>, new_: seq<Slot>, j: int) {
    && |old_| == |new_| == MAX_SLOTS
    && forall k | 0 <= k < MAX_SLOTS && k != j :: new_[k] == old_[k] || new_[k] == EMPTY_SLOT
  }

  lemma LocateInv(s: State, h: Header, now: TimePoint, pick: nat)
    requires Inv(s) && h.frameLen <= SLOT_LEN && now < TIME_MAX
    ensures var r := Locate(s, h, now, pick);
      && Inv(r.s) && r.s.mem == s.mem && r.s.inFlight == s.inFlight && r.s.lastPushed == s.lastPushed
      && OthersKept(s.slots, r.s.slots, if r.Ready? then r.j else -1)
      && (r.Ready? ==> r.j < MAX_SLOTS)
      && (r.Ready? && Matches(s.slots, h.frameIdx, r.j) ==> r.s == s)
      && (r.Ready? && !Matches(s.slots, h.frameIdx, r.j) ==>
            Fresh(r.s.slots[r.j], h, now) && forall k :: !Matches(s.slots, h.frameIdx, k))
  {
    var j := Chosen(s.slots, h.frameIdx);
    if !Matches(s.slots, h.frameIdx, j) {
      assert forall k :: !Matches(s.slots, h.frameIdx, k);
      assert Vacant(s.slots, j) ==> s.slots[j] == EMPTY_SLOT;
      hide Inv, IsChoice;
      var t := if Vacant(s.slots, j) then s else ClearSlot(s, j);
      ClearSlotInv(s, j);
      if t.free != [] {
        OpenInEmpty(t, j, h, now, pick, s.slots);
      }
    }
  }

  lemma OpenInEmpty(t: State, j: nat, h: Header, now: TimePoint, pick: nat, slots: seq<Slot>)
    requires Inv(t) && j < MAX_SLOTS && t.slots[j] == EMPTY_SLOT && t.free != [] && OthersKept(slots, t.slots, j)
    requires h.frameLen <= SLOT_LEN && now < TIME_MAX && forall k :: !Matches(slots, h.frameIdx, k)
    ensures var u := OpenSlot(t, j, h, now, pick);
      Inv(u) && u.mem == t.mem && u.inFlight == t.inFlight && Fresh(u.slots[j], h, now) && OthersKept(slots, u.slots, j)
  {
    hide Inv;
    forall k ensures !Matches(t.slots, h.frameIdx, k) {
      assert !Matches(slots, h.frameIdx, k);
    }
    OpenSlotInv(t, j, h, now, pick);
  }

  // The packet passes the length and index checks.
  predicate IsAdmitted(s: State, packet: seq<u8>, now: TimePoint) {
    && |packet| >= HEADER_SIZE
    && Parse(s.fromBi, packet).frameLen <= SLOT_LEN
    && !IsStale(Expire(s, now), Parse(s.fromBi, packet).frameIdx)
  }

  // The packet starts a new session.
  predicate StartsSession(s: State, packet: seq<u8>, now: TimePoint) {
    IsAdmitted(s, packet, now) && Resyncs(Expire(s, now), Parse(s.fromBi, packet).frameIdx)
  }

  // What routing a packet does: nothing but the packet's own slot can become occupied, and
  // that slot is either the one already assembling this index or a fresh one.
  ghost predicate RouteOk(s: State, packet: seq<u8>, now: TimePoint, r: Routed) {
    && Inv(s) && Inv(r.s) && r.s.mem == s.mem && r.s.inFlight == s.inFlight
    && OthersKept(s.slots, r.s.slots, if r.Ready? then r.j else -1)
    && (r.Ready? ==>
          && r.j < MAX_SLOTS && |packet| >= HEADER_SIZE
          && var h := Parse(s.fromBi, packet);
             && h.frameLen <= SLOT_LEN
             && r.s.slots[r.j].Occupied() && r.s.slots[r.j].frameIdx == h.frameIdx
             && IsAdmitted(s, packet, now)
             && (r.s.slots[r.j] == s.slots[r.j] || Fresh(r.s.slots[r.j], h, now)))
    && r.s.lastPushed ==
       (if StartsSession(s, packet, now) then Pred(Parse(s.fromBi, packet).frameIdx) else s.lastPushed)
    && (r.Ready? ==> IsAfter(Parse(s.fromBi, packet).frameIdx, r.s.lastPushed))
    && (StartsSession(s, packet, now) ==>
          forall k | 0 <= k < MAX_SLOTS && r.s.slots[k].Occupied() ::
            r.Ready? && k == r.j && Fresh(r.s.slots[k], Parse(s.fromBi, packet), now))
  }

  lemma RouteInv(s: State, packet: seq<u8>, now: TimePoint, pick: nat)
    requires Inv(s) && now < TIME_MAX
    ensures RouteOk(s, packet, now, Route(s, packet, now, pick))
  {
    hide Inv, Parse, Locate, Admit;
    var t := Expire(s, now);
    SessionFieldsFree(s, t);
    if |packet| >= HEADER_SIZE {
      var h := Parse(s.fromBi, packet);
      if IsAdmitted(s, packet, now) {
        AdmitInv(t, h.frameIdx, now);
        LocateInv(Admit(t, h.frameIdx, now), h, now, pick);
      }
    }
  }

  // ---------------------------------------------------------------------------------------
  // Steps

  datatype Event =
    | Recv(packet: seq<u8>, now: TimePoint, pick: nat, env: PushEnv)
    | Scan(now: TimePoint, envs: seq<PushEnv>)
    | Release(k: nat)
    | Allow(allow: bool)

  // The section of a routed packet starts inside the frame it is about to be stored into.
  predicate SectionOk(fromBi: bool, packet: seq<u8>, r: Routed) {
    r.Ready? && |packet| >= HEADER_SIZE && r.j < |r.s.slots| && r.s.slots[r.j].Occupied() ==>
      StartsInside(r.s.slots[r.j], Parse(fromBi, packet))
  }

  /** What the callers guarantee: packets fit the receive buffer, clock readings are below the
      largest time point, the pipeline frees only buffers it holds, and a section starts inside
      its frame. */
  ghost predicate Enabled(s: State, e: Event)
    requires |s.slots| == MAX_SLOTS
  {
    match e
    case Recv(packet, now, pick, _) =>
      |packet| <= MTU_LEN && now < TIME_MAX && SectionOk(s.fromBi, packet, Route(s, packet, now, pick))
    case Scan(_, envs) => |envs| == MAX_SLOTS
    case Release(k) => k < |s.inFlight|
    case Allow(_) => true
  }

  /** fill() on the routed packet's slot. */
  ghost function Filled(fromBi: bool, packet: seq<u8>, r: Routed): State
    requires Inv(r.s) && SectionOk(fromBi, packet, r)
  {
    if Fills(fromBi, packet, r) then FillSlot(r.s, r.j, Parse(fromBi, packet), packet) else r.s
  }

  predicate Fills(fromBi: bool, packet: seq<u8>, r: Routed) {
    && r.Ready? && |packet| >= HEADER_SIZE && r.j < |r.s.slots|
    && FillAccepts(r.s.slots[r.j], Parse(fromBi, packet), packet)
  }

  // The packet is the one that completes its frame.
  ghost predicate Completes(fromBi: bool, packet: seq<u8>, r: Routed)
    requires Inv(r.s) && SectionOk(fromBi, packet, r)
  {
    Fills(fromBi, packet, r) && Filled(fromBi, packet, r).slots[r.j].Complete()
  }

  ghost function RecvStep(s: State, packet: seq<u8>, r: Routed, env: PushEnv): State
    requires Inv(r.s) && SectionOk(s.fromBi, packet, r)
  {
    var t := Filled(s.fromBi, packet, r);
    if Completes(s.fromBi, packet, r) then
      PushSlot(t, r.j, env).(lastPushed := Parse(s.fromBi, packet).frameIdx)
    else t
  }

  ghost function Step(s: State, e: Event): State
    requires Inv(s) && Enabled(s, e)
  {
    match e
    case Recv(packet, now, pick, env) =>
      RouteInv(s, packet, now, pick);
      RecvStep(s, packet, Route(s, packet, now, pick), env)
    case Scan(now, envs) => ScanFrom(Expire(s, now), 0, now, envs)
    case Release(k) => GiveBack(s, s.inFlight[k]).(inFlight := RemoveAt(s.inFlight, k))
    case Allow(allow) => s.(allowIncomplete := allow)
  }

  lemma FilledInv(fromBi: bool, packet: seq<u8>, r: Routed)
    requires Inv(r.s) && SectionOk(fromBi, packet, r) && |packet| <= MTU_LEN
    ensures Inv(Filled(fromBi, packet, r))
  {
    if Fills(fromBi, packet, r) {
      FillSlotInv(r.s, r.j, Parse(fromBi, packet), packet);
    }
  }

  lemma StepInv(s: State, e: Event)
    requires Inv(s) && Enabled(s, e)
    ensures Inv(Step(s, e))
  {
    match e
    case Recv(packet, now, pick, env) =>
      RouteInv(s, packet, now, pick);
      var r := Route(s, packet, now, pick);
      FilledInv(s.fromBi, packet, r);
      if Completes(s.fromBi, packet, r) {
        var t := PushSlot(Filled(s.fromBi, packet, r), r.j, env);
        PushSlotInv(Filled(s.fromBi, packet, r), r.j, env);
        SessionFieldsFree(t, t.(lastPushed := Parse(s.fromBi, packet).frameIdx));
      }
    case Scan(now, envs) =>
      SessionFieldsFree(s, Expire(s, now));
      ScanFromInv(Expire(s, now), 0, now, envs);
    case Release(k) => ReleaseInv(s, k);
    case Allow(allow) =>
      SessionFieldsFree(s, Step(s, e));
  }

  // ---------------------------------------------------------------------------------------
  // Runs

  /** ss[0] is an initial state and each ss[n + 1] is the result of event es[n]. A step is only
      defined where Inv holds; RunInv shows that it holds everywhere, so no step is skipped. */
  ghost predicate IsRun(ss: seq<State>, es: seq<Event>)
    ensures IsRun(ss, es) ==> |ss| == |es| + 1
  {
    && |ss| == |es| + 1
    && Initial(ss[0])
    && forall n | 0 <= n < |es| :: IsStep(ss[n], es[n], ss[n + 1])
  }

  ghost predicate IsStep(s: State, e: Event, t: State) {
    Inv(s) ==> Enabled(s, e) && t == Step(s, e)
  }

  lemma {:induction false} RunInv(ss: seq<State>, es: seq<Event>, n: nat)
    requires IsRun(ss, es) && n <= |es|
    ensures Inv(ss[n])
    ensures n < |es| ==> Enabled(ss[n], es[n]) && ss[n + 1] == Step(ss[n], es[n])
  {
    hide Inv, Enabled, Step;
    if n == 0 {
      InitialInv(ss[0]);
    } else {
      RunInv(ss, es, n - 1);
      StepInv(ss[n - 1], es[n - 1]);
    }
    assert n < |es| ==> IsStep(ss[n], es[n], ss[n + 1]);
  }

  /** Frame-pool conservation over every run: each of the ten indices is in exactly one place,
      so no two owners ever share a buffer. */
  lemma PoolConservation(ss: seq<State>, es: seq<Event>, n: nat, i: nat)
    requires IsRun(ss, es) && n <= |es| && i < POOL_SIZE
    ensures Listed(ss[n].free, i) + Held(Frames(ss[n].slots), i) + Held(ss[n].inFlight, i) == 1
  {
    RunInv(ss, es, n);
    assert Places(ss[n], i) == 1;
  }

  /** The slot table of every reachable state: at most one occupied slot per frame index, and a
      vacant slot has a zero counter and an empty bitmap, which opening it relies on. */
  lemma SlotTable(ss: seq<State>, es: seq<Event>, n: nat)
    requires IsRun(ss, es) && n <= |es|
    ensures |ss[n].slots| == MAX_SLOTS
    ensures forall i, j | 0 <= i < j < MAX_SLOTS && ss[n].slots[i].Occupied() && ss[n].slots[j].Occupied() ::
      ss[n].slots[i].frameIdx != ss[n].slots[j].frameIdx
    ensures forall j | 0 <= j < MAX_SLOTS && !ss[n].slots[j].Occupied() ::
      ss[n].slots[j].curLen == 0 && ss[n].slots[j].received == {}
  {
    RunInv(ss, es, n);
    hide IsRun, Conserved;
  }

  lemma AdmittedIsReady(s: State, packet: seq<u8>, now: TimePoint, pick: nat)
    requires Inv(s) && |s.inFlight| <= 5 && IsAdmitted(s, packet, now)
    ensures Route(s, packet, now, pick).Ready?
  {
    var h := Parse(s.fromBi, packet);
    var t := Expire(s, now);
    SessionFieldsFree(s, t);
    AdmitInv(t, h.frameIdx, now);
    var a := Admit(t, h.frameIdx, now);
    var j := Chosen(a.slots, h.frameIdx);
    if !Matches(a.slots, h.frameIdx, j) {
      var b := if Vacant(a.slots, j) then a else ClearSlot(a, j);
      ClearSlotInv(a, j);
      assert Vacant(b.slots, j);
      BufferAvailable(b);
    }
  }

  // The first packet, if it is legal, opens a slot.
  lemma FirstPacketOpens(s: State, packet: seq<u8>, now: TimePoint, pick: nat)
    requires Initial(s) && now < TIME_MAX && |packet| >= HEADER_SIZE && Parse(s.fromBi, packet).frameLen <= SLOT_LEN
    ensures |s.slots| == MAX_SLOTS
    ensures var r := Route(s, packet, now, pick);
      r.Ready? && r.j < |r.s.slots| && Fresh(r.s.slots[r.j], Parse(s.fromBi, packet), now)
  {
    InitialInv(s);
    hide Inv, Parse, Route;
    assert IsAdmitted(s, packet, now);
    AdmittedIsReady(s, packet, now, pick);
    RouteInv(s, packet, now, pick);
  }

  lemma BeyondWraps(slot: Slot, now: TimePoint, packet: seq<u8>)
    requires Fresh(slot, Header(7, 1, 100), now) && |packet| == HEADER_SIZE + 1
    ensures FillAccepts(slot, Header(7, 1, 100), packet) && !StartsInside(slot, Header(7, 1, 100))
    ensures CopySize(slot, Header(7, 1, 100), packet) == 0x1_0000_0000 - 1292
  {
  }

  /** A packet for which the copy of fill() leaves the buffer: section 1 of a frame of 100 bytes, the first
      packet that is received. It opens a slot, is accepted, and the size of its copy wraps. */
  lemma SectionBeyondFrame(s: State, now: TimePoint, pick: nat) returns (packet: seq<u8>)
    requires Initial(s) && now < TIME_MAX
    ensures packet == Encode(s.fromBi, Header(7, 1, 100)) + [0] && |packet| <= MTU_LEN
    ensures Parse(s.fromBi, packet) == Header(7, 1, 100)
    ensures |s.slots| == MAX_SLOTS
    ensures var r := Route(s, packet, now, pick);
      && r.Ready? && r.j < |r.s.slots|
      && var slot := r.s.slots[r.j];
         && FillAccepts(slot, Header(7, 1, 100), packet) && !StartsInside(slot, Header(7, 1, 100))
         && CopySize(slot, Header(7, 1, 100), packet) == 0x1_0000_0000 - 1292
  {
    packet := Encode(s.fromBi, Header(7, 1, 100)) + [0];
    HeaderRoundTrip(s.fromBi, Header(7, 1, 100), [0]);
    hide *;
    FirstPacketOpens(s, packet, now, pick);
    BeyondWraps(Route(s, packet, now, pick).s.slots[Route(s, packet, now, pick).j], now, packet);
  }

  /** While the pipeline holds at most five buffers, every packet that passes the header and
      index checks gets a slot with a buffer. */
  lemma AcceptedPacketGetsBuffer(ss: seq<State>, es: seq<Event>, n: nat)
    requires IsRun(ss, es) && n < |es| && es[n].Recv? && |ss[n].inFlight| <= 5
    requires IsAdmitted(ss[n], es[n].packet, es[n].now)
    ensures |ss[n].slots| == MAX_SLOTS && Route(ss[n], es[n].packet, es[n].now, es[n].pick).Ready?
  {
    RunInv(ss, es, n);
    hide IsRun, Parse, Route, IsAdmitted, Inv;
    AdmittedIsReady(ss[n], es[n].packet, es[n].now, es[n].pick);
  }

  // A run goes on with any step from its last state.
  lemma RunGrows(ss: seq<State>, es: seq<Event>, e: Event, t: State)
    requires IsRun(ss, es) && IsStep(ss[|es|], e, t)
    ensures IsRun(ss + [t], es + [e])
  {
    hide IsStep;
  }
}
