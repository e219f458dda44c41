/** When a frame is pushed: a frame whose sections all arrive while its slot is kept is pushed at
    exactly the packet that brings the last missing section. */
module ReassemblyProgress {
  import opened Common
  import opened PacketHeader
  import opened FramePool
  import opened VidRender
  import opened ReassemblyModel
  import opened ReassemblyInvariant
  import opened ReassemblyRun
  import opened ReassemblyHistory
  import opened ReassemblyDelivery

  // ---------------------------------------------------------------------------------------
  // Only empty frames are ever left complete in a slot

  ghost predicate NotIdleComplete(s: State) {
    forall j | 0 <= j < |s.slots| :: s.slots[j].Complete() ==> s.slots[j].frame.frameLen == 0
  }

  lemma {:induction false} ScanKeepsNotIdle(s: State, j: nat, now: TimePoint, envs: seq<PushEnv>)
    requires j <= |s.slots| == |envs| && NotIdleComplete(s)
    ensures NotIdleComplete(ScanFrom(s, j, now, envs))
    decreases |s.slots| - j
  {
    if j < |s.slots| {
      ScanKeepsNotIdle(ScanSlot(s, j, now, envs[j]), j + 1, now, envs);
    }
  }

  lemma {:induction false} RunNotIdleComplete(ss: seq<State>, es: seq<Event>, n: nat)
    requires IsRun(ss, es) && n <= |es|
    ensures NotIdleComplete(ss[n])
  {
    if n > 0 {
      RunNotIdleComplete(ss, es, n - 1);
      RunInv(ss, es, n - 1);
      var s := ss[n - 1];
      match es[n - 1]
      case Recv(packet, now, _, _) => RecvKeepsNotIdle(ss, es, n - 1);
      case Scan(now, envs) => ScanKeepsNotIdle(Expire(s, now), 0, now, envs);
      case Release(_) =>
      case Allow(_) =>
    }
  }

  lemma RecvKeepsNotIdle(ss: seq<State>, es: seq<Event>, n: nat)
    requires IsRun(ss, es) && n < |es| && es[n].Recv? && NotIdleComplete(ss[n])
    ensures NotIdleComplete(ss[n + 1])
  {
    hide IsRun, Parse, Inv, Route, StartsSession, IsAdmitted, IsAfter;
    var r := RouteAt(ss, es, n);
    assert NotIdleComplete(r.s);
  }

  // ---------------------------------------------------------------------------------------
  // A kept slot

  // A packet of frame idx with some payload for a section the bitmap has room for.
  predicate Usable(bi: bool, e: Event, idx: u16) {
    IsPacketOf(bi, e, idx) && |e.packet| > HEADER_SIZE && Parse(bi, e.packet).secIdx < MAX_SECS
  }

  // The sections of frame idx that arrived in events a..b.
  ghost function Arrived(bi: bool, es: seq<Event>, a: nat, b: nat, idx: u16): set<nat>
    requires a <= b <= |es|
  {
    if a == b then {}
    else AddSection(bi, es[b - 1], idx, Arrived(bi, es, a, b - 1, idx))
  }

  ghost function AddSection(bi: bool, e: Event, idx: u16, secs: set<nat>): set<nat> {
    if Usable(bi, e, idx) then secs + {Parse(bi, e.packet).secIdx as nat} else secs
  }

  // The packet carries its whole section of a frame of len bytes.
  predicate CoversSection(bi: bool, packet: seq<u8>, len: nat)
    requires |packet| >= HEADER_SIZE
  {
    |packet| - HEADER_SIZE >= SecSize(Parse(bi, packet).secIdx, len)
  }

  /** Event a opens slot j for a frame that has an index idx and `len` bytes. */
  ghost predicate OpenedAt(ss: seq<State>, es: seq<Event>, a: nat, j: nat, idx: u16, len: nat)
    requires IsRun(ss, es) && a < |es|
  {
    && IsPacketOf(ss[0].fromBi, es[a], idx)
    && RouteAt(ss, es, a).Ready? && RouteAt(ss, es, a).j == j < MAX_SLOTS
    && Fresh(RouteAt(ss, es, a).s.slots[j], Parse(ss[0].fromBi, es[a].packet), es[a].now)
    && len == Parse(ss[0].fromBi, es[a].packet).frameLen
  }

  /** From event a to event n slot j keeps the frame: it is not evicted, timed out, pushed or
      cleared by a resync, no later frame supersedes it, and every packet of the frame carries
      its whole section. */
  ghost predicate Kept(ss: seq<State>, es: seq<Event>, a: nat, n: nat, j: nat, idx: u16, len: nat)
    requires IsRun(ss, es) && a <= n < |es|
  {
    && (forall i | a < i <= n ::
          && OccupiedAt(ss[i], j) && ss[i].slots[j].frameIdx == idx
          && (es[i].Recv? ==> !StartsSession(ss[i], es[i].packet, es[i].now))
          && (IsPacketOf(ss[0].fromBi, es[i], idx) ==> IsAdmitted(ss[i], es[i].packet, es[i].now)))
    && (forall i | a <= i <= n && IsPacketOf(ss[0].fromBi, es[i], idx) ::
          CoversSection(ss[0].fromBi, es[i].packet, len))
  }

  // The slot holds exactly the given sections, in full.
  ghost predicate HoldsExactly(slot: Slot, secs: set<nat>, len: nat) {
    && slot.Occupied() && slot.frame.frameLen == len <= SLOT_LEN
    && slot.received == secs
    && slot.curLen == Capacity(secs, len, MAX_SECS)
  }

  lemma CompleteIffAll(slot: Slot, secs: set<nat>, len: nat)
    requires HoldsExactly(slot, secs, len)
    ensures slot.Complete() <==> HasAllSections(secs, len, MAX_SECS)
  {
    CapacityBound(secs, len, MAX_SECS);
  }

  // Filling a whole section into a slot that holds `secs` exactly.
  lemma FillExactly(s: State, j: nat, h: Header, packet: seq<u8>, secs: set<nat>, len: nat)
    requires Inv(s) && j < MAX_SLOTS && |packet| <= MTU_LEN
    requires HoldsExactly(s.slots[j], secs, len)
    requires FillAccepts(s.slots[j], h, packet) && StartsInside(s.slots[j], h)
    requires |packet| - HEADER_SIZE >= SecSize(h.secIdx, len)
    ensures HoldsExactly(FillSlot(s, j, h, packet).slots[j], secs + {h.secIdx as nat}, len)
  {
    hide Inv;
    CapacityInsert(secs, len, h.secIdx, MAX_SECS);
  }

  // A packet of a frame that is already in a slot is routed to that slot.
  lemma RoutedToHolder(s: State, packet: seq<u8>, now: TimePoint, pick: nat, j: nat)
    requires Inv(s) && IsAdmitted(s, packet, now) && !StartsSession(s, packet, now)
    requires Matches(s.slots, Parse(s.fromBi, packet).frameIdx, j)
    ensures var r := Route(s, packet, now, pick); r.Ready? && r.j == j && r.s.slots == s.slots
  {
    hide Parse, Shape, Conserved;
    var h := Parse(s.fromBi, packet);
    var t := Admit(Expire(s, now), h.frameIdx, now);
    assert t.slots == s.slots;
    var i := Chosen(t.slots, h.frameIdx);
    assert Matches(t.slots, h.frameIdx, i);
  }

  // What fill() makes of a slot that is not idle and holds `secs` exactly, when the event is a
  // packet of its frame: the slot then holds `secs` and the section that arrived.
  lemma FillAdds(s: State, e: Event, r: Routed, secs: set<nat>, len: nat, idx: u16)
    requires IsPacketOf(s.fromBi, e, idx)
    requires Inv(r.s) && SectionOk(s.fromBi, e.packet, r) && r.Ready? && r.j < MAX_SLOTS
    requires |e.packet| <= MTU_LEN && CoversSection(s.fromBi, e.packet, len)
    requires HoldsExactly(r.s.slots[r.j], secs, len) && !r.s.slots[r.j].Complete()
    ensures var all := AddSection(s.fromBi, e, idx, secs);
      && HoldsExactly(Filled(s.fromBi, e.packet, r).slots[r.j], all, len)
      && (Completes(s.fromBi, e.packet, r) <==> HasAllSections(all, len, MAX_SECS))
  {
    hide Parse, Inv;
    var h := Parse(s.fromBi, e.packet);
    if Fills(s.fromBi, e.packet, r) {
      FillExactly(r.s, r.j, h, e.packet, secs, len);
      CompleteIffAll(FillSlot(r.s, r.j, h, e.packet).slots[r.j], secs + {h.secIdx as nat}, len);
    } else {
      assert Usable(s.fromBi, e, idx) ==> secs + {h.secIdx as nat} == secs;
      CompleteIffAll(r.s.slots[r.j], secs, len);
    }
  }

  // fill() of event n leaves exactly `secs` in slot j, and completes the frame iff that is all.
  ghost predicate AfterFill(ss: seq<State>, es: seq<Event>, n: nat, j: nat, secs: set<nat>, len: nat)
    requires IsRun(ss, es) && n < |es| && es[n].Recv?
  {
    var t := FilledState(ss, es, n);
    && j < |t.slots| && RouteAt(ss, es, n).Ready? && RouteAt(ss, es, n).j == j
    && HoldsExactly(t.slots[j], secs, len)
    && (PushesAt(ss, es, n) <==> HasAllSections(secs, len, MAX_SECS))
  }

  // A packet of the frame slot j is assembling, neither late nor the start of a session.
  ghost predicate BringsSection(ss: seq<State>, es: seq<Event>, n: nat, j: nat, idx: u16, len: nat)
    requires |ss| == |es| + 1 && n < |es|
  {
    && IsPacketOf(ss[0].fromBi, es[n], idx) && CoversSection(ss[0].fromBi, es[n].packet, len)
    && OccupiedAt(ss[n], j) && ss[n].slots[j].frameIdx == idx
    && IsAdmitted(ss[n], es[n].packet, es[n].now) && !StartsSession(ss[n], es[n].packet, es[n].now)
  }

  lemma PacketRoute(ss: seq<State>, es: seq<Event>, n: nat, j: nat, idx: u16, len: nat)
    requires IsRun(ss, es) && n < |es| && BringsSection(ss, es, n, j, idx, len)
    ensures var r := RouteAt(ss, es, n); r.Ready? && r.j == j && r.s.slots == ss[n].slots
  {
    hide IsRun, Parse, Inv, Route, IsAdmitted, StartsSession, CoversSection;
    ByteOrderFixed(ss, es, n);
    RunInv(ss, es, n);
    RoutedToHolder(ss[n], es[n].packet, es[n].now, es[n].pick, j);
  }

  lemma PacketStep(ss: seq<State>, es: seq<Event>, n: nat, j: nat, idx: u16, secs: set<nat>, len: nat)
    requires IsRun(ss, es) && n < |es| && BringsSection(ss, es, n, j, idx, len)
    requires HoldsExactly(ss[n].slots[j], secs, len) && 0 < len
    ensures es[n].Recv? && AfterFill(ss, es, n, j, AddSection(ss[0].fromBi, es[n], idx, secs), len)
  {
    hide IsRun, Parse, Inv, Route, IsAdmitted, StartsSession, CoversSection, AddSection;
    PacketRoute(ss, es, n, j, idx, len);
    ByteOrderFixed(ss, es, n);
    RunNotIdleComplete(ss, es, n);
    FillAdds(ss[n], es[n], RouteAt(ss, es, n), secs, len, idx);
  }

  lemma KeptBrings(ss: seq<State>, es: seq<Event>, a: nat, n: nat, i: nat, j: nat, idx: u16, len: nat)
    requires IsRun(ss, es) && a < i <= n < |es| && Kept(ss, es, a, n, j, idx, len)
    ensures OccupiedAt(ss[i], j) && ss[i].slots[j].frameIdx == idx
    ensures IsPacketOf(ss[0].fromBi, es[i], idx) ==> BringsSection(ss, es, i, j, idx, len)
  {
    hide IsRun, Parse, Shape, IsAdmitted, StartsSession, CoversSection;
  }

  lemma KeptOpening(ss: seq<State>, es: seq<Event>, a: nat, n: nat, j: nat, idx: u16, len: nat)
    requires IsRun(ss, es) && a <= n < |es| && 0 < len
    requires OpenedAt(ss, es, a, j, idx, len) && Kept(ss, es, a, n, j, idx, len)
    ensures es[a].Recv? && AfterFill(ss, es, a, j, Arrived(ss[0].fromBi, es, a, a + 1, idx), len)
  {
    assert IsPacketOf(ss[0].fromBi, es[a], idx) && CoversSection(ss[0].fromBi, es[a].packet, len);
    hide *;
    OpeningHolds(ss, es, a, j, idx, len);
  }

  lemma ArrivedNext(bi: bool, es: seq<Event>, a: nat, b: nat, idx: u16)
    requires a <= b < |es|
    ensures Arrived(bi, es, a, b + 1, idx) == AddSection(bi, es[b], idx, Arrived(bi, es, a, b, idx))
  {
  }

  lemma {:induction false} KeptHolds(ss: seq<State>, es: seq<Event>, a: nat, n: nat, i: nat, j: nat, idx: u16, len: nat)
    requires IsRun(ss, es) && a < i <= n < |es| && 0 < len
    requires OpenedAt(ss, es, a, j, idx, len) && Kept(ss, es, a, n, j, idx, len)
    ensures OccupiedAt(ss[i], j) && HoldsExactly(ss[i].slots[j], Arrived(ss[0].fromBi, es, a, i, idx), len)
  {
    hide *;
    var bi, e := ss[0].fromBi, es[i - 1];
    KeptOpening(ss, es, a, n, j, idx, len);
    KeptBrings(ss, es, a, n, i, j, idx, len);
    if i == a + 1 {
      FilledStays(ss, es, a, j, Arrived(bi, es, a, i, idx), len);
    } else {
      KeptBrings(ss, es, a, n, i - 1, j, idx, len);
      KeptHolds(ss, es, a, n, i - 1, j, idx, len);
      var secs := Arrived(bi, es, a, i - 1, idx);
      ArrivedNext(bi, es, a, i - 1, idx);
      if IsPacketOf(bi, e, idx) {
        PacketStep(ss, es, i - 1, j, idx, secs, len);
        FilledStays(ss, es, i - 1, j, AddSection(bi, e, idx, secs), len);
      } else {
        OtherEventKeeps(ss, es, i - 1, j, idx);
        NothingArrives(bi, e, idx, secs);
      }
    }
  }

  lemma NothingArrives(bi: bool, e: Event, idx: u16, secs: set<nat>)
    requires !IsPacketOf(bi, e, idx)
    ensures AddSection(bi, e, idx, secs) == secs
  {
  }

  lemma FilledStays(ss: seq<State>, es: seq<Event>, n: nat, j: nat, secs: set<nat>, len: nat)
    requires IsRun(ss, es) && n < |es| && es[n].Recv? && AfterFill(ss, es, n, j, secs, len)
    requires OccupiedAt(ss[n + 1], j)
    ensures HoldsExactly(ss[n + 1].slots[j], secs, len)
  {
    hide IsRun, Parse, Inv, Route, PushesAt, RouteAt, HoldsExactly;
    StepSlots(ss, es, n, j);
  }

  lemma OpeningHolds(ss: seq<State>, es: seq<Event>, a: nat, j: nat, idx: u16, len: nat)
    requires IsRun(ss, es) && a < |es| && OpenedAt(ss, es, a, j, idx, len) && 0 < len
    requires CoversSection(ss[0].fromBi, es[a].packet, len)
    ensures AfterFill(ss, es, a, j, Arrived(ss[0].fromBi, es, a, a + 1, idx), len)
  {
    hide IsRun, Parse, Inv, Route, IsAdmitted, StartsSession, AddSection;
    ByteOrderFixed(ss, es, a);
    var r := RouteAt(ss, es, a);
    FilledInv(ss[a].fromBi, es[a].packet, r);
    CapacityEmpty(len, MAX_SECS);
    assert r.s.slots[j].frame.frameLen <= SLOT_LEN;
    FillAdds(ss[a], es[a], r, {}, len, idx);
    assert Arrived(ss[0].fromBi, es, a, a, idx) == {};
  }

  // An event that is no packet of the frame leaves a slot that stays occupied by it untouched.
  lemma OtherEventKeeps(ss: seq<State>, es: seq<Event>, n: nat, j: nat, idx: u16)
    requires IsRun(ss, es) && n < |es| && !IsPacketOf(ss[0].fromBi, es[n], idx)
    requires OccupiedAt(ss[n], j) && OccupiedAt(ss[n + 1], j) && ss[n + 1].slots[j].frameIdx == idx
    ensures ss[n + 1].slots[j] == ss[n].slots[j]
  {
    hide IsRun, Parse, Inv, Route, IsAdmitted, StartsSession;
    RunInv(ss, es, n);
    match es[n]
    case Recv(packet, now, _, _) =>
      ByteOrderFixed(ss, es, n);
      StepSlots(ss, es, n, j);
    case Scan(now, envs) => ScanFromFrame(Expire(ss[n], now), 0, now, envs);
    case Release(_) =>
    case Allow(_) =>
  }

  /** Progress: let event a open a slot for a non-empty frame and let the slot be kept until
      event n, a packet of the frame, arrives. Then event n pushes the frame if and only if the
      packets of events a to n together bring every section of the frame: in any order, with
      duplicates and other frames in between, the push comes at exactly the last missing one. */
  lemma LastSectionPushes(ss: seq<State>, es: seq<Event>, a: nat, n: nat, j: nat, idx: u16, len: nat)
    requires IsRun(ss, es) && a <= n < |es| && 0 < len
    requires OpenedAt(ss, es, a, j, idx, len) && Kept(ss, es, a, n, j, idx, len)
    requires IsPacketOf(ss[0].fromBi, es[n], idx)
    ensures PushesAt(ss, es, n) <==> HasAllSections(Arrived(ss[0].fromBi, es, a, n + 1, idx), len, MAX_SECS)
    ensures PushesAt(ss, es, n) ==>
      PushedSlot(ss, es, n).frameIdx == idx && PushedSlot(ss, es, n).frame.DataLen() == len
  {
    hide Parse, Inv, Route, RouteAt, FilledState, HoldsExactly, IsRun, Shape;
    var bi := ss[0].fromBi;
    var secs := Arrived(bi, es, a, n + 1, idx);
    if a == n {
      KeptOpening(ss, es, a, n, j, idx, len);
    } else {
      KeptHolds(ss, es, a, n, n, j, idx, len);
      KeptBrings(ss, es, a, n, n, j, idx, len);
      PacketStep(ss, es, n, j, idx, Arrived(bi, es, a, n, idx), len);
      ArrivedNext(bi, es, a, n, idx);
    }
    if PushesAt(ss, es, n) {
      PushedLength(ss, es, n, idx, secs, len);
    }
  }

  lemma PushedLength(ss: seq<State>, es: seq<Event>, n: nat, idx: u16, secs: set<nat>, len: nat)
    requires IsRun(ss, es) && n < |es| && PushesAt(ss, es, n)
    requires IsPacketOf(ss[0].fromBi, es[n], idx) && HoldsExactly(PushedSlot(ss, es, n), secs, len)
    ensures PushedSlot(ss, es, n).frameIdx == idx && PushedSlot(ss, es, n).frame.DataLen() == len
  {
    hide Parse, Inv, Route;
    PushedSlotFacts(ss, es, n);
  }

  /** A frame of length zero is complete as soon as its slot is open, so its packets are refused; it
      is pushed neither on the completion path nor on the timeout path. */
  lemma EmptyFramesAreNotPushed(ss: seq<State>, es: seq<Event>, n: nat)
    requires IsRun(ss, es) && n < |es|
    ensures PushesAt(ss, es, n) ==> PushedSlot(ss, es, n).frame.DataLen() > 0
    ensures forall s: State, j: nat | j < |s.slots| && PushesIncomplete(s, j) :: s.slots[j].frame.DataLen() > 0
  {
    if PushesAt(ss, es, n) {
      hide IsRun, Parse, Route;
      var r := RouteAt(ss, es, n);
      FilledInv(ss[n].fromBi, es[n].packet, r);
      assert Shape(r.s);
    }
  }
}
