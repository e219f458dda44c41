/** Where the bytes come from: over every run, each byte of an assembled frame is the byte that
    one packet of the current session carried for that position. */
module ReassemblyHistory {
  import opened Common
  import opened PacketHeader
  import opened FramePool
  import opened VidRender
  import opened ReassemblyModel
  import opened ReassemblyInvariant
  import opened ReassemblyRun

  // ---------------------------------------------------------------------------------------
  // What a packet carries

  predicate IsPacketOf(bi: bool, e: Event, idx: u16) {
    e.Recv? && |e.packet| >= HEADER_SIZE && Parse(bi, e.packet).frameIdx == idx
  }

  // The section that holds position p of a frame.
  function SecOf(p: nat): nat { p / 1392 }

  // Event e is a packet of frame idx that carries byte b for position p of the frame.
  predicate Carries(bi: bool, e: Event, idx: u16, p: nat, b: u8) {
    && IsPacketOf(bi, e, idx)
    && Parse(bi, e.packet).secIdx == SecOf(p)
    && 8 + p % 1392 < |e.packet|
    && e.packet[8 + p % 1392] == b
  }

  // Event e opens a slot for frame idx of the given length.
  predicate Opens(bi: bool, e: Event, slot: Slot) {
    && IsPacketOf(bi, e, slot.frameIdx)
    && Parse(bi, e.packet).frameLen == slot.frame.DataLen()
    && e.now == slot.asmStart
  }

  /** The history of an occupied slot after n events: it was opened by event o, and w maps every
      position written since then to the event whose packet was stored there. One packet per
      section is stored, and the byte counter is the number of positions written. */
  ghost predicate Story(bi: bool, es: seq<Event>, n: nat, slot: Slot, mem: seq<u8>, o: nat, w: map<nat, nat>)
    requires n <= |es|
  {
    && o < n && Opens(bi, es[o], slot)
    && |w| == slot.curLen
    && (forall p | p in w ::
          && p < slot.frame.DataLen() && p < |mem| && o <= w[p] < n
          && Carries(bi, es[w[p]], slot.frameIdx, p, mem[p])
          && SecOf(p) in slot.received)
    && (forall p, q | p in w && q in w && SecOf(p) == SecOf(q) :: w[p] == w[q])
  }

  // ---------------------------------------------------------------------------------------
  // Sessions

  /** The event that started the session in force after n events. */
  ghost function SessionStart(ss: seq<State>, es: seq<Event>, n: nat): (m: nat)
    requires n <= |es| && |ss| == |es| + 1
    ensures m <= n
  {
    if n == 0 then 0
    else if es[n - 1].Recv? && StartsSession(ss[n - 1], es[n - 1].packet, es[n - 1].now) then n - 1
    else SessionStart(ss, es, n - 1)
  }

  lemma {:induction false} ByteOrderFixed(ss: seq<State>, es: seq<Event>, n: nat)
    requires IsRun(ss, es) && n <= |es|
    ensures ss[n].fromBi == ss[0].fromBi
  {
    if n > 0 {
      ByteOrderFixed(ss, es, n - 1);
      RunInv(ss, es, n - 1);
      StepFrame(ss[n - 1], es[n - 1]);
    }
  }

  // ---------------------------------------------------------------------------------------
  // What one step leaves alone

  lemma {:induction false} ClearFromFrame(s: State, j: nat)
    requires j <= |s.slots|
    ensures var t := ClearFrom(s, j); t.fromBi == s.fromBi
    decreases |s.slots| - j
  {
    if j < |s.slots| { ClearFromFrame(ClearSlot(s, j), j + 1); }
  }

  lemma {:induction false} ScanFromFrame(s: State, j: nat, now: TimePoint, envs: seq<PushEnv>)
    requires j <= |s.slots| == |envs|
    ensures var t := ScanFrom(s, j, now, envs);
      && t.fromBi == s.fromBi && t.mem == s.mem
      && forall k | 0 <= k < |s.slots| :: t.slots[k] == s.slots[k] || t.slots[k] == EMPTY_SLOT
    decreases |s.slots| - j
  {
    if j < |s.slots| { ScanFromFrame(ScanSlot(s, j, now, envs[j]), j + 1, now, envs); }
  }

  lemma RouteFrame(s: State, packet: seq<u8>, now: TimePoint, pick: nat)
    requires |s.slots| == MAX_SLOTS
    ensures Route(s, packet, now, pick).s.fromBi == s.fromBi
  {
    ClearFromFrame(Expire(s, now), 0);
  }

  lemma StepFrame(s: State, e: Event)
    requires Inv(s) && Enabled(s, e)
    ensures Step(s, e).fromBi == s.fromBi
  {
    hide IsRun, Parse, Inv, Route;
    match e
    case Recv(packet, now, pick, _) => RouteFrame(s, packet, now, pick);
    case Scan(now, envs) => ScanFromFrame(Expire(s, now), 0, now, envs);
    case Release(_) =>
    case Allow(_) =>
  }

  // ---------------------------------------------------------------------------------------
  // Storing one section

  function Span(lo: nat, n: nat): (r: set<nat>)
    ensures forall p :: p in r <==> lo <= p < lo + n
    ensures |r| == n
  {
    if n == 0 then {} else Span(lo, n - 1) + {lo + n - 1}
  }

  lemma SectionOf(sec: nat, p: nat)
    requires sec * MAX_PAYLOAD <= p < sec * MAX_PAYLOAD + MAX_PAYLOAD
    ensures SecOf(p) == sec && p % MAX_PAYLOAD == p - sec * MAX_PAYLOAD
  {
  }

  lemma StoredByte(bi: bool, e: Event, idx: u16, p: nat, mem: seq<u8>, size: nat)
    requires IsPacketOf(bi, e, idx) && HEADER_SIZE + size <= |e.packet| <= MTU_LEN
    requires var off := Offset(Parse(bi, e.packet)); off <= p < off + size && off + size <= |mem|
    ensures SecOf(p) == Parse(bi, e.packet).secIdx
    ensures Carries(bi, e, idx, p,
                    Overwrite(mem, Offset(Parse(bi, e.packet)), e.packet[HEADER_SIZE..HEADER_SIZE + size])[p])
  {
    hide Parse, Overwrite;
    SectionOf(Parse(bi, e.packet).secIdx, p);
  }

  // Event n stores its section: the history grows by exactly the positions it writes.
  lemma StoreSection(bi: bool, es: seq<Event>, n: nat, slot: Slot, mem: seq<u8>, o: nat, w: map<nat, nat>)
    returns (w': map<nat, nat>)
    requires n < |es| && IsPacketOf(bi, es[n], slot.frameIdx) && |es[n].packet| <= MTU_LEN
    requires Story(bi, es, n + 1, slot, mem, o, w)
    requires slot.curLen <= slot.frame.DataLen() <= SLOT_LEN == |mem|
    requires var h := Parse(bi, es[n].packet); FillAccepts(slot, h, es[n].packet) && StartsInside(slot, h)
    ensures var h := Parse(bi, es[n].packet);
      Story(bi, es, n + 1, Stored(slot, h, es[n].packet),
            Overwrite(mem, Offset(h), SectionData(slot, h, es[n].packet)), o, w')
    ensures forall p | p in w' ::
      if p in w then w'[p] == w[p] else w'[p] == n && SecOf(p) == Parse(bi, es[n].packet).secIdx
  {
    hide Parse, Overwrite;
    var packet := es[n].packet;
    var h := Parse(bi, packet);
    var size, off := FillSize(slot, h, packet), Offset(h);
    var mem' := Overwrite(mem, off, SectionData(slot, h, packet));
    var span := Span(off, size);
    forall p | p in span ensures p !in w && SecOf(p) == h.secIdx && Carries(bi, es[n], slot.frameIdx, p, mem'[p]) {
      StoredByte(bi, es[n], slot.frameIdx, p, mem, size);
    }
    hide Carries;
    w' := Extend(w, span, n);
    StoryExtends(bi, es, n, slot, mem, o, w, Stored(slot, h, packet), mem', h.secIdx, span, w');
  }

  lemma StoryExtends(bi: bool, es: seq<Event>, n: nat, slot: Slot, mem: seq<u8>, o: nat, w: map<nat, nat>,
                     slot': Slot, mem': seq<u8>, sec: nat, span: set<nat>, w': map<nat, nat>)
    requires n < |es| && Story(bi, es, n + 1, slot, mem, o, w) && |mem'| == |mem|
    requires slot' == slot.(curLen := slot'.curLen, received := slot.received + {sec})
    requires sec !in slot.received && slot'.curLen == slot.curLen + |span|
    requires forall p | p in span ::
      SecOf(p) == sec && p < slot.frame.DataLen() && p < |mem| && Carries(bi, es[n], slot.frameIdx, p, mem'[p])
    requires forall p | 0 <= p < |mem| && p !in span :: mem'[p] == mem[p]
    requires |w'| == |w| + |span| && forall p :: p in w' <==> p in w || p in span
    requires forall p | p in w' :: w'[p] == if p in span then n else w[p]
    ensures Story(bi, es, n + 1, slot', mem', o, w')
  {
    hide Parse, Carries, SecOf;
  }

  // w extended to the positions of a disjoint span, all mapped to n.
  function Extend(w: map<nat, nat>, span: set<nat>, n: nat): (r: map<nat, nat>)
    requires forall p | p in span :: p !in w
    ensures forall p :: p in r <==> p in w || p in span
    ensures forall p | p in r :: r[p] == if p in span then n else w[p]
    ensures |r| == |w| + |span|
  {
    var x := map p | p in span :: n;
    var r := w + x;
    assert x.Keys == span && r.Keys == w.Keys + x.Keys && w.Keys !! x.Keys;
    assert |r.Keys| == |w.Keys| + |x.Keys|;
    r
  }

  // ---------------------------------------------------------------------------------------
  // Histories over a run

  // The result of routing event n of a run.
  ghost function RouteAt(ss: seq<State>, es: seq<Event>, n: nat): (r: Routed)
    requires IsRun(ss, es) && n < |es| && es[n].Recv?
    ensures RouteOk(ss[n], es[n].packet, es[n].now, r) && SectionOk(ss[n].fromBi, es[n].packet, r)
    ensures Inv(ss[n]) && r == Route(ss[n], es[n].packet, es[n].now, es[n].pick)
    ensures ss[n + 1] == RecvStep(ss[n], es[n].packet, r, es[n].env)
    ensures |es[n].packet| <= MTU_LEN
  {
    RunInv(ss, es, n);
    RouteInv(ss[n], es[n].packet, es[n].now, es[n].pick);
    Route(ss[n], es[n].packet, es[n].now, es[n].pick)
  }

  // The state just after fill() in receive step n.
  ghost function FilledState(ss: seq<State>, es: seq<Event>, n: nat): State
    requires IsRun(ss, es) && n < |es| && es[n].Recv?
  {
    Filled(ss[n].fromBi, es[n].packet, RouteAt(ss, es, n))
  }

  ghost predicate OccupiedAt(s: State, j: nat) {
    Shape(s) && j < MAX_SLOTS && s.slots[j].Occupied()
  }

  // The bytes of the buffer a slot writes to.
  ghost function SlotMem(s: State, j: nat): seq<u8>
    requires OccupiedAt(s, j)
  {
    s.mem[s.slots[j].frame.idx]
  }

  ghost predicate StoryAt(ss: seq<State>, es: seq<Event>, n: nat, s: State, j: nat, o: nat, w: map<nat, nat>)
    requires |ss| == |es| + 1 && n <= |es| && OccupiedAt(s, j)
  {
    Story(ss[0].fromBi, es, n, s.slots[j], SlotMem(s, j), o, w) && SessionStart(ss, es, n) <= o
  }

  // fill() accepted the packet of event n.
  ghost predicate StoresAt(ss: seq<State>, es: seq<Event>, n: nat)
    requires IsRun(ss, es) && n < |es|
  {
    es[n].Recv? && Fills(ss[n].fromBi, es[n].packet, RouteAt(ss, es, n))
  }

  /** Of the packets of a slot's frame in events o to m, w names exactly those that were accepted: each
      packet it names was, and a packet that was is the one it names for all of its section. */
  ghost predicate Accepted(ss: seq<State>, es: seq<Event>, m: nat, slot: Slot, o: nat, w: map<nat, nat>)
    requires IsRun(ss, es) && m <= |es|
  {
    && (forall p | p in w :: w[p] < |es| && StoresAt(ss, es, w[p]))
    && (forall k | o <= k < m && StoresAt(ss, es, k) && IsPacketOf(ss[0].fromBi, es[k], slot.frameIdx) ::
          IsAcceptedFor(Parse(ss[0].fromBi, es[k].packet).secIdx as nat, k, slot, w))
  }

  predicate IsAcceptedFor(sec: nat, k: nat, slot: Slot, w: map<nat, nat>) {
    sec in slot.received && forall p | p in w && SecOf(p) == sec :: w[p] == k
  }

  // An event that stores no packet of the frame.
  lemma AcceptedLater(ss: seq<State>, es: seq<Event>, n: nat, slot: Slot, o: nat, w: map<nat, nat>)
    requires IsRun(ss, es) && n < |es| && Accepted(ss, es, n, slot, o, w)
    requires StoresAt(ss, es, n) ==> !IsPacketOf(ss[0].fromBi, es[n], slot.frameIdx)
    ensures Accepted(ss, es, n + 1, slot, o, w)
  {
    hide IsRun, StoresAt, Parse, IsAcceptedFor, RouteAt;
  }

  // The packet of event n is stored.
  lemma AcceptedMore(ss: seq<State>, es: seq<Event>, n: nat, slot: Slot, o: nat, w: map<nat, nat>,
                     sec: nat, slot': Slot, w': map<nat, nat>)
    requires IsRun(ss, es) && n < |es| && Accepted(ss, es, n, slot, o, w) && StoresAt(ss, es, n)
    requires IsPacketOf(ss[0].fromBi, es[n], slot.frameIdx) && sec == Parse(ss[0].fromBi, es[n].packet).secIdx as nat
    requires sec !in slot.received && forall p | p in w :: SecOf(p) in slot.received
    requires slot'.frameIdx == slot.frameIdx && slot'.received == slot.received + {sec}
    requires forall p | p in w' :: if p in w then w'[p] == w[p] else w'[p] == n && SecOf(p) == sec
    ensures Accepted(ss, es, n + 1, slot', o, w')
  {
    hide IsRun, StoresAt, Parse, RouteAt, SecOf;
    forall k | o <= k <= n && StoresAt(ss, es, k) && IsPacketOf(ss[0].fromBi, es[k], slot'.frameIdx)
      ensures IsAcceptedFor(Parse(ss[0].fromBi, es[k].packet).secIdx as nat, k, slot', w')
    {
      assert k < n ==> IsAcceptedFor(Parse(ss[0].fromBi, es[k].packet).secIdx as nat, k, slot, w);
    }
  }

  lemma OnlyPacketsStore(ss: seq<State>, es: seq<Event>, n: nat)
    requires IsRun(ss, es) && n < |es| && !es[n].Recv?
    ensures !StoresAt(ss, es, n)
  {
  }

  // A slot still occupied after receive step n is as fill() left it.
  lemma StepSlots(ss: seq<State>, es: seq<Event>, n: nat, j: nat)
    requires IsRun(ss, es) && n < |es| && es[n].Recv?
    requires OccupiedAt(ss[n + 1], j)
    ensures OccupiedAt(FilledState(ss, es, n), j)
    ensures ss[n + 1].slots[j] == FilledState(ss, es, n).slots[j] && ss[n + 1].mem == FilledState(ss, es, n).mem
  {
    hide IsRun, Parse, Inv, Route;
    FilledInv(ss[n].fromBi, es[n].packet, RouteAt(ss, es, n));
  }

  // A step that neither starts a session nor touches the slot or its bytes keeps its history.
  lemma StoryLater(ss: seq<State>, es: seq<Event>, n: nat, s: State, t: State, j: nat, o: nat, w: map<nat, nat>)
    requires |ss| == |es| + 1 && n < |es| && OccupiedAt(s, j) && StoryAt(ss, es, n, s, j, o, w)
    requires Shape(t) && t.slots[j] == s.slots[j] && SlotMem(t, j) == SlotMem(s, j)
    requires es[n].Recv? ==> !StartsSession(ss[n], es[n].packet, es[n].now)
    ensures StoryAt(ss, es, n + 1, t, j, o, w)
  {
    hide Parse;
  }

  lemma NoneOccupied(ss: seq<State>, es: seq<Event>, j: nat)
    requires IsRun(ss, es)
    ensures !OccupiedAt(ss[0], j)
  {
  }

  /** Every occupied slot of every reachable state has a history inside the current session. */
  lemma {:induction false} SlotHistory(ss: seq<State>, es: seq<Event>, n: nat, j: nat)
    returns (o: nat, w: map<nat, nat>)
    requires IsRun(ss, es) && n <= |es| && OccupiedAt(ss[n], j)
    ensures StoryAt(ss, es, n, ss[n], j, o, w) && Accepted(ss, es, n, ss[n].slots[j], o, w)
    decreases n, 0
  {
    hide StoresAt, Accepted, IsRun, Parse, Inv, Story, Route;
    if n == 0 {
      NoneOccupied(ss, es, j);
    } else {
      var s, e := ss[n - 1], es[n - 1];
      RunInv(ss, es, n - 1);
      match e
      case Recv(packet, now, pick, env) =>
        StepSlots(ss, es, n - 1, j);
        o, w := FilledHistory(ss, es, n - 1, j);
      case Scan(now, envs) =>
        ScanFromFrame(Expire(s, now), 0, now, envs);
        o, w := SlotHistory(ss, es, n - 1, j);
        StoryLater(ss, es, n - 1, ss[n - 1], ss[n], j, o, w);
        OnlyPacketsStore(ss, es, n - 1);
        AcceptedLater(ss, es, n - 1, ss[n].slots[j], o, w);
      case Release(_) =>
        o, w := SlotHistory(ss, es, n - 1, j);
        StoryLater(ss, es, n - 1, ss[n - 1], ss[n], j, o, w);
        OnlyPacketsStore(ss, es, n - 1);
        AcceptedLater(ss, es, n - 1, ss[n].slots[j], o, w);
      case Allow(_) =>
        o, w := SlotHistory(ss, es, n - 1, j);
        StoryLater(ss, es, n - 1, ss[n - 1], ss[n], j, o, w);
        OnlyPacketsStore(ss, es, n - 1);
        AcceptedLater(ss, es, n - 1, ss[n].slots[j], o, w);
    }
  }

  // The same after routing the packet of event n, before fill().
  lemma {:induction false} RoutedHistory(ss: seq<State>, es: seq<Event>, n: nat, j: nat)
    returns (o: nat, w: map<nat, nat>)
    requires IsRun(ss, es) && n < |es| && es[n].Recv?
    requires OccupiedAt(RouteAt(ss, es, n).s, j)
    ensures StoryAt(ss, es, n + 1, RouteAt(ss, es, n).s, j, o, w)
    ensures Accepted(ss, es, n, RouteAt(ss, es, n).s.slots[j], o, w)
    decreases n, 1
  {
    hide StoresAt, IsRun, Parse, Inv, Route;
    var s, packet, now := ss[n], es[n].packet, es[n].now;
    var r := RouteAt(ss, es, n);
    ByteOrderFixed(ss, es, n);
    if r.Ready? && j == r.j && Fresh(r.s.slots[j], Parse(s.fromBi, packet), now) {
      o, w := n, map[];
    } else {
      assert r.s.slots[j] == s.slots[j];
      o, w := SlotHistory(ss, es, n, j);
      StoryLater(ss, es, n, s, r.s, j, o, w);
    }
  }

  // The same just after fill() in a receive step, before a completed frame is pushed.
  lemma {:induction false} FilledHistory(ss: seq<State>, es: seq<Event>, n: nat, j: nat)
    returns (o: nat, w: map<nat, nat>)
    requires IsRun(ss, es) && n < |es| && es[n].Recv?
    requires OccupiedAt(FilledState(ss, es, n), j)
    ensures StoryAt(ss, es, n + 1, FilledState(ss, es, n), j, o, w)
    ensures Accepted(ss, es, n + 1, FilledState(ss, es, n).slots[j], o, w)
    decreases n, 2
  {
    hide IsRun, Parse, Inv, Route, Story, Accepted;
    var s, packet := ss[n], es[n].packet;
    var r := RouteAt(ss, es, n);
    var bi := ss[0].fromBi;
    ByteOrderFixed(ss, es, n);
    assert OccupiedAt(r.s, j);
    o, w := RoutedHistory(ss, es, n, j);
    var slot := r.s.slots[j];
    if Fills(bi, packet, r) && j == r.j {
      WrittenIsReceived(bi, es, n + 1, slot, SlotMem(r.s, j), o, w);
      var w' := StoreSection(bi, es, n, slot, SlotMem(r.s, j), o, w);
      var h := Parse(bi, packet);
      AcceptedMore(ss, es, n, slot, o, w, h.secIdx as nat, Stored(slot, h, packet), w');
      w := w';
    } else {
      if Fills(bi, packet, r) { DifferentFrames(r.s, j, r.j); }
      AcceptedLater(ss, es, n, slot, o, w);
    }
  }

  lemma WrittenIsReceived(bi: bool, es: seq<Event>, n: nat, slot: Slot, mem: seq<u8>, o: nat, w: map<nat, nat>)
    requires n <= |es| && Story(bi, es, n, slot, mem, o, w)
    ensures forall p | p in w :: SecOf(p) in slot.received
  {
  }

  lemma DifferentFrames(s: State, i: nat, j: nat)
    requires Inv(s) && i < MAX_SLOTS && j < MAX_SLOTS && i != j && s.slots[i].Occupied() && s.slots[j].Occupied()
    ensures s.slots[i].frameIdx != s.slots[j].frameIdx && s.slots[i].frame.idx != s.slots[j].frame.idx
  {
    SlotsDontAlias(s, i, j);
    hide Conserved;
  }
}
