/** What every reachable reassembler state satisfies: each pool buffer is in exactly one place,
    the slot table is well formed, and byte counters are bounded by the sections received. */
module ReassemblyInvariant {
  import opened Common
  import opened PacketHeader
  import opened FramePool
  import opened VidRender
  import opened ReassemblyModel

  // ---------------------------------------------------------------------------------------
  // Bytes a set of sections can carry

  function Min(a: int, b: int): int { if a < b then a else b }

  function SecSize(sec: nat, len: nat): nat {
    if sec * MAX_PAYLOAD <= len then Min(MAX_PAYLOAD, len - sec * MAX_PAYLOAD) else 0
  }

  // The bytes of a frame of `len` bytes that lie in the sections of `secs` below n.
  ghost function Capacity(secs: set<nat>, len: nat, n: nat): nat {
    if n == 0 then 0
    else Capacity(secs, len, n - 1) + if n - 1 in secs then SecSize(n - 1, len) else 0
  }

  ghost predicate HasAllSections(secs: set<nat>, len: nat, n: nat) {
    forall sec: nat | sec < n && sec * MAX_PAYLOAD < len :: sec in secs
  }

  lemma {:induction false} CapacityBound(secs: set<nat>, len: nat, n: nat)
    ensures Capacity(secs, len, n) <= Min(len, n * MAX_PAYLOAD)
    ensures Capacity(secs, len, n) == Min(len, n * MAX_PAYLOAD) <==> HasAllSections(secs, len, n)
  {
    if n > 0 {
      CapacityBound(secs, len, n - 1);
      assert HasAllSections(secs, len, n) <==>
        HasAllSections(secs, len, n - 1) && ((n - 1) * MAX_PAYLOAD < len ==> n - 1 in secs);
    }
  }

  lemma {:induction false} CapacityInsert(secs: set<nat>, len: nat, sec: nat, n: nat)
    requires sec !in secs
    ensures Capacity(secs + {sec}, len, n) == Capacity(secs, len, n) + if sec < n then SecSize(sec, len) else 0
  {
    if n > 0 {
      CapacityInsert(secs, len, sec, n - 1);
    }
  }

  lemma {:induction false} CapacityEmpty(len: nat, n: nat)
    ensures Capacity({}, len, n) == 0
  {
    if n > 0 {
      CapacityEmpty(len, n - 1);
    }
  }

  // The section table never refuses a section of a frame that fits a buffer.
  lemma SectionsFit(sec: nat, len: nat)
    requires len <= SLOT_LEN && sec * MAX_PAYLOAD < len
    ensures sec < 1507 <= MAX_SECS
  {
  }

  // ---------------------------------------------------------------------------------------
  // The invariant

  ghost function Frames(slots: seq<Slot>): (hs: seq<FrameData>)
    ensures |hs| == |slots| && forall j | 0 <= j < |slots| :: hs[j] == slots[j].frame
  {
    seq(|slots|, j requires 0 <= j < |slots| => slots[j].frame)
  }

  /** Every place pool index i can be: the free list, a slot, a buffer held by the pipeline. */
  ghost function Places(s: State, i: nat): nat {
    Listed(s.free, i) + Held(Frames(s.slots), i) + Held(s.inFlight, i)
  }

  // The number of handles and free entries in all places together.
  ghost function Total(s: State): nat {
    |s.free| + ValidCount(Frames(s.slots)) + ValidCount(s.inFlight)
  }

  ghost predicate Conserved(s: State) {
    Total(s) == POOL_SIZE && forall i: nat :: Places(s, i) == if i < POOL_SIZE then 1 else 0
  }

  ghost predicate SlotOk(slot: Slot) {
    if slot.Occupied() then
      && slot.asmStart < TIME_MAX
      && slot.curLen <= Capacity(slot.received, slot.frame.frameLen, MAX_SECS)
    else slot == EMPTY_SLOT
  }

  ghost predicate UniqueIndices(slots: seq<Slot>) {
    forall i, j | 0 <= i < j < |slots| && slots[i].Occupied() && slots[j].Occupied() ::
      slots[i].frameIdx != slots[j].frameIdx
  }

  ghost predicate InFlightOk(hs: seq<FrameData>) {
    forall k | 0 <= k < |hs| :: hs[k].IsValid() && 0 < hs[k].frameLen <= SLOT_LEN
  }

  ghost predicate Inv(s: State)
    ensures Inv(s) ==> Shape(s)
  {
    && Shape(s)
    && Conserved(s)
    && (forall j | 0 <= j < MAX_SLOTS :: SlotOk(s.slots[j]))
    && UniqueIndices(s.slots)
    && InFlightOk(s.inFlight)
  }

  lemma InitialInv(s: State)
    requires Initial(s)
    ensures Inv(s)
  {
    InitialAccounts(s);
    assert Shape(s);
  }

  lemma InitialAccounts(s: State)
    requires Initial(s)
    ensures Conserved(s)
  {
    hide Indices;
    var hs := Frames(s.slots);
    forall i: nat ensures Places(s, i) == (if i < POOL_SIZE then 1 else 0) && Total(s) == POOL_SIZE {
      IndexCount(POOL_SIZE, i);
      HeldNothing(hs, i);
    }
    assert Places(s, 0) == 1;
  }

  // ---------------------------------------------------------------------------------------
  // No aliasing: what conservation says about two owners

  lemma AtMostOnce(s: State, i: nat)
    requires Conserved(s)
    ensures Listed(s.free, i) + Held(Frames(s.slots), i) + Held(s.inFlight, i) <= 1
  {
    assert Places(s, i) <= 1;
  }

  lemma SlotsDontAlias(s: State, j: nat, k: nat)
    requires Inv(s) && j < MAX_SLOTS && k < MAX_SLOTS && j != k
    requires s.slots[j].Occupied() && s.slots[k].Occupied()
    ensures s.slots[j].frame.idx != s.slots[k].frame.idx
  {
    if s.slots[j].frame.idx == s.slots[k].frame.idx {
      AtMostOnce(s, s.slots[j].frame.idx);
      if j < k { HeldTwice(Frames(s.slots), j, k); } else { HeldTwice(Frames(s.slots), k, j); }
    }
  }

  lemma SlotAndPipelineDontAlias(s: State, j: nat, k: nat)
    requires Inv(s) && j < MAX_SLOTS && s.slots[j].Occupied() && k < |s.inFlight|
    ensures s.slots[j].frame.idx != s.inFlight[k].idx
  {
    AtMostOnce(s, s.inFlight[k].idx);
    HeldIn(s.inFlight, k);
    if s.slots[j].frame.idx == s.inFlight[k].idx {
      HeldIn(Frames(s.slots), j);
    }
  }

  lemma PipelineDoesntAlias(s: State, j: nat, k: nat)
    requires Inv(s) && j < k < |s.inFlight|
    ensures s.inFlight[j].idx != s.inFlight[k].idx
  {
    AtMostOnce(s, s.inFlight[k].idx);
    if s.inFlight[j].idx == s.inFlight[k].idx {
      HeldTwice(s.inFlight, j, k);
    }
  }

  lemma FreeIsUnowned(s: State, k: nat, i: nat)
    requires Inv(s) && k < |s.free|
    ensures i < MAX_SLOTS && s.slots[i].Occupied() ==> s.slots[i].frame.idx != s.free[k]
    ensures i < |s.inFlight| ==> s.inFlight[i].idx != s.free[k]
  {
    AtMostOnce(s, s.free[k]);
    assert s.free[k] in multiset(s.free);
    if i < MAX_SLOTS && s.slots[i].Occupied() { HeldIn(Frames(s.slots), i); }
    if i < |s.inFlight| { HeldIn(s.inFlight, i); }
  }

  // Counting over conservation: with at most five buffers in the pipeline and a vacant slot,
  // the pool cannot be empty.
  lemma BufferAvailable(s: State)
    requires Inv(s) && |s.inFlight| <= 5
    requires exists j :: Vacant(s.slots, j)
    ensures s.free != []
  {
    var j :| Vacant(s.slots, j);
    assert j >= 0;
    VacancyCount(Frames(s.slots), j);
    ValidCountBound(s.inFlight);
    assert Total(s) == POOL_SIZE;
  }

  // ---------------------------------------------------------------------------------------
  // Each effect keeps the invariant

  // Two states with the same accounts.
  ghost predicate SameAccounts(s: State, t: State) {
    Total(s) == Total(t) && forall i: nat :: Places(s, i) == Places(t, i)
  }

  // The session fields are not part of the invariant.
  lemma SessionFieldsFree(s: State, t: State)
    requires Inv(s)
    requires t.free == s.free && t.mem == s.mem && t.inFlight == s.inFlight && t.slots == s.slots
    ensures Inv(t)
  {
    forall i: nat ensures Places(t, i) == Places(s, i) {
    }
  }

  lemma UpdateHeld(slots: seq<Slot>, j: nat, x: Slot, i: nat)
    requires j < |slots|
    ensures Held(Frames(slots[j := x]), i) + Own(slots[j].frame, i) == Held(Frames(slots), i) + Own(x.frame, i)
    ensures ValidCount(Frames(slots[j := x])) + (if slots[j].Occupied() then 1 else 0)
         == ValidCount(Frames(slots)) + if x.Occupied() then 1 else 0
  {
    HeldUpdate(Frames(slots), j, x.frame, i);
    assert Frames(slots[j := x]) == Frames(slots)[j := x.frame];
  }

  lemma ClearSlotAccounts(s: State, j: nat)
    requires j < |s.slots|
    ensures SameAccounts(s, ClearSlot(s, j))
  {
    var t := ClearSlot(s, j);
    forall i: nat ensures Places(s, i) == Places(t, i) && Total(s) == Total(t) {
      UpdateHeld(s.slots, j, EMPTY_SLOT, i);
    }
    assert Places(s, 0) == Places(t, 0);
  }

  lemma PushSlotAccounts(s: State, j: nat, env: PushEnv)
    requires j < |s.slots|
    ensures SameAccounts(s, PushSlot(s, j, env))
  {
    var t := PushSlot(s, j, env);
    var h := s.slots[j].frame;
    forall i: nat ensures Places(s, i) == Places(t, i) && Total(s) == Total(t) {
      UpdateHeld(s.slots, j, EMPTY_SLOT, i);
      HeldConcat(s.inFlight, [h], i);
      HeldSingle(h, i);
    }
    assert Places(s, 0) == Places(t, 0);
  }

  lemma OpenSlotAccounts(s: State, j: nat, h: Header, now: TimePoint, pick: nat)
    requires Shape(s) && j < MAX_SLOTS && !s.slots[j].Occupied() && s.free != []
    ensures SameAccounts(s, OpenSlot(s, j, h, now, pick))
  {
    var t := OpenSlot(s, j, h, now, pick);
    var k := if pick < |s.free| then pick else 0;
    forall i: nat ensures Places(s, i) == Places(t, i) && Total(s) == Total(t) {
      UpdateHeld(s.slots, j, t.slots[j], i);
      ListedRemoveAt(s.free, k, i);
    }
    assert Places(s, 0) == Places(t, 0);
  }

  lemma FillSlotAccounts(s: State, j: nat, h: Header, packet: seq<u8>)
    requires Shape(s) && j < MAX_SLOTS
    requires FillAccepts(s.slots[j], h, packet) && StartsInside(s.slots[j], h)
    ensures SameAccounts(s, FillSlot(s, j, h, packet))
  {
    var t := FillSlot(s, j, h, packet);
    forall i: nat ensures Places(s, i) == Places(t, i) && Total(s) == Total(t) {
      UpdateHeld(s.slots, j, t.slots[j], i);
    }
    assert Places(s, 0) == Places(t, 0);
  }

  lemma ReleaseAccounts(s: State, k: nat)
    requires k < |s.inFlight|
    ensures SameAccounts(s, GiveBack(s, s.inFlight[k]).(inFlight := RemoveAt(s.inFlight, k)))
  {
    var t := GiveBack(s, s.inFlight[k]).(inFlight := RemoveAt(s.inFlight, k));
    forall i: nat ensures Places(s, i) == Places(t, i) && Total(s) == Total(t) {
      HeldRemoveAt(s.inFlight, k, i);
    }
    assert Places(s, 0) == Places(t, 0);
  }

  lemma ClearSlotInv(s: State, j: nat)
    requires Inv(s) && j < MAX_SLOTS
    ensures Inv(ClearSlot(s, j))
  {
    ClearSlotAccounts(s, j);
  }

  lemma {:induction false} ClearFromInv(s: State, j: nat)
    requires Inv(s) && j <= MAX_SLOTS
    requires forall k | 0 <= k < j :: s.slots[k] == EMPTY_SLOT
    ensures Inv(ClearFrom(s, j))
    ensures forall k | 0 <= k < MAX_SLOTS :: ClearFrom(s, j).slots[k] == EMPTY_SLOT
    ensures ClearFrom(s, j) == s.(free := ClearFrom(s, j).free, slots := ClearFrom(s, j).slots)
    decreases MAX_SLOTS - j
  {
    if j < MAX_SLOTS {
      ClearSlotInv(s, j);
      ClearFromInv(ClearSlot(s, j), j + 1);
    }
  }

  lemma PushSlotInv(s: State, j: nat, env: PushEnv)
    requires Inv(s) && j < MAX_SLOTS
    ensures Inv(PushSlot(s, j, env))
  {
    PushSlotAccounts(s, j, env);
  }

  lemma OpenSlotInv(s: State, j: nat, h: Header, now: TimePoint, pick: nat)
    requires Inv(s) && j < MAX_SLOTS && !s.slots[j].Occupied() && s.free != []
    requires forall k :: !Matches(s.slots, h.frameIdx, k)
    requires h.frameLen <= SLOT_LEN && now < TIME_MAX
    ensures Inv(OpenSlot(s, j, h, now, pick))
  {
    OpenSlotAccounts(s, j, h, now, pick);
    var t := OpenSlot(s, j, h, now, pick);
    forall i | 0 <= i < MAX_SLOTS && i != j && s.slots[i].Occupied()
      ensures t.slots[i].frameIdx != t.slots[j].frameIdx
    {
      assert !Matches(s.slots, h.frameIdx, i);
    }
  }

  lemma FillSlotInv(s: State, j: nat, h: Header, packet: seq<u8>)
    requires Inv(s) && j < MAX_SLOTS && |packet| <= MTU_LEN
    requires FillAccepts(s.slots[j], h, packet) && StartsInside(s.slots[j], h)
    ensures Inv(FillSlot(s, j, h, packet))
  {
    FillSlotAccounts(s, j, h, packet);
    var t := FillSlot(s, j, h, packet);
    var slot := s.slots[j];
    CapacityInsert(slot.received, slot.frame.frameLen, h.secIdx, MAX_SECS);
    CapacityBound(t.slots[j].received, slot.frame.frameLen, MAX_SECS);
  }

  lemma ReleaseInv(s: State, k: nat)
    requires Inv(s) && k < |s.inFlight|
    ensures Inv(GiveBack(s, s.inFlight[k]).(inFlight := RemoveAt(s.inFlight, k)))
  {
    ReleaseAccounts(s, k);
  }

  lemma {:induction false} ScanFromInv(s: State, j: nat, now: TimePoint, envs: seq<PushEnv>)
    requires Inv(s) && j <= MAX_SLOTS == |envs|
    ensures Inv(ScanFrom(s, j, now, envs))
    decreases MAX_SLOTS - j
  {
    if j < MAX_SLOTS {
      ClearSlotInv(s, j);
      PushSlotInv(s, j, envs[j]);
      SessionFieldsFree(PushSlot(s, j, envs[j]), PushSlot(s, j, envs[j]).(lastPushed := s.slots[j].frameIdx));
      ScanFromInv(ScanSlot(s, j, now, envs[j]), j + 1, now, envs);
    }
  }
}
