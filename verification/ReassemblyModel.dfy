/** The reassembler and its frame pool as a state machine over values: one atomic step per
    received packet, per slot scan and per buffer freed by the pipeline. The classes of module
    Reassembly are proved to perform exactly these steps. */
module ReassemblyModel {
  import opened Common
  import opened PacketHeader
  import opened FramePool
  import opened VidRender

  const MAX_SLOTS: nat := 5
  const MAX_SECS: nat := 1536
  const BIG_FRAME: nat := 5000
  const MIN_IDX_DIFF: int := -180
  const REASSEMBLE_TIMEOUT: int := 60 * MS
  const SYNC_TIMEOUT: int := 1000 * MS

  datatype Slot = Slot(
    frame: FrameData, frameIdx: u16, curLen: u32, asmStart: TimePoint, received: set<nat>)
  {
    predicate Occupied() { frame.IsValid() }

    predicate Complete() { Occupied() && curLen == frame.frameLen }

    predicate MeetsMinRate() { Occupied() && MeetsRate(curLen, frame.frameLen) }
  }

  // At least 95 % of the bytes; the rate of an empty frame is not a number.
  predicate MeetsRate(part: int, whole: int) { 0 < whole && part <= whole && 20 * part >= 19 * whole }

  const EMPTY_SLOT := Slot(Moved, 0, 0, TIME_MIN, {})

  datatype State = State(
    fromBi: bool,
    free: seq<nat>, mem: seq<seq<u8>>, inFlight: seq<FrameData>,
    slots: seq<Slot>,
    lastSynced: TimePoint, lastPushed: u16, synced: bool, allowIncomplete: bool)

  ghost predicate Initial(s: State) {
    && s.free == Indices(POOL_SIZE)
    && |s.mem| == POOL_SIZE && (forall i | 0 <= i < POOL_SIZE :: |s.mem[i]| == SLOT_LEN)
    && s.inFlight == []
    && s.slots == [EMPTY_SLOT, EMPTY_SLOT, EMPTY_SLOT, EMPTY_SLOT, EMPTY_SLOT]
    && s.lastPushed == 0 && !s.synced && !s.allowIncomplete
  }

  // ---------------------------------------------------------------------------------------
  // Slot search

  predicate Matches(slots: seq<Slot>, idx: u16, j: int) {
    0 <= j < |slots| && slots[j].Occupied() && slots[j].frameIdx == idx
  }

  predicate Vacant(slots: seq<Slot>, j: int) {
    0 <= j < |slots| && !slots[j].Occupied()
  }

  predicate OfSize(slots: seq<Slot>, large: bool, j: int) {
    0 <= j < |slots| && slots[j].Occupied() && (slots[j].frame.frameLen >= BIG_FRAME) == large
  }

  // j is the occupied slot of the given size class that was opened first; slots opened at the
  // same instant are ordered by position.
  ghost predicate Oldest(slots: seq<Slot>, large: bool, j: int) {
    && OfSize(slots, large, j)
    && (forall k | OfSize(slots, large, k) :: slots[j].asmStart <= slots[k].asmStart)
    && (forall k | OfSize(slots, large, k) && k < j :: slots[j].asmStart < slots[k].asmStart)
  }

  /** The slot policy: the slot of this frame index; failing that the first vacant slot; failing
      that the oldest small frame; failing that the oldest large one. */
  ghost predicate IsChoice(slots: seq<Slot>, idx: u16, j: nat) {
    if exists k :: Matches(slots, idx, k) then
      Matches(slots, idx, j) && forall k | Matches(slots, idx, k) :: j <= k
    else if exists k :: Vacant(slots, k) then
      Vacant(slots, j) && forall k | Vacant(slots, k) :: j <= k
    else if exists k :: OfSize(slots, false, k) then
      Oldest(slots, false, j)
    else
      Oldest(slots, true, j)
  }

  lemma ChoiceUnique(slots: seq<Slot>, idx: u16, i: nat, j: nat)
    requires IsChoice(slots, idx, i) && IsChoice(slots, idx, j)
    ensures i == j
  {
  }

  // The first position of a non-empty class with the least start time.
  lemma OldestExists(slots: seq<Slot>, large: bool, n: nat) returns (j: int)
    requires n <= |slots|
    ensures j == -1 ==> forall k | OfSize(slots, large, k) :: k >= n
    ensures j != -1 ==> 0 <= j < n && OfSize(slots, large, j)
    ensures j != -1 ==> forall k | OfSize(slots, large, k) && k < n :: slots[j].asmStart <= slots[k].asmStart
    ensures j != -1 ==> forall k | OfSize(slots, large, k) && k < j :: slots[j].asmStart < slots[k].asmStart
  {
    if n == 0 {
      return -1;
    }
    j := OldestExists(slots, large, n - 1);
    if OfSize(slots, large, n - 1) && (j == -1 || slots[n - 1].asmStart < slots[j].asmStart) {
      j := n - 1;
    }
  }

  lemma FirstExists(slots: seq<Slot>, p: int -> bool, k: int) returns (j: nat)
    requires p(k) && forall i | p(i) :: 0 <= i < |slots|
    ensures p(j) && forall i | p(i) :: j <= i
    decreases k
  {
    j := k;
    if i :| p(i) && i < k {
      j := FirstExists(slots, p, i);
    }
  }

  lemma ChoiceExists(slots: seq<Slot>, idx: u16) returns (j: nat)
    requires |slots| > 0
    ensures IsChoice(slots, idx, j)
  {
    if k :| Matches(slots, idx, k) {
      var p := i => Matches(slots, idx, i);
      j := FirstExists(slots, p, k);
      assert forall i | Matches(slots, idx, i) :: p(i);
    } else if k :| Vacant(slots, k) {
      var p := i => Vacant(slots, i);
      j := FirstExists(slots, p, k);
      assert forall i | Vacant(slots, i) :: p(i);
    } else {
      assert !Vacant(slots, 0);
      assert OfSize(slots, false, 0) || OfSize(slots, true, 0);
      var small := OldestExists(slots, false, |slots|);
      var large := OldestExists(slots, true, |slots|);
      j := if small != -1 then small else large;
    }
  }

  ghost function Chosen(slots: seq<Slot>, idx: u16): (j: nat)
    requires |slots| > 0
    ensures IsChoice(slots, idx, j) && j < |slots|
  {
    assert exists j: nat :: IsChoice(slots, idx, j) by {
      var j := ChoiceExists(slots, idx);
    }
    var j: nat :| IsChoice(slots, idx, j);
    j
  }

  // ---------------------------------------------------------------------------------------
  // Effects on one slot

  predicate Shape(s: State) {
    && |s.slots| == MAX_SLOTS
    && |s.mem| == POOL_SIZE
    && (forall i | 0 <= i < POOL_SIZE :: |s.mem[i]| == SLOT_LEN)
    && (forall k | 0 <= k < |s.free| :: s.free[k] < POOL_SIZE)
    && (forall j | 0 <= j < MAX_SLOTS && s.slots[j].Occupied() ::
          s.slots[j].curLen <= s.slots[j].frame.frameLen <= SLOT_LEN)
  }

  function GiveBack(s: State, h: FrameData): State {
    s.(free := s.free + if h.IsValid() then [h.idx] else [])
  }

  function ClearSlot(s: State, j: nat): State
    requires j < |s.slots|
  {
    GiveBack(s, s.slots[j].frame).(slots := s.slots[j := EMPTY_SLOT])
  }

  function ClearFrom(s: State, j: nat): (t: State)
    requires j <= |s.slots|
    ensures |t.slots| == |s.slots|
    decreases |s.slots| - j
  {
    if j == |s.slots| then s else ClearFrom(ClearSlot(s, j), j + 1)
  }

  /** steal(), tryPushFrame() and clear() on one slot. */
  function PushSlot(s: State, j: nat, env: PushEnv): State
    requires j < |s.slots|
  {
    var h := s.slots[j].frame;
    var pushed := h.IsValid() && h.frameLen > 0 && env.Accepts();
    var t := if pushed then s.(inFlight := s.inFlight + [h]) else GiveBack(s, h);
    t.(slots := s.slots[j := EMPTY_SLOT])
  }

  /** A vacant slot receives a pool buffer; its counter and bitmap are taken as they are. */
  function OpenSlot(s: State, j: nat, h: Header, now: TimePoint, pick: nat): State
    requires j < |s.slots| && s.free != []
  {
    var k := if pick < |s.free| then pick else 0;
    var old_ := s.slots[j];
    s.(free := RemoveAt(s.free, k),
       slots := s.slots[j := Slot(FrameData(s.free[k], h.frameLen), h.frameIdx, old_.curLen, now, old_.received)])
  }

  function Offset(h: Header): nat { h.secIdx as nat * MAX_PAYLOAD }

  predicate StartsInside(slot: Slot, h: Header)
    requires slot.Occupied()
  {
    h.secIdx < MAX_SECS ==> Offset(h) <= slot.frame.frameLen
  }

  /** fill()'s early exits. */
  predicate FillAccepts(slot: Slot, h: Header, packet: seq<u8>) {
    && slot.Occupied() && !slot.Complete()
    && h.secIdx < MAX_SECS && |packet| > HEADER_SIZE
    && h.secIdx as nat !in slot.received
  }

  function FillSize(slot: Slot, h: Header, packet: seq<u8>): (n: nat)
    requires FillAccepts(slot, h, packet) && StartsInside(slot, h)
    ensures Offset(h) + n <= slot.frame.frameLen
  {
    var offset := Offset(h);
    if offset + |packet| - HEADER_SIZE > slot.frame.frameLen then slot.frame.frameLen - offset
    else |packet| - HEADER_SIZE
  }

  // The size fill() computes for its copy, in the unsigned 32-bit arithmetic of the source.
  function CopySize(slot: Slot, h: Header, packet: seq<u8>): u32
    requires FillAccepts(slot, h, packet) && |packet| <= MTU_LEN
  {
    var offset, payloadSize := Offset(h), |packet| - HEADER_SIZE;
    if (offset + payloadSize) % 0x1_0000_0000 > slot.frame.frameLen then
      (slot.frame.frameLen - offset) % 0x1_0000_0000
    else payloadSize
  }

  /** For a packet that fill() accepts, the copy stays inside the buffer if and only if the section
      starts inside the frame; then it is also inside the frame, and of the size used here. Otherwise
      the subtraction wraps and the copy has no meaning. */
  lemma CopyInsideIff(slot: Slot, h: Header, packet: seq<u8>)
    requires FillAccepts(slot, h, packet) && |packet| <= MTU_LEN && slot.frame.frameLen <= SLOT_LEN
    ensures Offset(h) + CopySize(slot, h, packet) <= SLOT_LEN <==> StartsInside(slot, h)
    ensures StartsInside(slot, h) ==>
      CopySize(slot, h, packet) == FillSize(slot, h, packet)
      && Offset(h) + CopySize(slot, h, packet) <= slot.frame.frameLen
  {
    assert Offset(h) <= (MAX_SECS - 1) * MAX_PAYLOAD;
    if !StartsInside(slot, h) {
      assert (slot.frame.frameLen - Offset(h)) % 0x1_0000_0000 == slot.frame.frameLen - Offset(h) + 0x1_0000_0000;
    }
  }

  function Overwrite(m: seq<u8>, offset: nat, data: seq<u8>): (r: seq<u8>)
    requires offset + |data| <= |m|
    ensures |r| == |m|
    ensures forall p | 0 <= p < |m| :: r[p] == if offset <= p < offset + |data| then data[p - offset] else m[p]
  {
    m[..offset] + data + m[offset + |data|..]
  }

  lemma OverwriteIs(m: seq<u8>, offset: nat, data: seq<u8>, r: seq<u8>)
    requires offset + |data| <= |m| == |r|
    requires forall p | 0 <= p < |m| :: r[p] == if offset <= p < offset + |data| then data[p - offset] else m[p]
    ensures r == Overwrite(m, offset, data)
  {
    hide Overwrite;
  }

  function Stored(slot: Slot, h: Header, packet: seq<u8>): Slot
    requires FillAccepts(slot, h, packet) && StartsInside(slot, h)
    requires slot.curLen <= slot.frame.frameLen <= SLOT_LEN
  {
    slot.(curLen := slot.curLen + FillSize(slot, h, packet), received := slot.received + {h.secIdx as nat})
  }

  function SectionData(slot: Slot, h: Header, packet: seq<u8>): seq<u8>
    requires FillAccepts(slot, h, packet) && StartsInside(slot, h)
  {
    packet[HEADER_SIZE..HEADER_SIZE + FillSize(slot, h, packet)]
  }

  function FillSlot(s: State, j: nat, h: Header, packet: seq<u8>): State
    requires Shape(s) && j < MAX_SLOTS
    requires FillAccepts(s.slots[j], h, packet) && StartsInside(s.slots[j], h)
  {
    var slot := s.slots[j];
    var i := slot.frame.idx;
    s.(mem := s.mem[i := Overwrite(s.mem[i], Offset(h), SectionData(slot, h, packet))],
       slots := s.slots[j := Stored(slot, h, packet)])
  }

  // ---------------------------------------------------------------------------------------
  // Receiving a packet

  function Expire(s: State, now: TimePoint): State {
    if s.synced && now - s.lastSynced > SYNC_TIMEOUT then s.(synced := false) else s
  }

  /** Whether an (expired) state drops the index as an ordinary duplicate or late packet. */
  predicate IsStale(s: State, idx: u16) {
    s.synced && MIN_IDX_DIFF <= Diff(idx, s.lastPushed) <= 0
  }

  /** Whether an (expired) state starts a new session at this index. */
  predicate Resyncs(s: State, idx: u16) {
    !s.synced || Diff(idx, s.lastPushed) < MIN_IDX_DIFF
  }

  function Admit(s: State, idx: u16, now: TimePoint): (t: State)
    ensures |t.slots| == |s.slots|
  {
    var t := if Resyncs(s, idx) then ClearFrom(s, 0).(synced := true, lastPushed := Pred(idx)) else s;
    t.(lastSynced := now)
  }

  /** Result of the part of onPacketRecv before fill(). */
  datatype Routed = Dropped(s: State) | Ready(s: State, j: nat)

  ghost function Locate(s: State, h: Header, now: TimePoint, pick: nat): Routed
    requires |s.slots| == MAX_SLOTS
  {
    var j := Chosen(s.slots, h.frameIdx);
    var t := if Matches(s.slots, h.frameIdx, j) || Vacant(s.slots, j) then s else ClearSlot(s, j);
    if t.slots[j].Occupied() then Ready(t, j)
    else if t.free == [] then Dropped(t)
    else Ready(OpenSlot(t, j, h, now, pick), j)
  }

  // Routing by header, in a state whose session has been checked for timeout.
  ghost function RouteHeader(s: State, h: Header, now: TimePoint, pick: nat): Routed
    requires |s.slots| == MAX_SLOTS
  {
    if h.frameLen > SLOT_LEN || IsStale(s, h.frameIdx) then Dropped(s)
    else Locate(Admit(s, h.frameIdx, now), h, now, pick)
  }

  ghost function Route(s: State, packet: seq<u8>, now: TimePoint, pick: nat): Routed
    requires |s.slots| == MAX_SLOTS
  {
    var t := Expire(s, now);
    if |packet| < HEADER_SIZE then Dropped(t) else RouteHeader(t, Parse(s.fromBi, packet), now, pick)
  }

  // ---------------------------------------------------------------------------------------
  // Scanning

  predicate TimedOut(slot: Slot, now: TimePoint) {
    slot.Occupied() && now - slot.asmStart > REASSEMBLE_TIMEOUT
  }

  predicate PushesIncomplete(s: State, j: nat)
    requires j < |s.slots|
  {
    s.allowIncomplete && s.slots[j].MeetsMinRate() && IsAfter(s.slots[j].frameIdx, s.lastPushed)
  }

  function ScanSlot(s: State, j: nat, now: TimePoint, env: PushEnv): State
    requires j < |s.slots|
  {
    if !TimedOut(s.slots[j], now) then s
    else if PushesIncomplete(s, j) then PushSlot(s, j, env).(lastPushed := s.slots[j].frameIdx)
    else ClearSlot(s, j)
  }

  function ScanFrom(s: State, j: nat, now: TimePoint, env: seq<PushEnv>): (t: State)
    requires j <= |s.slots| == |env|
    ensures |t.slots| == |s.slots|
    decreases |s.slots| - j
  {
    if j == |s.slots| then s else ScanFrom(ScanSlot(s, j, now, env[j]), j + 1, now, env)
  }
}
