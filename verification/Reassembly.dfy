/** The reassembler as the program writes it: slot objects updated in place, pool buffers written
    through their handles. Every method is proved to perform the step of module ReassemblyRun. */
module Reassembly {
  import opened Common
  import opened PacketHeader
  import opened FramePool
  import opened VidRender
  import opened ReassemblyModel
  import opened ReassemblyInvariant
  import opened ReassemblyRun

  class ReassemblingFrame {
    var frameSlot: FrameData  // Moved stands for the empty optional
    var frameIdx: u16
    var curLen: u32
    var asmStartTime: TimePoint
    var receivedSecs: set<nat>  // the set bits of the bitmap

    ghost function Model(): Slot
      reads this
    {
      Slot(frameSlot, frameIdx, curLen, asmStartTime, receivedSecs)
    }

    constructor ()
      ensures Model() == EMPTY_SLOT
    {
      frameSlot, frameIdx, curLen, asmStartTime, receivedSecs := Moved, 0, 0, TIME_MIN, {};
    }

    method Clear(pool: TFramePool)
      requires pool.Valid()
      modifies this, pool
      ensures pool.Valid() && Model() == EMPTY_SLOT
      ensures pool.freeIdxList == old(pool.freeIdxList) + if old(frameSlot).IsValid() then [old(frameSlot).idx] else []
    {
      pool.Destroy(frameSlot);
      frameSlot := Moved;
      frameIdx := 0;
      curLen := 0;
      asmStartTime := TIME_MIN;
      receivedSecs := {};
    }

    /** Moves the handle out; the other fields keep their values until clear(). */
    method Steal() returns (h: FrameData)
      modifies this`frameSlot
      ensures h == old(frameSlot) && frameSlot == Moved
    {
      h, frameSlot := frameSlot, Moved;
    }

    /** Gives a vacant slot a pool buffer. */
    method Open(pool: TFramePool, h: Header, now: TimePoint, pick: nat) returns (ok: bool)
      requires pool.Valid() && !frameSlot.IsValid()
      modifies this, pool
      ensures pool.Valid() && ok == (old(pool.freeIdxList) != [])
      ensures !ok ==> Model() == old(Model()) && pool.freeIdxList == old(pool.freeIdxList)
      ensures ok ==>
        var k := if pick < |old(pool.freeIdxList)| then pick else 0;
        && pool.freeIdxList == RemoveAt(old(pool.freeIdxList), k)
        && Model() == Slot(FrameData(old(pool.freeIdxList)[k], h.frameLen), h.frameIdx,
                           old(curLen), now, old(receivedSecs))
    {
      hide Listed, Held;
      var frameDataOpt := pool.Acquire(pick);
      if frameDataOpt.None? { return false; }
      var left;
      frameSlot, left := pool.MoveAssign(frameSlot, frameDataOpt.value);
      pool.Destroy(left);
      frameSlot := frameSlot.(frameLen := h.frameLen);
      frameIdx := h.frameIdx;
      asmStartTime := now;
      ok := true;
    }

    /** Steals the frame, offers it to the pipeline and resets the metadata. */
    method Push(renderer: TVidRender, env: PushEnv)
      requires renderer.framePool.Valid()
      modifies this, renderer, renderer.framePool
      ensures renderer.framePool.Valid() && Model() == EMPTY_SLOT
      ensures var h := old(frameSlot);
        var pushed := h.IsValid() && h.frameLen > 0 && env.Accepts();
        && renderer.inFlight == old(renderer.inFlight) + (if pushed then [h] else [])
        && renderer.framePool.freeIdxList
           == old(renderer.framePool.freeIdxList) + if !pushed && h.IsValid() then [h.idx] else []
    {
      hide Listed, Held;
      var h := Steal();
      var _, left := renderer.TryPushFrame(h, env);
      renderer.framePool.Destroy(left);
      Clear(renderer.framePool);
    }

    /** Stores the packet's section into the slot's buffer `dest`. */
    method Fill(packet: array<u8>, n: nat, h: Header, dest: array<u8>) returns (ok: bool)
      requires HEADER_SIZE <= n <= packet.Length && packet != dest && frameSlot.IsValid()
      requires curLen <= frameSlot.frameLen <= SLOT_LEN == dest.Length && StartsInside(Model(), h)
      modifies this, dest
      ensures ok == FillAccepts(old(Model()), h, packet[..n])
      ensures !ok ==> Model() == old(Model()) && dest[..] == old(dest[..])
      ensures ok ==> Model() == Stored(old(Model()), h, packet[..n])
      ensures ok ==> dest[..] == Overwrite(old(dest[..]), Offset(h), SectionData(old(Model()), h, packet[..n]))
    {
      if !frameSlot.IsValid() || curLen == frameSlot.frameLen { return false; }
      var secIdx := h.secIdx;
      var payloadSize: nat := n - HEADER_SIZE;
      var frameLen := frameSlot.DataLen();
      if secIdx >= MAX_SECS || payloadSize == 0 { return false; }
      if secIdx in receivedSecs { return false; }
      var offset: nat := secIdx as nat * MAX_PAYLOAD;
      if offset + payloadSize > frameLen { payloadSize := frameLen - offset; }
      ghost var before := dest[..];
      forall i | 0 <= i < payloadSize {
        dest[offset + i] := packet[HEADER_SIZE + i];
      }
      OverwriteIs(before, offset, packet[..n][HEADER_SIZE..HEADER_SIZE + payloadSize], dest[..]);
      receivedSecs := receivedSecs + {secIdx as nat};
      curLen := curLen + payloadSize;
      ok := true;
    }
  }

  class TReassembly {
    const fromBi: bool
    const renderer: TVidRender
    const rFrames: seq<ReassemblingFrame>
    var lastSyncedTime: TimePoint
    var lastPushedIdx: u16
    var synced: bool
    var allowPushIncomplete: bool

    ghost function Slots(): (r: seq<Slot>)
      reads rFrames
      ensures |r| == |rFrames| && forall i | 0 <= i < |r| :: r[i] == rFrames[i].Model()
    {
      seq(|rFrames|, i requires 0 <= i < |rFrames| reads rFrames => rFrames[i].Model())
    }

    /** The object graph as one value. */
    ghost function Model(): State
      reads this, renderer, renderer.framePool, renderer.framePool.poolData, rFrames
    {
      State(fromBi, renderer.framePool.freeIdxList, renderer.framePool.Memory(), renderer.inFlight,
            Slots(), lastSyncedTime, lastPushedIdx, synced, allowPushIncomplete)
    }

    // The slot objects are as the constructor laid them out.
    ghost predicate Wired()
      reads renderer.framePool
      ensures Wired() ==> |rFrames| == MAX_SLOTS && renderer.framePool.Valid()
    {
      && |rFrames| == MAX_SLOTS
      && (forall i, j | 0 <= i < j < MAX_SLOTS :: rFrames[i] != rFrames[j])
      && renderer.framePool.Valid()
    }

    ghost predicate Valid()
      reads this, renderer, renderer.framePool, renderer.framePool.poolData, rFrames
    {
      Wired() && Inv(Model())
    }

    constructor (fromBi: bool, renderer: TVidRender)
      requires renderer.framePool.Valid() && renderer.inFlight == []
      requires renderer.framePool.freeIdxList == Indices(POOL_SIZE)
      ensures this.renderer == renderer && this.fromBi == fromBi
      ensures Valid() && Initial(Model())
    {
      this.fromBi, this.renderer := fromBi, renderer;
      lastSyncedTime, lastPushedIdx, synced, allowPushIncomplete := TIME_MIN, 0, false, false;
      var f0 := new ReassemblingFrame();
      var f1 := new ReassemblingFrame();
      var f2 := new ReassemblingFrame();
      var f3 := new ReassemblingFrame();
      var f4 := new ReassemblingFrame();
      rFrames := [f0, f1, f2, f3, f4];
      new;
      StartsInitial();
    }

    lemma StartsInitial()
      requires Wired() && renderer.inFlight == [] && renderer.framePool.freeIdxList == Indices(POOL_SIZE)
      requires !synced && lastPushedIdx == 0 && !allowPushIncomplete
      requires forall j | 0 <= j < MAX_SLOTS :: rFrames[j].Model() == EMPTY_SLOT
      ensures Valid() && Initial(Model())
    {
      hide Inv, Indices, Shape;
      assert Slots() == [EMPTY_SLOT, EMPTY_SLOT, EMPTY_SLOT, EMPTY_SLOT, EMPTY_SLOT];
      InitialInv(Model());
    }

    method ClearFrame(j: nat)
      requires Wired() && j < MAX_SLOTS
      modifies rFrames[j], renderer.framePool
      ensures Wired() && Model() == ClearSlot(old(Model()), j)
    {
      rFrames[j].Clear(renderer.framePool);
      assert Slots() == old(Slots())[j := EMPTY_SLOT];
    }

    /** The one pass over the slots: the slot of frame idx if there is one; otherwise the first
        vacant slot and the oldest small and large frames (-1 where there is none). */
    method SearchSlots(idx: u16) returns (same: int, firstEmpty: int, oldestSmall: int, oldestLarge: int)
      requires Wired()
      requires forall j | 0 <= j < MAX_SLOTS :: rFrames[j].Model().Occupied() ==> rFrames[j].asmStartTime < TIME_MAX
      ensures same != -1 ==> Matches(Slots(), idx, same) && forall k | Matches(Slots(), idx, k) :: same <= k
      ensures same == -1 ==> forall k :: !Matches(Slots(), idx, k)
      ensures same == -1 ==> FirstVacant(Slots(), MAX_SLOTS, firstEmpty)
      ensures same == -1 ==> OldestSoFar(Slots(), false, MAX_SLOTS, oldestSmall)
      ensures same == -1 ==> OldestSoFar(Slots(), true, MAX_SLOTS, oldestLarge)
    {
      ghost var slots := Slots();
      SearchStarts(slots);
      hide FirstVacant, OldestSoFar, TFramePool.Valid;
      same, firstEmpty, oldestSmall, oldestLarge := -1, -1, -1, -1;
      var minTimeSmall: TimePoint, minTimeLarge: TimePoint := TIME_MAX, TIME_MAX;
      var i := 0;
      while i < MAX_SLOTS
        invariant 0 <= i <= MAX_SLOTS && same == -1
        invariant forall k | 0 <= k < i :: !Matches(slots, idx, k)
        invariant FirstVacant(slots, i, firstEmpty)
        invariant OldestSoFar(slots, false, i, oldestSmall)
        invariant OldestSoFar(slots, true, i, oldestLarge)
        invariant minTimeSmall == if oldestSmall == -1 then TIME_MAX else slots[oldestSmall].asmStart
        invariant minTimeLarge == if oldestLarge == -1 then TIME_MAX else slots[oldestLarge].asmStart
      {
        var frame := rFrames[i];
        assert slots[i] == frame.Model();
        SearchNext(slots, i, firstEmpty, oldestSmall, oldestLarge);
        if frame.frameSlot.IsValid() && frame.frameIdx == idx {
          assert Matches(slots, idx, i);
          same := i;
          return;
        }
        if !frame.frameSlot.IsValid() {
          if firstEmpty == -1 { firstEmpty := i; }
        } else if frame.frameSlot.DataLen() >= BIG_FRAME {
          if frame.asmStartTime < minTimeLarge { minTimeLarge, oldestLarge := frame.asmStartTime, i; }
        } else {
          if frame.asmStartTime < minTimeSmall { minTimeSmall, oldestSmall := frame.asmStartTime, i; }
        }
        i := i + 1;
      }
    }

    /** Finds the slot of frame idx, or frees one for it. It never comes back empty-handed. */
    method FindReAsmSlot(idx: u16) returns (r: Option<nat>)
      requires Valid()
      modifies rFrames, renderer.framePool
      ensures Wired() && r == Some(Chosen(old(Slots()), idx))
      ensures Model() == (
        if Matches(old(Slots()), idx, r.value) || Vacant(old(Slots()), r.value) then old(Model())
        else ClearSlot(old(Model()), r.value))
    {
      ghost var slots := Slots();
      assert forall j | 0 <= j < MAX_SLOTS :: slots[j] == Model().slots[j] && SlotOk(slots[j]);
      hide Inv;
      var same, firstEmpty, oldestSmall, oldestLarge := SearchSlots(idx);
      if same != -1 {
        ChoiceUnique(slots, idx, same, Chosen(slots, idx));
        return Some(same);
      }
      SearchFindsChoice(slots, idx, firstEmpty, oldestSmall, oldestLarge);
      if firstEmpty != -1 { return Some(firstEmpty); }
      if oldestSmall != -1 {
        ClearFrame(oldestSmall);
        return Some(oldestSmall);
      }
      if oldestLarge != -1 {
        ClearFrame(oldestLarge);
        return Some(oldestLarge);
      }
      return None;
    }

    // -------------------------------------------------------------------------------------
    // Receiving

    method ExpireSession(now: TimePoint)
      modifies this`synced
      ensures Model() == Expire(old(Model()), now)
    {
      if synced && now - lastSyncedTime > SYNC_TIMEOUT { synced := false; }
    }

    method ClearAllFrames()
      requires Wired()
      modifies rFrames, renderer.framePool
      ensures Wired() && Model() == ClearFrom(old(Model()), 0)
    {
      var j := 0;
      while j < MAX_SLOTS
        invariant 0 <= j <= MAX_SLOTS && Wired()
        invariant ClearFrom(Model(), j) == ClearFrom(old(Model()), 0)
      {
        ClearFrame(j);
        j := j + 1;
      }
    }

    /** The index checks of onPacketRecv, and the resync. */
    method AdmitPacket(idx: u16, now: TimePoint) returns (ok: bool)
      requires Wired()
      modifies this, rFrames, renderer.framePool
      ensures Wired() && ok == !IsStale(old(Model()), idx)
      ensures Model() == if ok then Admit(old(Model()), idx, now) else old(Model())
    {
      hide Pred, Diff, Shape, ClearFrom, TFramePool.Valid;
      ghost var s := Model();
      var diff := Diff(idx, lastPushedIdx);
      if synced && diff < MIN_IDX_DIFF { synced := false; }
      if synced && diff <= 0 { return false; }
      if !synced {
        synced := true;
        lastPushedIdx := Pred(idx);
        ghost var t := Model();
        assert t == s.(synced := true, lastPushed := Pred(idx));
        ClearAllFrames();
        ClearFromSession(s, 0, true, Pred(idx));
      }
      lastSyncedTime := now;
      ok := true;
    }

    method OpenFrame(j: nat, h: Header, now: TimePoint, pick: nat) returns (ok: bool)
      requires Wired() && j < MAX_SLOTS && !rFrames[j].Model().Occupied()
      modifies rFrames[j], renderer.framePool
      ensures Wired() && ok == (old(Model()).free != [])
      ensures Model() == if ok then OpenSlot(old(Model()), j, h, now, pick) else old(Model())
    {
      hide TFramePool.Valid;
      ok := rFrames[j].Open(renderer.framePool, h, now, pick);
      assert Slots() == old(Slots())[j := rFrames[j].Model()];
    }

    method PushFrame(j: nat, env: PushEnv)
      requires Wired() && j < MAX_SLOTS
      modifies rFrames[j], renderer, renderer.framePool
      ensures Wired() && Model() == PushSlot(old(Model()), j, env)
    {
      hide TFramePool.Valid;
      rFrames[j].Push(renderer, env);
      assert Slots() == old(Slots())[j := EMPTY_SLOT];
    }

    /** findReAsmSlot and, for a vacant slot, the pool: the rest of routing. */
    method LocateFrame(h: Header, now: TimePoint, pick: nat) returns (r: Option<nat>)
      requires Valid() && h.frameLen <= SLOT_LEN && now < TIME_MAX
      modifies rFrames, renderer.framePool
      ensures Valid() && Model() == Locate(old(Model()), h, now, pick).s
      ensures var l := Locate(old(Model()), h, now, pick); r == if l.Ready? then Some(l.j) else None
    {
      LocateInv(Model(), h, now, pick);
      hide Inv, Chosen;
      var found := FindReAsmSlot(h.frameIdx);
      if found.None? { return None; }
      var j := found.value;
      if !rFrames[j].frameSlot.IsValid() {
        var ok := OpenFrame(j, h, now, pick);
        if !ok { return None; }
      }
      r := Some(j);
    }

    method FillFrame(j: nat, packet: array<u8>, n: nat, h: Header) returns (ok: bool)
      requires Valid() && j < MAX_SLOTS && rFrames[j].frameSlot.IsValid()
      requires HEADER_SIZE <= n <= packet.Length && packet !in renderer.framePool.poolData
      requires StartsInside(rFrames[j].Model(), h)
      modifies rFrames[j], renderer.framePool.poolData
      ensures Wired() && Slots()[j] == rFrames[j].Model()
      ensures var s, p := old(Model()), old(packet[..n]);
        && ok == FillAccepts(s.slots[j], h, p)
        && Model() == if ok then FillSlot(s, j, h, p) else s
    {
      ghost var s := Model();
      var frame := rFrames[j];
      assert s.slots[j] == frame.Model();
      var i := frame.frameSlot.idx;
      var dest := renderer.framePool.poolData[i];
      hide Inv, Overwrite, Stored, FillAccepts, SectionData;
      ok := frame.Fill(packet, n, h, dest);
      assert Slots() == s.slots[j := frame.Model()];
      assert renderer.framePool.Memory() == s.mem[i := dest[..]];
    }

    /** fill(), and the push of a frame it completes. */
    method FillAndPush(j: nat, packet: array<u8>, n: nat, h: Header, env: PushEnv)
      requires Valid() && j < MAX_SLOTS && rFrames[j].frameSlot.IsValid()
      requires HEADER_SIZE <= n <= packet.Length && packet !in renderer.framePool.poolData
      requires StartsInside(rFrames[j].Model(), h)
      modifies rFrames[j], renderer, renderer.framePool, renderer.framePool.poolData, this`lastPushedIdx
      ensures Wired()
      ensures var s, p := old(Model()), old(packet[..n]);
        Model() == Delivered(s, j, h, p, env)
    {
      hide FillSlot, FillAccepts, TFramePool.Valid, PushSlot;
      var filled := FillFrame(j, packet, n, h);
      if filled {
        if rFrames[j].frameSlot.IsValid() && rFrames[j].curLen == rFrames[j].frameSlot.DataLen() {
          PushFrame(j, env);
          lastPushedIdx := h.frameIdx;
        }
      }
    }

    /** The header checks of onPacketRecv and the slot the packet goes to, unless it is dropped. */
    method RouteFrame(h: Header, now: TimePoint, pick: nat) returns (r: Option<nat>)
      requires Valid() && now < TIME_MAX
      modifies this, rFrames, renderer.framePool
      ensures Valid()
      ensures var l := RouteHeader(old(Model()), h, now, pick);
        Model() == l.s && r == if l.Ready? then Some(l.j) else None
    {
      ghost var s := Model();
      AdmitInv(s, h.frameIdx, now);
      hide Inv, Locate, Admit, IsStale;
      if h.frameLen > SLOT_LEN { return None; }
      var ok := AdmitPacket(h.frameIdx, now);
      if !ok { return None; }
      r := LocateFrame(h, now, pick);
    }

    /** Reads the header, converting it in the receive buffer when it is in network order. */
    method ReadHeader(packetData: array<u8>, n: nat) returns (h: Option<Header>)
      requires n <= packetData.Length
      modifies packetData
      ensures h == if n < HEADER_SIZE then None else Some(Parse(fromBi, old(packetData[..n])))
      ensures n >= HEADER_SIZE ==> packetData[HEADER_SIZE..] == old(packetData[HEADER_SIZE..])
    {
      if fromBi {
        h := FromBiInplace(packetData, n);
      } else {
        h := FromLiInplace(packetData, n);
      }
    }

    /** The rest of onPacketRecv once the header has been read. */
    method HandlePacket(h: Header, packet: array<u8>, n: nat, now: TimePoint, pick: nat, env: PushEnv)
      requires Valid() && now < TIME_MAX
      requires HEADER_SIZE <= n <= packet.Length && packet !in renderer.framePool.poolData
      requires CanHandle(Model(), h, now, pick)
      modifies this, rFrames, renderer, renderer.framePool, renderer.framePool.poolData
      ensures Wired() && Model() == Handled(old(Model()), h, old(packet[..n]), now, pick, env)
    {
      hide Inv, RouteHeader, FillSlot, FillAccepts, PushSlot, StartsInside;
      var found := RouteFrame(h, now, pick);
      if found.Some? {
        FillAndPush(found.value, packet, n, h, env);
      }
    }

    /** onPacketRecv from the parsing of the header on. */
    method HandleBytes(packetData: array<u8>, n: nat, now: TimePoint, pick: nat, env: PushEnv)
      requires Valid() && HEADER_SIZE <= n <= packetData.Length && now < TIME_MAX
      requires packetData !in renderer.framePool.poolData
      requires CanHandle(Model(), Parse(fromBi, packetData[..n]), now, pick)
      modifies this, rFrames, renderer, renderer.framePool, renderer.framePool.poolData, packetData
      ensures Wired()
      ensures var p := old(packetData[..n]); Model() == Handled(old(Model()), Parse(fromBi, p), p, now, pick, env)
    {
      hide Inv, Parse, Handled, CanHandle, Shape, TFramePool.Valid;
      ghost var s, packet := Model(), packetData[..n];
      var header := ReadHeader(packetData, n);
      if header.None? { return; }
      assert Model() == s && Valid();
      SameHandling(s, header.value, packet, packetData[..n], now, pick, env);
      HandlePacket(header.value, packetData, n, now, pick, env);
    }

    method OnPacketRecv(packetData: array<u8>, n: nat, now: TimePoint, pick: nat, env: PushEnv)
      requires Valid() && n <= packetData.Length && packetData !in renderer.framePool.poolData
      requires Enabled(Model(), Recv(packetData[..n], now, pick, env))
      modifies this, rFrames, renderer, renderer.framePool, renderer.framePool.poolData, packetData
      ensures Valid() && Model() == Step(old(Model()), Recv(old(packetData[..n]), now, pick, env))
    {
      ghost var s, packet := Model(), packetData[..n];
      StepInv(s, Recv(packet, now, pick, env));
      RecvUnfolds(s, packet, now, pick, env);
      SessionFieldsFree(s, Expire(s, now));
      hide Inv, Parse, Handled, CanHandle, Step, Enabled, Shape, TFramePool.Valid;
      ExpireSession(now);
      if n < HEADER_SIZE { return; }
      HandleBytes(packetData, n, now, pick, env);
    }

    // -------------------------------------------------------------------------------------
    // Scanning, and the other threads

    method ScanFrame(j: nat, now: TimePoint, env: PushEnv)
      requires Wired() && j < MAX_SLOTS
      modifies rFrames[j], renderer, renderer.framePool, this`lastPushedIdx
      ensures Wired() && Model() == ScanSlot(old(Model()), j, now, env)
    {
      var frame := rFrames[j];
      assert Model().slots[j] == frame.Model();
      hide TFramePool.Valid, Shape;
      if frame.frameSlot.IsValid() && now - frame.asmStartTime > REASSEMBLE_TIMEOUT {
        var rateOk := MeetsRate(frame.curLen, frame.frameSlot.DataLen());
        if allowPushIncomplete && rateOk && IsAfter(frame.frameIdx, lastPushedIdx) {
          var idx := frame.frameIdx;
          PushFrame(j, env);
          lastPushedIdx := idx;
        } else {
          ClearFrame(j);
        }
      }
    }

    method ReAsmSlotScan(now: TimePoint, envs: seq<PushEnv>)
      requires Valid() && |envs| == MAX_SLOTS
      modifies this, rFrames, renderer, renderer.framePool
      ensures Valid() && Model() == Step(old(Model()), Scan(now, envs))
    {
      ghost var s := Model();
      StepInv(s, Scan(now, envs));
      hide Inv, ScanSlot;
      ExpireSession(now);
      ghost var t := Model();
      var j := 0;
      while j < MAX_SLOTS
        invariant 0 <= j <= MAX_SLOTS && Wired()
        invariant ScanFrom(Model(), j, now, envs) == ScanFrom(t, 0, now, envs)
      {
        ScanFrame(j, now, envs[j]);
        j := j + 1;
      }
    }

    /** The pipeline's free callback, seen from the whole object graph. */
    method OnBufferFreed(k: nat)
      requires Valid() && k < |renderer.inFlight|
      modifies renderer, renderer.framePool
      ensures Valid() && Model() == Step(old(Model()), Release(k))
    {
      ghost var s := Model();
      StepInv(s, Release(k));
      hide Listed, Held, Inv;
      renderer.Release(k);
    }

    method AllowPushIncompleteFrames(allow: bool)
      requires Valid()
      modifies this`allowPushIncomplete
      ensures Valid() && Model() == Step(old(Model()), Allow(allow))
    {
      ghost var s := Model();
      StepInv(s, Allow(allow));
      hide Inv;
      allowPushIncomplete := allow;
    }
  }

  // The first vacant slot among the first n; -1 if none.
  ghost predicate FirstVacant(slots: seq<Slot>, n: int, j: int) {
    if j == -1 then forall k | 0 <= k < n :: !Vacant(slots, k)
    else 0 <= j < n && Vacant(slots, j) && forall k | 0 <= k < j :: !Vacant(slots, k)
  }

  // The oldest slot of a size class among the first n; -1 if none.
  ghost predicate OldestSoFar(slots: seq<Slot>, large: bool, n: int, j: int)
    requires 0 <= n <= |slots|
    ensures OldestSoFar(slots, large, n, j) && j != -1 ==> 0 <= j < n
  {
    if j == -1 then forall k | 0 <= k < n :: !OfSize(slots, large, k)
    else
      && 0 <= j < n && OfSize(slots, large, j)
      && (forall k | 0 <= k < n && OfSize(slots, large, k) :: slots[j].asmStart <= slots[k].asmStart)
      && (forall k | 0 <= k < j && OfSize(slots, large, k) :: slots[j].asmStart < slots[k].asmStart)
  }

  lemma SearchStarts(slots: seq<Slot>)
    ensures FirstVacant(slots, 0, -1) && OldestSoFar(slots, false, 0, -1) && OldestSoFar(slots, true, 0, -1)
  {
  }

  // What one more slot adds.
  lemma SearchNext(slots: seq<Slot>, i: nat, empty: int, small: int, large: int)
    requires i < |slots| && FirstVacant(slots, i, empty)
    requires OldestSoFar(slots, false, i, small) && OldestSoFar(slots, true, i, large)
    ensures FirstVacant(slots, i + 1, if empty == -1 && Vacant(slots, i) then i else empty)
    ensures OldestSoFar(slots, false, i + 1, Older(slots, false, small, i))
    ensures OldestSoFar(slots, true, i + 1, Older(slots, true, large, i))
  {
    OldestNext(slots, false, i, small);
    OldestNext(slots, true, i, large);
    hide OldestSoFar;
  }

  lemma OldestNext(slots: seq<Slot>, large: bool, i: nat, j: int)
    requires i < |slots| && OldestSoFar(slots, large, i, j)
    ensures OldestSoFar(slots, large, i + 1, Older(slots, large, j, i))
  {
  }

  // The older of slot j, if it is one, and slot i, if it is of the size class.
  function Older(slots: seq<Slot>, large: bool, j: int, i: nat): int
    requires i < |slots| && j < |slots|
  {
    if OfSize(slots, large, i) && (j < 0 || slots[i].asmStart < slots[j].asmStart) then i else j
  }

  // What the pass collects is the slot the policy names.
  lemma SearchFindsChoice(slots: seq<Slot>, idx: u16, empty: int, small: int, large: int)
    requires |slots| == MAX_SLOTS && forall k :: !Matches(slots, idx, k)
    requires FirstVacant(slots, MAX_SLOTS, empty)
    requires OldestSoFar(slots, false, MAX_SLOTS, small) && OldestSoFar(slots, true, MAX_SLOTS, large)
    ensures var j := if empty != -1 then empty else if small != -1 then small else large;
      j >= 0 && j == Chosen(slots, idx)
  {
    var j := if empty != -1 then empty else if small != -1 then small else large;
    if empty == -1 && small == -1 {
      assert !Vacant(slots, 0);
      assert OfSize(slots, false, 0) || OfSize(slots, true, 0);
    }
    assert IsChoice(slots, idx, j) by {
      if empty == -1 {
        assert forall k :: !Vacant(slots, k);
      }
    }
    ChoiceUnique(slots, idx, j, Chosen(slots, idx));
  }

  lemma {:induction false} ClearFromSession(s: State, j: nat, synced: bool, idx: u16)
    requires j <= |s.slots|
    ensures ClearFrom(s.(synced := synced, lastPushed := idx), j)
         == ClearFrom(s, j).(synced := synced, lastPushed := idx)
    decreases |s.slots| - j
  {
    if j < |s.slots| {
      ClearFromSession(ClearSlot(s, j), j + 1, synced, idx);
    }
  }

  // fill() on slot j, and the push of a frame it completes.
  ghost function Delivered(s: State, j: nat, h: Header, packet: seq<u8>, env: PushEnv): State
    requires Shape(s) && j < MAX_SLOTS && s.slots[j].Occupied() && StartsInside(s.slots[j], h)
  {
    if !FillAccepts(s.slots[j], h, packet) then s
    else
      var t := FillSlot(s, j, h, packet);
      if t.slots[j].Complete() then PushSlot(t, j, env).(lastPushed := h.frameIdx) else t
  }

  // The routed packet's section starts inside the frame it is stored into.
  ghost predicate CanHandle(s: State, h: Header, now: TimePoint, pick: nat)
    requires |s.slots| == MAX_SLOTS
  {
    var l := RouteHeader(s, h, now, pick);
    l.Ready? ==> Shape(l.s) && l.j < MAX_SLOTS && l.s.slots[l.j].Occupied() && StartsInside(l.s.slots[l.j], h)
  }

  // Routing a packet by its header, then fill() and the push.
  ghost function Handled(s: State, h: Header, packet: seq<u8>, now: TimePoint, pick: nat, env: PushEnv): State
    requires |s.slots| == MAX_SLOTS && CanHandle(s, h, now, pick)
  {
    var l := RouteHeader(s, h, now, pick);
    if l.Dropped? then l.s else Delivered(l.s, l.j, h, packet, env)
  }

  // fill() reads only the length and the payload of the packet.
  lemma SameFill(s: State, j: nat, h: Header, p: seq<u8>, q: seq<u8>, env: PushEnv)
    requires Shape(s) && j < MAX_SLOTS && s.slots[j].Occupied() && StartsInside(s.slots[j], h)
    requires |p| == |q| >= HEADER_SIZE && p[HEADER_SIZE..] == q[HEADER_SIZE..]
    ensures Delivered(s, j, h, p, env) == Delivered(s, j, h, q, env)
  {
    if FillAccepts(s.slots[j], h, p) {
      var n := FillSize(s.slots[j], h, p);
      assert p[HEADER_SIZE..HEADER_SIZE + n] == p[HEADER_SIZE..][..n];
      assert q[HEADER_SIZE..HEADER_SIZE + n] == q[HEADER_SIZE..][..n];
    }
  }

  lemma SameHandling(s: State, h: Header, p: seq<u8>, q: seq<u8>, now: TimePoint, pick: nat, env: PushEnv)
    requires |s.slots| == MAX_SLOTS && CanHandle(s, h, now, pick)
    requires |p| == |q| >= HEADER_SIZE && p[HEADER_SIZE..] == q[HEADER_SIZE..]
    ensures Handled(s, h, p, now, pick, env) == Handled(s, h, q, now, pick, env)
  {
    hide RouteHeader, Delivered;
    var l := RouteHeader(s, h, now, pick);
    if l.Ready? {
      SameFill(l.s, l.j, h, p, q, env);
    }
  }

  // The receive step spelled out along the control flow of onPacketRecv.
  lemma RecvUnfolds(s: State, packet: seq<u8>, now: TimePoint, pick: nat, env: PushEnv)
    requires Inv(s) && Enabled(s, Recv(packet, now, pick, env))
    ensures |packet| < HEADER_SIZE ==> Step(s, Recv(packet, now, pick, env)) == Expire(s, now)
    ensures |packet| >= HEADER_SIZE ==>
      var h := Parse(s.fromBi, packet);
      && CanHandle(Expire(s, now), h, now, pick)
      && Step(s, Recv(packet, now, pick, env)) == Handled(Expire(s, now), h, packet, now, pick, env)
  {
    RouteInv(s, packet, now, pick);
    hide Inv, Parse, RouteHeader, FillSlot, FillAccepts, PushSlot;
  }
}
