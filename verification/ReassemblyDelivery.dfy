/** What the pipeline receives: over every run, a completed frame holds exactly the bytes its
    sender cut into sections, and the bytes stay put until the pipeline frees the buffer. */
module ReassemblyDelivery {
  import opened Common
  import opened PacketHeader
  import opened FramePool
  import opened VidRender
  import opened ReassemblyModel
  import opened ReassemblyInvariant
  import opened ReassemblyRun
  import opened ReassemblyHistory

  // Event n completes a frame, which onPacketRecv then pushes.
  ghost predicate PushesAt(ss: seq<State>, es: seq<Event>, n: nat)
    requires IsRun(ss, es) && n < |es|
  {
    es[n].Recv? && Completes(ss[n].fromBi, es[n].packet, RouteAt(ss, es, n))
  }

  // The handle and index of the frame pushed by event n.
  ghost function PushedSlot(ss: seq<State>, es: seq<Event>, n: nat): Slot
    requires IsRun(ss, es) && n < |es| && PushesAt(ss, es, n)
  {
    FilledState(ss, es, n).slots[RouteAt(ss, es, n).j]
  }

  lemma PushedSlotFacts(ss: seq<State>, es: seq<Event>, n: nat)
    requires IsRun(ss, es) && n < |es| && PushesAt(ss, es, n)
    ensures var slot := PushedSlot(ss, es, n);
      && slot.Complete() && slot.frame.frameLen <= SLOT_LEN && IsPacketOf(ss[0].fromBi, es[n], slot.frameIdx)
      && Shape(ss[n + 1]) && ss[n + 1].mem == FilledState(ss, es, n).mem
      && ss[n + 1].inFlight ==
         ss[n].inFlight + (if slot.frame.frameLen > 0 && es[n].env.Accepts() then [slot.frame] else [])
      && ss[n + 1].lastPushed == slot.frameIdx
  {
    hide IsRun, Parse, Inv, Route;
    ByteOrderFixed(ss, es, n);
    FilledInv(ss[n].fromBi, es[n].packet, RouteAt(ss, es, n));
    RunInv(ss, es, n + 1);
  }

  lemma FullSubset(a: set<nat>, n: nat)
    requires forall p | p in a :: p < n
    requires |a| == n
    ensures forall p: nat | p < n :: p in a
  {
    forall p: nat | p < n ensures p in a {
      if p !in a {
        MissingOne(a, Span(0, n), p);
      }
    }
  }

  lemma MissingOne(a: set<nat>, b: set<nat>, p: nat)
    requires a <= b && p in b && p !in a
    ensures |a| < |b|
  {
    SubsetSize(a, b - {p});
    assert |b - {p}| == |b| - 1;
  }

  lemma {:induction false} SubsetSize<T>(a: set<T>, b: set<T>)
    requires a <= b
    ensures |a| <= |b|
  {
    if a != {} {
      var x :| x in a;
      SubsetSize(a - {x}, b - {x});
    }
  }

  /** Every byte of a frame pushed by onPacketRecv is the byte that a packet of its section carried for
      that position: the one and only packet of the section that fill() accepted since the slot was
      opened, in the current session. No byte is left over from an earlier use of the pool buffer,
      which is never cleared, nor comes from a packet that was refused. */
  lemma PushedBytes(ss: seq<State>, es: seq<Event>, n: nat) returns (o: nat, w: map<nat, nat>)
    requires IsRun(ss, es) && n < |es| && PushesAt(ss, es, n)
    ensures var slot := PushedSlot(ss, es, n);
      && slot.Complete() && slot.frame.frameLen <= SLOT_LEN && Shape(ss[n + 1])
      && SessionStart(ss, es, n + 1) <= o <= n && Opens(ss[0].fromBi, es[o], slot)
      && (forall p: nat :: p in w <==> p < slot.frame.frameLen)
      && (forall p | p in w ::
            && o <= w[p] <= n && StoresAt(ss, es, w[p])
            && Carries(ss[0].fromBi, es[w[p]], slot.frameIdx, p, ss[n + 1].mem[slot.frame.idx][p]))
      && (forall k, p | o <= k <= n && StoresAt(ss, es, k) && IsPacketOf(ss[0].fromBi, es[k], slot.frameIdx)
                        && p in w && Parse(ss[0].fromBi, es[k].packet).secIdx == SecOf(p) ::
            w[p] == k)
  {
    hide StoresAt, IsRun, Parse, Inv, Route;
    var slot := PushedSlot(ss, es, n);
    PushedSlotFacts(ss, es, n);
    FilledInv(ss[n].fromBi, es[n].packet, RouteAt(ss, es, n));
    o, w := FilledHistory(ss, es, n, RouteAt(ss, es, n).j);
    assert |w.Keys| == |w|;
    FullSubset(w.Keys, slot.frame.frameLen);
  }

  /** The byte counter of an occupied slot is the number of distinct positions written since it
      was opened, so it reaches the frame length exactly when every position has been written,
      even when sections arrive short. */
  lemma CounterIsExact(ss: seq<State>, es: seq<Event>, n: nat, j: nat) returns (o: nat, w: map<nat, nat>)
    requires IsRun(ss, es) && n <= |es| && OccupiedAt(ss[n], j)
    ensures StoryAt(ss, es, n, ss[n], j, o, w)
    ensures ss[n].slots[j].curLen == |w.Keys| <= ss[n].slots[j].frame.frameLen
    ensures ss[n].slots[j].Complete() <==> forall p | 0 <= p < ss[n].slots[j].frame.frameLen :: p in w
  {
    hide IsRun, Parse, Inv, Route, Accepted, Carries, SessionStart;
    o, w := SlotHistory(ss, es, n, j);
    var len := ss[n].slots[j].frame.frameLen;
    assert |w.Keys| == |w|;
    if |w| == len {
      FullSubset(w.Keys, len);
    }
    if forall p | 0 <= p < len :: p in w {
      SubsetSize(Span(0, len), w.Keys);
    }
    SubsetSize(w.Keys, Span(0, len));
  }

  // ---------------------------------------------------------------------------------------
  // End to end

  /** The sender: section sec of a frame's content, followed by arbitrary padding. */
  function Cut(bi: bool, content: seq<u8>, idx: u16, sec: u16, padding: seq<u8>): seq<u8>
    requires |content| <= SLOT_LEN && sec as int * MAX_PAYLOAD <= |content|
  {
    var lo: nat := sec as int * MAX_PAYLOAD;
    Encode(bi, Header(idx, sec, |content|)) + content[lo..lo + SecSize(sec, |content|)] + padding
  }

  // Packet data that agrees with a frame's content wherever it overlaps it.
  predicate IsSectionOf(bi: bool, packet: seq<u8>, content: seq<u8>)
    requires |packet| >= HEADER_SIZE
  {
    var h := Parse(bi, packet);
    && h.frameLen == |content|
    && forall p | Offset(h) <= p < |content| && HEADER_SIZE + p - Offset(h) < |packet| && p < Offset(h) + MAX_PAYLOAD ::
         packet[HEADER_SIZE + p - Offset(h)] == content[p]
  }

  lemma CutIsSection(bi: bool, content: seq<u8>, idx: u16, sec: u16, padding: seq<u8>)
    requires |content| <= SLOT_LEN && sec as int * MAX_PAYLOAD <= |content|
    ensures var packet := Cut(bi, content, idx, sec, padding);
      Parse(bi, packet) == Header(idx, sec, |content|) && IsSectionOf(bi, packet, content)
  {
    var h := Header(idx, sec, |content|);
    var lo: nat := sec as int * MAX_PAYLOAD;
    var data := content[lo..lo + SecSize(sec, |content|)];
    HeaderRoundTrip(bi, h, data + padding);
    assert Cut(bi, content, idx, sec, padding) == Encode(bi, h) + (data + padding);
  }

  lemma SectionLength(bi: bool, packet: seq<u8>, content: seq<u8>)
    requires |packet| >= HEADER_SIZE && IsSectionOf(bi, packet, content)
    ensures Parse(bi, packet).frameLen == |content|
  {
  }

  lemma CarriedByte(bi: bool, e: Event, idx: u16, p: nat, b: u8, content: seq<u8>)
    requires Carries(bi, e, idx, p, b) && p < |content| && IsSectionOf(bi, e.packet, content)
    ensures b == content[p]
  {
    hide Parse;
    assert Offset(Parse(bi, e.packet)) + p % MAX_PAYLOAD == p;
  }

  // From event o to event n every packet of the index was cut from the given content.
  ghost predicate CutFrom(bi: bool, es: seq<Event>, o: nat, n: nat, idx: u16, content: seq<u8>)
    requires n < |es|
  {
    forall k | o <= k <= n && IsPacketOf(bi, es[k], idx) :: IsSectionOf(bi, es[k].packet, content)
  }

  /** End to end: event o opened the slot of the frame that event n pushes. If every packet of its
      index received from then on was cut from one content (in any order, duplicated, short or padded,
      interleaved with other frames), then the pushed frame is that content, byte for byte, whatever
      the index was used for before, in this session or an earlier one. */
  lemma EndToEnd(ss: seq<State>, es: seq<Event>, n: nat) returns (o: nat)
    requires IsRun(ss, es) && n < |es| && PushesAt(ss, es, n)
    ensures SessionStart(ss, es, n + 1) <= o <= n && Opens(ss[0].fromBi, es[o], PushedSlot(ss, es, n))
    ensures var f := PushedSlot(ss, es, n).frame;
      Shape(ss[n + 1]) && f.IsValid() && f.frameLen <= SLOT_LEN
      && forall content | CutFrom(ss[0].fromBi, es, o, n, PushedSlot(ss, es, n).frameIdx, content) ::
           ss[n + 1].mem[f.idx][..f.frameLen] == content
  {
    hide IsRun, Parse, Inv, Route, IsSectionOf;
    var w;
    o, w := PushedBytes(ss, es, n);
    var slot := PushedSlot(ss, es, n);
    var bytes := ss[n + 1].mem[slot.frame.idx];
    assert IsPacketOf(ss[0].fromBi, es[o], slot.frameIdx);
    hide PushesAt, PushedSlot, IsRun, Story, Completes;
    forall content | CutFrom(ss[0].fromBi, es, o, n, slot.frameIdx, content)
      ensures bytes[..slot.frame.frameLen] == content
    {
      SectionLength(ss[0].fromBi, es[o].packet, content);
      forall p | 0 <= p < |content| ensures bytes[p] == content[p] {
        assert IsPacketOf(ss[0].fromBi, es[w[p]], slot.frameIdx);
        CarriedByte(ss[0].fromBi, es[w[p]], slot.frameIdx, p, bytes[p], content);
      }
    }
  }

  // ---------------------------------------------------------------------------------------
  // Frames in the pipeline

  lemma FilledKeepsInFlight(s: State, packet: seq<u8>, now: TimePoint, r: Routed, k: nat)
    requires RouteOk(s, packet, now, r) && SectionOk(s.fromBi, packet, r) && k < |s.inFlight|
    ensures |Filled(s.fromBi, packet, r).mem| == POOL_SIZE
    ensures Filled(s.fromBi, packet, r).mem[s.inFlight[k].idx] == s.mem[s.inFlight[k].idx]
  {
    assert s.inFlight[k].IsValid();
    hide Parse, Inv, Fresh, StartsSession, IsAdmitted, OthersKept, IsAfter;
    if Fills(s.fromBi, packet, r) {
      SlotAndPipelineDontAlias(r.s, r.j, k);
    }
  }

  lemma RecvKeepsInFlight(s: State, packet: seq<u8>, now: TimePoint, r: Routed, env: PushEnv, k: nat)
    requires RouteOk(s, packet, now, r) && SectionOk(s.fromBi, packet, r) && k < |s.inFlight|
    ensures |RecvStep(s, packet, r, env).mem| == POOL_SIZE
    ensures RecvStep(s, packet, r, env).mem[s.inFlight[k].idx] == s.mem[s.inFlight[k].idx]
  {
    hide Parse, RouteOk, FillSlot, FillAccepts, SectionOk, Filled;
    FilledKeepsInFlight(s, packet, now, r, k);
  }

  /** No step changes a byte of a buffer the pipeline holds. */
  lemma StepKeepsInFlight(s: State, e: Event, k: nat)
    requires Inv(s) && Enabled(s, e) && k < |s.inFlight|
    ensures Shape(Step(s, e)) && Step(s, e).mem[s.inFlight[k].idx] == s.mem[s.inFlight[k].idx]
  {
    hide Parse, Inv, Route, RouteOk, SectionOk, RecvStep;
    StepInv(s, e);
    match e
    case Recv(packet, now, pick, env) =>
      RouteInv(s, packet, now, pick);
      RecvKeepsInFlight(s, packet, now, Route(s, packet, now, pick), env, k);
    case Scan(now, envs) => ScanFromFrame(Expire(s, now), 0, now, envs);
    case Release(_) =>
    case Allow(_) =>
  }

  /** From a push until the pipeline frees the buffer its bytes do not change, whatever packets,
      scans and other frees happen in between. */
  lemma {:induction false} InFlightStable(ss: seq<State>, es: seq<Event>, n: nat, m: nat, f: FrameData)
    requires IsRun(ss, es) && n <= m <= |es|
    requires forall i | n <= i <= m :: f in ss[i].inFlight
    ensures f.IsValid() && Shape(ss[n]) && Shape(ss[m])
    ensures ss[m].mem[f.idx] == ss[n].mem[f.idx]
  {
    RunInv(ss, es, m);
    assert f in ss[m].inFlight;
    if n < m {
      InFlightStable(ss, es, n, m - 1, f);
      RunInv(ss, es, m - 1);
      var k :| 0 <= k < |ss[m - 1].inFlight| && ss[m - 1].inFlight[k] == f;
      StepKeepsInFlight(ss[m - 1], es[m - 1], k);
    }
  }
}
