/** When a slot is kept: conditions on what arrives, under which no slot is evicted and a frame is
    completed. */
module ReassemblyKept {
  import opened Common
  import opened PacketHeader
  import opened FramePool
  import opened VidRender
  import opened ReassemblyModel
  import opened ReassemblyInvariant
  import opened ReassemblyRun
  import opened ReassemblyHistory
  import opened ReassemblyDelivery
  import opened ReassemblyProgress

  // ---------------------------------------------------------------------------------------
  // No eviction while at most five frames take turns

  predicate HasHeader(e: Event) { e.Recv? && |e.packet| >= HEADER_SIZE }

  // The frame indices of the packets in events a..b.
  ghost function Indices(bi: bool, es: seq<Event>, a: nat, b: nat): set<u16>
    requires b <= |es|
  {
    set k | a <= k < b && HasHeader(es[k]) :: Parse(bi, es[k].packet).frameIdx
  }

  lemma IndexArrived(bi: bool, es: seq<Event>, a: nat, b: nat, k: nat, idx: u16)
    requires a <= k < b <= |es| && IsPacketOf(bi, es[k], idx)
    ensures idx in Indices(bi, es, a, b)
  {
    assert HasHeader(es[k]);
  }

  lemma IndicesGrow(bi: bool, es: seq<Event>, a: nat, b: nat, c: nat)
    requires b <= c <= |es|
    ensures Indices(bi, es, a, b) <= Indices(bi, es, a, c)
    ensures |Indices(bi, es, a, b)| <= |Indices(bi, es, a, c)|
  {
    SubsetSize(Indices(bi, es, a, b), Indices(bi, es, a, c));
  }

  // Five occupied slots and one more index are six indices.
  lemma SixIndices(s: State, idx: u16, all: set<u16>)
    requires Inv(s) && (forall j | 0 <= j < MAX_SLOTS :: s.slots[j].Occupied() && s.slots[j].frameIdx in all)
    requires idx in all && forall j :: !Matches(s.slots, idx, j)
    ensures |all| >= 6
  {
    hide Conserved;
    forall j | 0 <= j < MAX_SLOTS ensures s.slots[j].frameIdx != idx {
      assert !Matches(s.slots, idx, j);
    }
    var five := {s.slots[0].frameIdx, s.slots[1].frameIdx, s.slots[2].frameIdx, s.slots[3].frameIdx,
                 s.slots[4].frameIdx};
    assert |five| == 5;
    assert |five + {idx}| == 6;
    SubsetSize(five + {idx}, all);
  }

  // The slot search leaves the occupied slots alone if it finds the frame or a vacant slot.
  lemma RoomKeeps(s: State, packet: seq<u8>, now: TimePoint, pick: nat, j: nat)
    requires Inv(s) && now < TIME_MAX && j < MAX_SLOTS && s.slots[j].Occupied() && !StartsSession(s, packet, now)
    requires |packet| >= HEADER_SIZE ==>
      (exists k :: Matches(s.slots, Parse(s.fromBi, packet).frameIdx, k)) || exists k :: Vacant(s.slots, k)
    ensures Route(s, packet, now, pick).s.slots[j] == s.slots[j]
  {
    hide Inv, Parse, Conserved;
  }

  lemma OccupantArrived(ss: seq<State>, es: seq<Event>, n: nat, j: nat)
    requires IsRun(ss, es) && n < |es| && OccupiedAt(ss[n], j)
    ensures ss[n].slots[j].frameIdx in Indices(ss[0].fromBi, es, SessionStart(ss, es, n), n + 1)
  {
    hide IsRun, Parse, Inv, Indices, Accepted, Carries, SessionStart, Route;
    var o, w := SlotHistory(ss, es, n, j);
    IndexArrived(ss[0].fromBi, es, SessionStart(ss, es, n), n + 1, o, ss[n].slots[j].frameIdx);
  }

  /** While the packets of a session have brought at most five frame indices, no slot is evicted: a packet
      that does not start a new session leaves every occupied slot as it is, up to fill(). */
  lemma FiveFramesFit(ss: seq<State>, es: seq<Event>, n: nat, j: nat)
    requires IsRun(ss, es) && n < |es| && es[n].Recv? && OccupiedAt(ss[n], j)
    requires !StartsSession(ss[n], es[n].packet, es[n].now)
    requires |Indices(ss[0].fromBi, es, SessionStart(ss, es, n), n + 1)| <= 5
    ensures RouteAt(ss, es, n).s.slots[j] == ss[n].slots[j]
  {
    hide IsRun, Parse, Inv, Route, StartsSession, Indices;
    var s, packet := ss[n], es[n].packet;
    RunInv(ss, es, n);
    ByteOrderFixed(ss, es, n);
    if |packet| >= HEADER_SIZE {
      var idx := Parse(s.fromBi, packet).frameIdx;
      if (forall k :: !Matches(s.slots, idx, k)) && (forall k :: !Vacant(s.slots, k)) {
        var all := Indices(ss[0].fromBi, es, SessionStart(ss, es, n), n + 1);
        forall k | 0 <= k < MAX_SLOTS ensures s.slots[k].Occupied() && s.slots[k].frameIdx in all {
          assert !Vacant(s.slots, k);
          OccupantArrived(ss, es, n, k);
        }
        IndexArrived(ss[0].fromBi, es, SessionStart(ss, es, n), n + 1, n, idx);
        SixIndices(s, idx, all);
      }
    }
    RoomKeeps(s, packet, es[n].now, es[n].pick, j);
  }

  // ---------------------------------------------------------------------------------------
  // A frame that is not disturbed is kept

  // Slot j still assembles the frame that was opened in it at the given time.
  ghost predicate Keeps(s: State, j: nat, idx: u16, since: TimePoint) {
    OccupiedAt(s, j) && s.slots[j].frameIdx == idx && s.slots[j].asmStart == since
  }

  /** What arrives from event a, which opened a slot for the frame, up to event n: nothing starts a new
      session, no packet of the frame comes too late or without its whole section, the packets of the
      session bring at most five indices, no scan comes more than 60 ms after the opening, and before
      event n the sections are not all there. */
  ghost predicate Undisturbed(ss: seq<State>, es: seq<Event>, a: nat, n: nat, idx: u16, len: nat)
    requires IsRun(ss, es) && a <= n < |es| && es[a].Recv?
  {
    && (forall i | a < i <= n ::
          && (es[i].Recv? ==> !StartsSession(ss[i], es[i].packet, es[i].now))
          && (IsPacketOf(ss[0].fromBi, es[i], idx) ==> IsAdmitted(ss[i], es[i].packet, es[i].now))
          && (es[i].Scan? ==> es[i].now - es[a].now <= REASSEMBLE_TIMEOUT))
    && (forall i | a <= i <= n && IsPacketOf(ss[0].fromBi, es[i], idx) ::
          CoversSection(ss[0].fromBi, es[i].packet, len))
    && (forall b | a < b <= n :: !HasAllSections(Arrived(ss[0].fromBi, es, a, b, idx), len, MAX_SECS))
    && |Indices(ss[0].fromBi, es, SessionStart(ss, es, a + 1), n + 1)| <= 5
  }

  lemma {:induction false} ScanKeeps(s: State, k: nat, now: TimePoint, envs: seq<PushEnv>, j: nat)
    requires k <= |s.slots| == |envs| && j < |s.slots| && !TimedOut(s.slots[j], now)
    ensures ScanFrom(s, k, now, envs).slots[j] == s.slots[j]
    decreases |s.slots| - k
  {
    if k < |s.slots| {
      ScanKeeps(ScanSlot(s, k, now, envs[k]), k + 1, now, envs, j);
    }
  }

  // A packet that was stored in slot j, or refused by it, and did not complete the frame.
  lemma UnpushedStays(ss: seq<State>, es: seq<Event>, n: nat, j: nat, idx: u16, since: TimePoint)
    requires IsRun(ss, es) && n < |es| && es[n].Recv? && !PushesAt(ss, es, n)
    requires Keeps(RouteAt(ss, es, n).s, j, idx, since)
    ensures Keeps(ss[n + 1], j, idx, since)
  {
    hide IsRun, Parse, Inv, Route;
    RunInv(ss, es, n + 1);
    FilledInv(ss[n].fromBi, es[n].packet, RouteAt(ss, es, n));
  }

  // A packet of another frame, pushed or not.
  lemma OtherPacketStays(ss: seq<State>, es: seq<Event>, n: nat, j: nat, idx: u16, since: TimePoint)
    requires IsRun(ss, es) && n < |es| && es[n].Recv? && !IsPacketOf(ss[0].fromBi, es[n], idx)
    requires Keeps(RouteAt(ss, es, n).s, j, idx, since)
    ensures Keeps(ss[n + 1], j, idx, since)
  {
    hide IsRun, Parse, Inv, Route;
    ByteOrderFixed(ss, es, n);
    RunInv(ss, es, n + 1);
    FilledInv(ss[n].fromBi, es[n].packet, RouteAt(ss, es, n));
  }

  lemma QuietStepKeeps(s: State, e: Event, j: nat, idx: u16, since: TimePoint)
    requires Inv(s) && Enabled(s, e) && !e.Recv? && Keeps(s, j, idx, since)
    requires e.Scan? ==> e.now - since <= REASSEMBLE_TIMEOUT
    ensures Keeps(Step(s, e), j, idx, since)
  {
    StepInv(s, e);
    if e.Scan? { ScanKeeps(Expire(s, e.now), 0, e.now, e.envs, j); }
    hide Inv, ScanFrom;
  }

  lemma {:induction false} SessionGoesOn(ss: seq<State>, es: seq<Event>, a: nat, n: nat)
    requires |ss| == |es| + 1 && a <= n <= |es|
    requires forall i | a <= i < n && es[i].Recv? :: !StartsSession(ss[i], es[i].packet, es[i].now)
    ensures SessionStart(ss, es, n) == SessionStart(ss, es, a)
    decreases n
  {
    hide StartsSession;
    if a < n { SessionGoesOn(ss, es, a, n - 1); }
  }

  lemma UndisturbedBefore(ss: seq<State>, es: seq<Event>, a: nat, n: nat, idx: u16, len: nat)
    requires IsRun(ss, es) && a < n < |es| && es[a].Recv? && Undisturbed(ss, es, a, n, idx, len)
    ensures Undisturbed(ss, es, a, n - 1, idx, len)
  {
    IndicesGrow(ss[0].fromBi, es, SessionStart(ss, es, a + 1), n, n + 1);
    hide IsRun, Parse, Indices, SessionStart, StartsSession, IsAdmitted, CoversSection, Arrived, HasAllSections;
  }

  lemma UndisturbedAt(ss: seq<State>, es: seq<Event>, a: nat, m: nat, idx: u16, len: nat)
    requires IsRun(ss, es) && a <= m && m + 1 < |es| && es[a].Recv? && Undisturbed(ss, es, a, m + 1, idx, len)
    ensures !HasAllSections(Arrived(ss[0].fromBi, es, a, m + 1, idx), len, MAX_SECS)
    ensures a < m && es[m].Recv? ==> !StartsSession(ss[m], es[m].packet, es[m].now)
    ensures a < m && es[m].Scan? ==> es[m].now - es[a].now <= REASSEMBLE_TIMEOUT
    ensures a < m ==> |Indices(ss[0].fromBi, es, SessionStart(ss, es, m), m + 1)| <= 5
  {
    hide IsRun, Parse, Indices, SessionStart, StartsSession, IsAdmitted, CoversSection, Arrived, HasAllSections;
    if a < m {
      SessionGoesOn(ss, es, a + 1, m);
      IndicesGrow(ss[0].fromBi, es, SessionStart(ss, es, a + 1), m + 1, m + 2);
    }
  }

  // A packet of the frame that is not the last one missing.
  lemma PartStays(ss: seq<State>, es: seq<Event>, a: nat, m: nat, j: nat, idx: u16, len: nat)
    requires IsRun(ss, es) && a < m < |es| && 0 < len && es[a].Recv? && IsPacketOf(ss[0].fromBi, es[m], idx)
    requires OpenedAt(ss, es, a, j, idx, len) && Kept(ss, es, a, m, j, idx, len) && Keeps(ss[m], j, idx, es[a].now)
    requires !HasAllSections(Arrived(ss[0].fromBi, es, a, m + 1, idx), len, MAX_SECS)
    ensures Keeps(ss[m + 1], j, idx, es[a].now)
  {
    hide IsRun, Parse, Inv, Route, OpenedAt, Kept, BringsSection, Arrived, HasAllSections, PushesAt, FilledState;
    KeptHolds(ss, es, a, m, m, j, idx, len);
    KeptBrings(ss, es, a, m, m, j, idx, len);
    PacketStep(ss, es, m, j, idx, Arrived(ss[0].fromBi, es, a, m, idx), len);
    ArrivedNext(ss[0].fromBi, es, a, m, idx);
    PacketRoute(ss, es, m, j, idx, len);
    RouteShape(ss, es, m);
    UnpushedStays(ss, es, m, j, idx, es[a].now);
  }

  lemma RouteShape(ss: seq<State>, es: seq<Event>, n: nat)
    requires IsRun(ss, es) && n < |es| && es[n].Recv?
    ensures Shape(RouteAt(ss, es, n).s)
  {
    hide IsRun, Parse, Route;
  }

  lemma OpeningStays(ss: seq<State>, es: seq<Event>, a: nat, j: nat, idx: u16, len: nat)
    requires IsRun(ss, es) && a < |es| && 0 < len
    requires OpenedAt(ss, es, a, j, idx, len) && Kept(ss, es, a, a, j, idx, len)
    requires es[a].Recv? && !HasAllSections(Arrived(ss[0].fromBi, es, a, a + 1, idx), len, MAX_SECS)
    ensures Keeps(ss[a + 1], j, idx, es[a].now)
  {
    hide IsRun, Parse, Inv, Route, Kept, Arrived, HasAllSections, PushesAt, FilledState;
    KeptOpening(ss, es, a, a, j, idx, len);
    ByteOrderFixed(ss, es, a);
    RouteShape(ss, es, a);
    UnpushedStays(ss, es, a, j, idx, es[a].now);
  }

  /** An undisturbed frame keeps its slot: nothing about slots is assumed, only about what arrives. */
  lemma {:induction false} UndisturbedIsKept(ss: seq<State>, es: seq<Event>, a: nat, n: nat, j: nat, idx: u16, len: nat)
    requires IsRun(ss, es) && a <= n < |es| && 0 < len && OpenedAt(ss, es, a, j, idx, len)
    requires es[a].Recv? && Undisturbed(ss, es, a, n, idx, len)
    ensures Kept(ss, es, a, n, j, idx, len)
    ensures a < n ==> Keeps(ss[n], j, idx, es[a].now)
    decreases n
  {
    hide *;
    if a < n {
      var m := n - 1;
      UndisturbedBefore(ss, es, a, n, idx, len);
      UndisturbedIsKept(ss, es, a, m, j, idx, len);
      UndisturbedAt(ss, es, a, m, idx, len);
      if a == m {
        OpeningStays(ss, es, a, j, idx, len);
      } else if IsPacketOf(ss[0].fromBi, es[m], idx) {
        PartStays(ss, es, a, m, j, idx, len);
      } else {
        OthersStay(ss, es, m, j, idx, es[a].now);
      }
      KeptLonger(ss, es, a, n, j, idx, len);
    } else {
      KeptAtOpening(ss, es, a, j, idx, len);
    }
  }

  lemma OthersStay(ss: seq<State>, es: seq<Event>, m: nat, j: nat, idx: u16, since: TimePoint)
    requires IsRun(ss, es) && m < |es| && Keeps(ss[m], j, idx, since) && !IsPacketOf(ss[0].fromBi, es[m], idx)
    requires es[m].Recv? ==> !StartsSession(ss[m], es[m].packet, es[m].now)
    requires es[m].Scan? ==> es[m].now - since <= REASSEMBLE_TIMEOUT
    requires |Indices(ss[0].fromBi, es, SessionStart(ss, es, m), m + 1)| <= 5
    ensures Keeps(ss[m + 1], j, idx, since)
  {
    hide IsRun, Parse, Inv, Route, Indices, StartsSession, IsPacketOf;
    RunInv(ss, es, m);
    if es[m].Recv? {
      FiveFramesFit(ss, es, m, j);
      RouteShape(ss, es, m);
      OtherPacketStays(ss, es, m, j, idx, since);
    } else {
      QuietStepKeeps(ss[m], es[m], j, idx, since);
    }
  }

  lemma KeptAtOpening(ss: seq<State>, es: seq<Event>, a: nat, j: nat, idx: u16, len: nat)
    requires IsRun(ss, es) && a < |es| && es[a].Recv? && Undisturbed(ss, es, a, a, idx, len)
    ensures Kept(ss, es, a, a, j, idx, len)
  {
    hide IsRun, Parse, Indices, SessionStart, CoversSection, Arrived, HasAllSections;
  }

  lemma KeptLonger(ss: seq<State>, es: seq<Event>, a: nat, n: nat, j: nat, idx: u16, len: nat)
    requires IsRun(ss, es) && a < n < |es| && es[a].Recv? && Undisturbed(ss, es, a, n, idx, len)
    requires Kept(ss, es, a, n - 1, j, idx, len) && Keeps(ss[n], j, idx, es[a].now)
    ensures Kept(ss, es, a, n, j, idx, len)
  {
    hide IsRun, Parse, Indices, SessionStart, CoversSection, Arrived, HasAllSections, StartsSession, IsAdmitted;
  }

  /** A frame is completed: let event a open a slot for a non-empty frame, and let nothing disturb it. Then
      a packet of the frame pushes it if and only if the packets so far bring all its sections. */
  lemma UndisturbedIsPushed(ss: seq<State>, es: seq<Event>, a: nat, n: nat, j: nat, idx: u16, len: nat)
    requires IsRun(ss, es) && a <= n < |es| && 0 < len && OpenedAt(ss, es, a, j, idx, len)
    requires es[a].Recv? && Undisturbed(ss, es, a, n, idx, len) && IsPacketOf(ss[0].fromBi, es[n], idx)
    ensures PushesAt(ss, es, n) <==> HasAllSections(Arrived(ss[0].fromBi, es, a, n + 1, idx), len, MAX_SECS)
    ensures PushesAt(ss, es, n) ==>
      PushedSlot(ss, es, n).frameIdx == idx && PushedSlot(ss, es, n).frame.DataLen() == len
  {
    hide *;
    UndisturbedIsKept(ss, es, a, n, j, idx, len);
    LastSectionPushes(ss, es, a, n, j, idx, len);
  }
}
