/** A frame that is sent arrives: cut into sections, which come in any order, repeated and padded,
    it is pushed at the first packet that leaves no section missing, byte for byte. */
module ReassemblyTransmission {
  import opened Common
  import opened PacketHeader
  import opened FramePool
  import opened VidRender
  import opened ReassemblyModel
  import opened ReassemblyInvariant
  import opened ReassemblyRun
  import opened ReassemblyHistory
  import opened ReassemblyDelivery
  import opened ReassemblyProgress

  const ACCEPTING := PushEnv(true, false, false, true, true)

  // One packet on its way: a section of the frame and what follows it.
  datatype Part = Part(sec: u16, padding: seq<u8>)

  datatype Frame = Frame(bi: bool, idx: u16, content: seq<u8>) {
    predicate Valid() { 0 < |content| <= SLOT_LEN }

    predicate IsPart(p: Part)
      requires Valid()
    {
      p.sec as int * MAX_PAYLOAD < |content| && SecSize(p.sec, |content|) + |p.padding| <= MAX_PAYLOAD
    }

    function Packet(p: Part): seq<u8>
      requires Valid() && IsPart(p)
    {
      Cut(bi, content, idx, p.sec, p.padding)
    }

    function Arrival(p: Part): Event
      requires Valid() && IsPart(p)
    {
      Recv(Packet(p), 0, 0, ACCEPTING)
    }

    predicate AreParts(parts: seq<Part>)
      requires Valid()
    {
      forall k | 0 <= k < |parts| :: IsPart(parts[k])
    }

    // Together the parts bring every section.
    ghost predicate CoveredBy(parts: seq<Part>) { HasAllSections(Secs(parts), |content|, MAX_SECS) }
  }

  ghost function Secs(parts: seq<Part>): set<nat> {
    if parts == [] then {} else Secs(parts[..|parts| - 1]) + {parts[|parts| - 1].sec as nat}
  }

  lemma PacketFacts(f: Frame, p: Part)
    requires f.Valid() && f.IsPart(p)
    ensures var packet := f.Packet(p); var h := Header(f.idx, p.sec, |f.content|);
      && HEADER_SIZE < |packet| <= MTU_LEN && Parse(f.bi, packet) == h && IsSectionOf(f.bi, packet, f.content)
      && p.sec < MAX_SECS && Offset(h) <= |f.content| && CoversSection(f.bi, packet, |f.content|)
  {
    hide Parse, IsSectionOf;
    SectionsFit(p.sec, |f.content|);
    CutIsSection(f.bi, f.content, f.idx, p.sec, p.padding);
  }

  // ---------------------------------------------------------------------------------------
  // While the frame is being assembled in slot j

  ghost predicate Assembling(s: State, f: Frame, j: nat) {
    && OccupiedAt(s, j) && Inv(s) && s.fromBi == f.bi
    && s.slots[j].frameIdx == f.idx && s.slots[j].frame.DataLen() == |f.content|
    && s.synced && s.lastSynced == 0 && s.lastPushed == Pred(f.idx) && s.inFlight == []
  }

  lemma JustBefore(idx: u16)
    ensures Diff(idx, Pred(idx)) == 1
  {
  }

  lemma PartRoute(s: State, f: Frame, p: Part, j: nat)
    requires f.Valid() && f.IsPart(p) && Assembling(s, f, j)
    ensures Route(s, f.Packet(p), 0, 0) == Ready(s, j)
    ensures IsAdmitted(s, f.Packet(p), 0) && !StartsSession(s, f.Packet(p), 0)
    ensures Enabled(s, f.Arrival(p))
  {
    PacketFacts(f, p);
    JustBefore(f.idx);
    assert Matches(s.slots, f.idx, j);
    assert forall k | Matches(s.slots, f.idx, k) :: k == j;
    hide Inv, Parse, Cut, Diff, CoversSection, IsSectionOf;
    assert Chosen(s.slots, f.idx) == j;
  }

  // A packet that does not complete the frame leaves it being assembled.
  lemma PartStep(s: State, f: Frame, p: Part, r: Routed, j: nat)
    requires f.Valid() && f.IsPart(p) && Inv(s) && Enabled(s, f.Arrival(p))
    requires r == Route(s, f.Packet(p), 0, 0) && r.Ready? && r.j == j && Assembling(r.s, f, j) && s.fromBi == f.bi
    requires !Completes(s.fromBi, f.Packet(p), r)
    ensures Assembling(Step(s, f.Arrival(p)), f, j)
  {
    StepInv(s, f.Arrival(p));
    hide Inv, Parse, Cut, Route, SectionOk;
  }

  // ---------------------------------------------------------------------------------------
  // The first packet

  lemma LocateFields(s: State, h: Header, now: TimePoint, pick: nat)
    requires |s.slots| == MAX_SLOTS
    ensures var t := Locate(s, h, now, pick).s;
      t.synced == s.synced && t.lastSynced == s.lastSynced && t.lastPushed == s.lastPushed && t.fromBi == s.fromBi
  {
  }

  lemma OpeningRoute(s: State, f: Frame, p: Part) returns (j: nat)
    requires f.Valid() && f.IsPart(p) && Initial(s) && s.fromBi == f.bi
    ensures |s.slots| == MAX_SLOTS && Enabled(s, f.Arrival(p))
    ensures var r := Route(s, f.Packet(p), 0, 0);
      r.Ready? && r.j == j && Fresh(r.s.slots[j], Header(f.idx, p.sec, |f.content|), 0) && Assembling(r.s, f, j)
  {
    PacketFacts(f, p);
    InitialInv(s);
    FirstPacketOpens(s, f.Packet(p), 0, 0);
    RouteInv(s, f.Packet(p), 0, 0);
    var r := Route(s, f.Packet(p), 0, 0);
    j := r.j;
    OpeningFields(s, f, p);
    hide Inv, Parse, Cut, Route, Initial, CoversSection, IsSectionOf;
  }

  lemma OpeningFields(s: State, f: Frame, p: Part)
    requires f.Valid() && f.IsPart(p) && Initial(s) && s.fromBi == f.bi
    ensures var r := Route(s, f.Packet(p), 0, 0);
      r.s.synced && r.s.lastSynced == 0 && r.s.lastPushed == Pred(f.idx) && r.s.fromBi == f.bi
  {
    PacketFacts(f, p);
    InitialInv(s);
    AdmitInv(Expire(s, 0), f.idx, 0);
    LocateFields(Admit(Expire(s, 0), f.idx, 0), Header(f.idx, p.sec, |f.content|), 0, 0);
    hide Inv, Parse, Cut, Locate, ClearFrom, CoversSection, IsSectionOf;
  }

  // ---------------------------------------------------------------------------------------
  // The run

  // The first part opens slot j for the frame.
  ghost predicate OpensFrame(s: State, f: Frame, p: Part, j: nat)
    requires f.Valid() && f.IsPart(p) && |s.slots| == MAX_SLOTS
  {
    var r := Route(s, f.Packet(p), 0, 0);
    r.Ready? && r.j == j && Assembling(r.s, f, j) && Fresh(r.s.slots[j], Header(f.idx, p.sec, |f.content|), 0)
  }

  // The run that receives the parts, one after the other, and assembles them in slot j; the last
  // one may have completed the frame.
  ghost predicate Sent(ss: seq<State>, es: seq<Event>, f: Frame, parts: seq<Part>, j: nat)
    requires f.Valid() && f.AreParts(parts) && parts != []
  {
    && IsRun(ss, es) && |es| == |parts| && ss[0].fromBi == f.bi && |ss[0].slots| == MAX_SLOTS && ss[0].inFlight == []
    && (forall k | 0 <= k < |parts| :: es[k] == f.Arrival(parts[k]))
    && OpensFrame(ss[0], f, parts[0], j)
    && (forall i | 0 < i < |parts| :: Assembling(ss[i], f, j))
  }

  lemma SentRoute(ss: seq<State>, es: seq<Event>, f: Frame, parts: seq<Part>, j: nat, i: nat)
    requires f.Valid() && f.AreParts(parts) && parts != [] && Sent(ss, es, f, parts, j) && i < |parts|
    ensures Inv(ss[i]) && Enabled(ss[i], es[i]) && ss[i + 1] == Step(ss[i], es[i]) && ss[i].fromBi == f.bi
    ensures es[i] == f.Arrival(parts[i])
    ensures var r := Route(ss[i], f.Packet(parts[i]), 0, 0); r.Ready? && r.j == j && Assembling(r.s, f, j)
    ensures 0 < i ==>
      !StartsSession(ss[i], es[i].packet, 0) && IsAdmitted(ss[i], es[i].packet, 0) && Assembling(ss[i], f, j)
  {
    RunInv(ss, es, i);
    hide Inv, Parse, Cut, Route, Enabled, Step, IsRun, SectionOk, IsAdmitted, StartsSession;
    if 0 < i {
      hide Assembling;
      PartRoute(ss[i], f, parts[i], j);
      AssemblingFrom(ss[i], f, j);
    }
  }

  lemma AssemblingFrom(s: State, f: Frame, j: nat)
    requires Assembling(s, f, j)
    ensures s.fromBi == f.bi && OccupiedAt(s, j) && s.slots[j].frameIdx == f.idx
  {
  }

  lemma SentKept(ss: seq<State>, es: seq<Event>, f: Frame, parts: seq<Part>, j: nat)
    requires f.Valid() && f.AreParts(parts) && parts != [] && Sent(ss, es, f, parts, j)
    ensures IsRun(ss, es) && OpenedAt(ss, es, 0, j, f.idx, |f.content|)
    ensures Kept(ss, es, 0, |parts| - 1, j, f.idx, |f.content|)
  {
    forall i: nat | i < |parts|
      ensures IsPacketOf(f.bi, es[i], f.idx) && CoversSection(f.bi, es[i].packet, |f.content|)
      ensures 0 < i ==>
        && OccupiedAt(ss[i], j) && ss[i].slots[j].frameIdx == f.idx
        && !StartsSession(ss[i], es[i].packet, es[i].now) && IsAdmitted(ss[i], es[i].packet, es[i].now)
    {
      SentRoute(ss, es, f, parts, j, i);
      PacketFacts(f, parts[i]);
      hide Inv, Parse, Cut, Route, Enabled, Step, IsRun, Sent, CoversSection, IsSectionOf, StartsSession, IsAdmitted;
      if 0 < i { AssemblingFrom(ss[i], f, j); }
    }
    PacketFacts(f, parts[0]);
    OpensFirst(ss, es, f, parts, j);
    hide Inv, Parse, Cut, Route, Enabled, Step, IsRun, Sent;
    hide CoversSection, IsSectionOf, StartsSession, IsAdmitted, OpenedAt;
  }

  lemma OpensFirst(ss: seq<State>, es: seq<Event>, f: Frame, parts: seq<Part>, j: nat)
    requires f.Valid() && f.AreParts(parts) && parts != [] && Sent(ss, es, f, parts, j)
    ensures IsRun(ss, es) && ss[0].fromBi == f.bi && |es| == |parts| && OpenedAt(ss, es, 0, j, f.idx, |f.content|)
  {
    PacketFacts(f, parts[0]);
    SentRoute(ss, es, f, parts, j, 0);
    hide Inv, Parse, Cut, Route, Enabled, Step, IsRun, CoversSection, IsSectionOf, Assembling;
  }

  lemma {:induction false} SentArrived(es: seq<Event>, f: Frame, parts: seq<Part>, k: nat)
    requires f.Valid() && f.AreParts(parts) && |es| == |parts| && k <= |parts|
    requires forall i | 0 <= i < |parts| :: es[i] == f.Arrival(parts[i])
    ensures Arrived(f.bi, es, 0, k, f.idx) == Secs(parts[..k])
  {
    if k > 0 {
      SentArrived(es, f, parts, k - 1);
      PacketFacts(f, parts[k - 1]);
      assert parts[..k][..k - 1] == parts[..k - 1];
      hide Parse, Cut, CoversSection, IsSectionOf;
    }
  }

  // The last part pushes the frame exactly if no section is missing.
  lemma SentPushes(ss: seq<State>, es: seq<Event>, f: Frame, parts: seq<Part>, j: nat, n: nat)
    requires IsRun(ss, es) && n + 1 == |es| == |parts|
    requires f.Valid() && f.AreParts(parts) && Sent(ss, es, f, parts, j)
    ensures PushesAt(ss, es, n) <==> f.CoveredBy(parts)
    ensures PushesAt(ss, es, n) ==> PushedSlot(ss, es, n).frame.DataLen() == |f.content|
  {
    PacketFacts(f, parts[n]);
    OpensFirst(ss, es, f, parts, j);
    SentKept(ss, es, f, parts, j);
    SentArrived(es, f, parts, n + 1);
    assert parts[..n + 1] == parts;
    assert es[n] == f.Arrival(parts[n]);
    hide Parse, Cut, Sent, IsRun, Kept, OpenedAt, CoversSection, IsSectionOf, PushesAt, PushedSlot;
    LastSectionPushes(ss, es, 0, n, j, f.idx, |f.content|);
  }

  lemma SentOn(ss: seq<State>, es: seq<Event>, f: Frame, parts: seq<Part>, j: nat)
    requires f.Valid() && f.AreParts(parts) && parts != [] && Sent(ss, es, f, parts, j) && !f.CoveredBy(parts)
    ensures |es| == |parts| == |ss| - 1 && Assembling(ss[|parts|], f, j)
  {
    var n := |parts| - 1;
    SentIsRun(ss, es, f, parts, j);
    SentPushes(ss, es, f, parts, j, n);
    SentRoute(ss, es, f, parts, j, n);
    hide Inv, Parse, Cut, Sent, IsRun, Enabled, Step, Completes, Route, Assembling;
    PartStep(ss[n], f, parts[n], Route(ss[n], f.Packet(parts[n]), 0, 0), j);
  }

  lemma FirstSent(s: State, f: Frame, p: Part) returns (ss: seq<State>, es: seq<Event>, j: nat)
    requires f.Valid() && f.IsPart(p) && Initial(s) && s.fromBi == f.bi
    ensures Sent(ss, es, f, [p], j) && ss[0] == s
  {
    InitialInv(s);
    j := OpeningRoute(s, f, p);
    var t := Step(s, f.Arrival(p));
    assert IsRun([s], []);
    assert IsStep(s, f.Arrival(p), t);
    hide Inv, Parse, Cut, IsRun, Enabled, Step, Route, Assembling, Initial;
    RunGrows([s], [], f.Arrival(p), t);
    ss, es := [s] + [t], [] + [f.Arrival(p)];
  }

  lemma NextStep(s: State, f: Frame, p: Part, j: nat)
    requires f.Valid() && f.IsPart(p) && Assembling(s, f, j)
    ensures Inv(s) && Enabled(s, f.Arrival(p)) && IsStep(s, f.Arrival(p), Step(s, f.Arrival(p)))
  {
    PartRoute(s, f, p, j);
    hide Parse, Cut, Route, Enabled, Step, Inv;
  }

  lemma SentExtends(ss: seq<State>, es: seq<Event>, f: Frame, parts: seq<Part>, j: nat, p: Part, t: State)
    requires f.Valid() && f.AreParts(parts) && parts != [] && f.IsPart(p) && Sent(ss, es, f, parts, j)
    requires |ss| == |es| + 1 == |parts| + 1 && Assembling(ss[|parts|], f, j) && IsRun(ss + [t], es + [f.Arrival(p)])
    ensures Sent(ss + [t], es + [f.Arrival(p)], f, parts + [p], j)
  {
    hide Inv, Parse, Cut, IsRun, Route, Assembling, Fresh;
    assert (ss + [t])[0] == ss[0] && (parts + [p])[0] == parts[0];
  }

  lemma NextSent(ss: seq<State>, es: seq<Event>, f: Frame, parts: seq<Part>, j: nat, p: Part)
    returns (ss': seq<State>, es': seq<Event>)
    requires f.Valid() && f.AreParts(parts) && parts != [] && f.IsPart(p)
    requires Sent(ss, es, f, parts, j) && !f.CoveredBy(parts)
    ensures ss != [] && Sent(ss', es', f, parts + [p], j) && ss'[0] == ss[0]
  {
    SentIsRun(ss, es, f, parts, j);
    hide Inv, Parse, Cut, IsRun, Enabled, Step, Route, Assembling, Sent, IsStep, Secs;
    SentOn(ss, es, f, parts, j);
    NextStep(ss[|parts|], f, p, j);
    var t := Step(ss[|parts|], f.Arrival(p));
    RunGrows(ss, es, f.Arrival(p), t);
    SentExtends(ss, es, f, parts, j, p, t);
    ss', es' := ss + [t], es + [f.Arrival(p)];
  }

  lemma SentIsRun(ss: seq<State>, es: seq<Event>, f: Frame, parts: seq<Part>, j: nat)
    requires f.Valid() && f.AreParts(parts) && parts != [] && Sent(ss, es, f, parts, j)
    ensures IsRun(ss, es) && |es| == |parts| && |ss| == |parts| + 1 && ss[0].fromBi == f.bi
    ensures forall k | 0 <= k < |parts| :: es[k] == f.Arrival(parts[k])
    ensures forall k | 0 <= k < |parts| :: ss[k].inFlight == []
    ensures forall k | 0 <= k < |parts| :: |es[k].packet| >= HEADER_SIZE && IsSectionOf(f.bi, es[k].packet, f.content)
  {
    hide Inv, Parse, Cut, Route, IsSectionOf, IsRun;
    forall k | 0 <= k < |parts| ensures |es[k].packet| >= HEADER_SIZE && IsSectionOf(f.bi, es[k].packet, f.content) {
      PacketFacts(f, parts[k]);
    }
  }

  lemma {:induction false} Transmit(s: State, f: Frame, parts: seq<Part>)
    returns (ss: seq<State>, es: seq<Event>, j: nat)
    requires f.Valid() && f.AreParts(parts) && parts != [] && Initial(s) && s.fromBi == f.bi
    requires forall k | 0 < k < |parts| :: !f.CoveredBy(parts[..k])
    ensures Sent(ss, es, f, parts, j) && ss[0] == s
    decreases |parts|
  {
    hide Sent, Initial, Secs;
    var n := |parts| - 1;
    if n == 0 {
      assert parts == [parts[0]];
      ss, es, j := FirstSent(s, f, parts[0]);
    } else {
      forall k | 0 < k < n ensures parts[..n][..k] == parts[..k] {
      }
      ss, es, j := Transmit(s, f, parts[..n]);
      ss, es := NextSent(ss, es, f, parts[..n], j, parts[n]);
      assert parts[..n] + [parts[n]] == parts;
    }
  }

  // The buffer of h holds the given bytes.
  ghost predicate Contains(s: State, h: FrameData, content: seq<u8>) {
    h.IsValid() && Shape(s) && h.frameLen == |content| <= SLOT_LEN && s.mem[h.idx][..h.frameLen] == content
  }

  lemma PushedContains(ss: seq<State>, es: seq<Event>, n: nat, content: seq<u8>)
    requires IsRun(ss, es) && n < |es| && PushesAt(ss, es, n) && ss[n].inFlight == [] && es[n].env == ACCEPTING
    requires forall k | 0 <= k <= n && IsPacketOf(ss[0].fromBi, es[k], PushedSlot(ss, es, n).frameIdx) ::
      IsSectionOf(ss[0].fromBi, es[k].packet, content)
    requires 0 < |content| && PushedSlot(ss, es, n).frame.DataLen() == |content|
    ensures ss[n + 1].inFlight == [PushedSlot(ss, es, n).frame]
    ensures Contains(ss[n + 1], PushedSlot(ss, es, n).frame, content)
  {
    hide Parse, IsRun, PushesAt, IsSectionOf, SessionStart, PushedSlot;
    var o := EndToEnd(ss, es, n);
    assert CutFrom(ss[0].fromBi, es, o, n, PushedSlot(ss, es, n).frameIdx, content);
    PushedSlotFacts(ss, es, n);
  }

  /** A frame that is sent arrives. Take any frame of 1 byte to 2 MiB and any sequence of packets cut
      from it, in any order, repeated and padded, whose last packet is the first to leave no section
      missing. From the initial state there is a run that receives them; up to the last packet it
      pushes nothing, and after it the pipeline holds one buffer, with the frame's bytes. */
  lemma FrameArrives(s: State, f: Frame, parts: seq<Part>) returns (ss: seq<State>, es: seq<Event>, h: FrameData)
    requires f.Valid() && f.AreParts(parts) && parts != [] && Initial(s) && s.fromBi == f.bi
    requires f.CoveredBy(parts) && forall k | 0 < k < |parts| :: !f.CoveredBy(parts[..k])
    ensures IsRun(ss, es) && ss[0] == s && |es| == |parts|
    ensures forall k | 0 <= k < |parts| :: es[k] == f.Arrival(parts[k]) && ss[k].inFlight == []
    ensures ss[|parts|].inFlight == [h] && Contains(ss[|parts|], h, f.content)
  {
    hide Parse, IsRun, Sent, PushesAt, IsSectionOf, PushedSlot, Initial, Secs, Cut, Contains;
    var j;
    ss, es, j := Transmit(s, f, parts);
    SentIsRun(ss, es, f, parts, j);
    SentPushes(ss, es, f, parts, j, |parts| - 1);
    PushedContains(ss, es, |parts| - 1, f.content);
    h := PushedSlot(ss, es, |parts| - 1).frame;
  }
}
