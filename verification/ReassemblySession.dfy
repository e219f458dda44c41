/** When sessions start and which packets are admitted, over whole runs: said by what was received and
    when, and by the distance of an index from the last pushed one. */
module ReassemblySession {
  import opened Common
  import opened PacketHeader
  import opened FramePool
  import opened VidRender
  import opened ReassemblyModel
  import opened ReassemblyInvariant
  import opened ReassemblyRun
  import opened ReassemblyHistory

  // How far an index is behind another, going round at 65536.
  function Behind(idx: u16, last: u16): int { (last - idx) % 65536 }

  // A packet with a whole header, of a frame of at most 2 MiB.
  predicate IsLegal(bi: bool, e: Event) {
    e.Recv? && |e.packet| >= 8 && Parse(bi, e.packet).frameLen <= 2_097_152
  }

  // One of the events up to k came more than 1000 ms after event a, by its clock reading.
  ghost predicate LapsedSince(es: seq<Event>, a: nat, n: nat)
    requires a < n <= |es| && es[a].Recv?
  {
    exists k | a < k < n :: IsLate(es[k], es[a].now)
  }

  predicate IsLate(e: Event, since: TimePoint) {
    (e.Recv? || e.Scan?) && e.now - since > 1_000_000_000
  }

  // The last packet admitted before event n.
  ghost function LastAdmitted(ss: seq<State>, es: seq<Event>, n: nat): (a: Option<nat>)
    requires n <= |es| < |ss|
    ensures a.Some? ==> a.value < n && es[a.value].Recv?
    decreases n, 0
  {
    if n == 0 then None
    else if Admitted(ss, es, n - 1) then Some(n - 1)
    else LastAdmitted(ss, es, n - 1)
  }

  /** Event n is a legal packet and no ordinary duplicate or late one: there is no session to compare it
      with, or its index is not 0 to 180 behind the last pushed one. */
  ghost predicate Admitted(ss: seq<State>, es: seq<Event>, n: nat)
    requires n < |es| < |ss|
    decreases n, 1
  {
    var a := LastAdmitted(ss, es, n);
    && IsLegal(ss[0].fromBi, es[n])
    && (a.None? || LapsedSince(es, a.value, n + 1)
        || Behind(Parse(ss[0].fromBi, es[n].packet).frameIdx, ss[n].lastPushed) > 180)
  }

  // The session state is what the events say.
  ghost predicate SyncOk(ss: seq<State>, es: seq<Event>, n: nat)
    requires n <= |es| < |ss|
  {
    var a := LastAdmitted(ss, es, n);
    && (ss[n].synced <==> a.Some? && !LapsedSince(es, a.value, n))
    && (a.Some? ==> ss[n].lastSynced == es[a.value].now)
  }

  lemma DiffBehind(idx: u16, last: u16)
    ensures Diff(idx, last) < MIN_IDX_DIFF <==> 181 <= Behind(idx, last) <= 32768
    ensures MIN_IDX_DIFF <= Diff(idx, last) <= 0 <==> Behind(idx, last) <= 180
  {
    var b := Behind(idx, last);
    assert (idx - last) % 65536 == if b == 0 then 0 else 65536 - b;
  }

  // Expiry, by the events.
  lemma LapsedMore(es: seq<Event>, a: nat, n: nat)
    requires a < n < |es| && es[a].Recv?
    ensures LapsedSince(es, a, n + 1) <==> LapsedSince(es, a, n) || IsLate(es[n], es[a].now)
  {
  }

  lemma ExpireByEvents(ss: seq<State>, es: seq<Event>, n: nat)
    requires n < |es| < |ss| && SyncOk(ss, es, n) && (es[n].Recv? || es[n].Scan?)
    ensures var a := LastAdmitted(ss, es, n);
      Expire(ss[n], es[n].now).synced <==> a.Some? && !LapsedSince(es, a.value, n + 1)
  {
    hide LastAdmitted;
    var a := LastAdmitted(ss, es, n);
    if a.Some? { LapsedMore(es, a.value, n); }
  }

  // What routing decides, by the events.
  lemma RouteByEvents(ss: seq<State>, es: seq<Event>, n: nat)
    requires n < |es| < |ss| && SyncOk(ss, es, n) && es[n].Recv? && ss[n].fromBi == ss[0].fromBi
    ensures IsAdmitted(ss[n], es[n].packet, es[n].now) <==> Admitted(ss, es, n)
    ensures StartsSession(ss[n], es[n].packet, es[n].now) <==> SessionStarts(ss, es, n)
  {
    ExpireByEvents(ss, es, n);
    if |es[n].packet| >= HEADER_SIZE {
      DiffBehind(Parse(ss[0].fromBi, es[n].packet).frameIdx, ss[n].lastPushed);
    }
    hide Parse, LastAdmitted, LapsedSince, Diff;
  }

  /** Event n starts a session: a legal packet that is the first one admitted, or comes when a clock
      reading, its own included, has been more than 1000 ms after the last admitted one, or whose index
      is 181 to 32768 behind the last pushed one. */
  ghost predicate SessionStarts(ss: seq<State>, es: seq<Event>, n: nat)
    requires n < |es| < |ss|
  {
    var a := LastAdmitted(ss, es, n);
    && IsLegal(ss[0].fromBi, es[n])
    && (a.None? || LapsedSince(es, a.value, n + 1)
        || 181 <= Behind(Parse(ss[0].fromBi, es[n].packet).frameIdx, ss[n].lastPushed) <= 32768)
  }

  // ---------------------------------------------------------------------------------------
  // The session fields of a step

  lemma {:induction false} ClearFromFields(s: State, j: nat)
    requires j <= |s.slots|
    ensures var t := ClearFrom(s, j); t.synced == s.synced && t.lastSynced == s.lastSynced
    decreases |s.slots| - j
  {
    if j < |s.slots| { ClearFromFields(ClearSlot(s, j), j + 1); }
  }

  lemma {:induction false} ScanFromFields(s: State, j: nat, now: TimePoint, envs: seq<PushEnv>)
    requires j <= |s.slots| == |envs|
    ensures var t := ScanFrom(s, j, now, envs); t.synced == s.synced && t.lastSynced == s.lastSynced
    decreases |s.slots| - j
  {
    if j < |s.slots| { ScanFromFields(ScanSlot(s, j, now, envs[j]), j + 1, now, envs); }
  }

  lemma RouteFields(s: State, packet: seq<u8>, now: TimePoint, pick: nat)
    requires |s.slots| == MAX_SLOTS
    ensures var t := Route(s, packet, now, pick).s;
      if IsAdmitted(s, packet, now) then t.synced && t.lastSynced == now
      else t.synced == Expire(s, now).synced && t.lastSynced == s.lastSynced
  {
    hide Parse, Diff, ClearFrom, Chosen;
    ClearFromFields(Expire(s, now), 0);
  }

  lemma RecvFields(ss: seq<State>, es: seq<Event>, n: nat)
    requires IsRun(ss, es) && n < |es| && es[n].Recv?
    ensures if IsAdmitted(ss[n], es[n].packet, es[n].now) then ss[n + 1].synced && ss[n + 1].lastSynced == es[n].now
            else ss[n + 1].synced == Expire(ss[n], es[n].now).synced && ss[n + 1].lastSynced == ss[n].lastSynced
  {
    hide IsRun, Parse, Inv, Route, IsAdmitted, Expire;
    var r := RouteAt(ss, es, n);
    RouteFields(ss[n], es[n].packet, es[n].now, es[n].pick);
  }

  lemma OtherFields(s: State, e: Event)
    requires Inv(s) && Enabled(s, e) && !e.Recv?
    ensures Step(s, e).lastSynced == s.lastSynced
    ensures Step(s, e).synced == if e.Scan? then Expire(s, e.now).synced else s.synced
  {
    if e.Scan? { ScanFromFields(Expire(s, e.now), 0, e.now, e.envs); }
    hide Inv, ScanFrom;
  }

  lemma {:induction false} SyncInRun(ss: seq<State>, es: seq<Event>, n: nat)
    requires IsRun(ss, es) && n <= |es|
    ensures SyncOk(ss, es, n)
  {
    hide IsRun, Inv, Enabled, Step, Expire, IsAdmitted, StartsSession, SyncOk, Admitted;
    if n == 0 {
      SyncAtStart(ss, es);
    } else {
      var m := n - 1;
      SyncInRun(ss, es, m);
      RunInv(ss, es, m);
      ByteOrderFixed(ss, es, m);
      if es[m].Recv? {
        RouteByEvents(ss, es, m);
        RecvFields(ss, es, m);
      } else {
        OtherFields(ss[m], es[m]);
        OnlyPackets(ss, es, m);
      }
      if es[m].Recv? || es[m].Scan? { ExpireByEvents(ss, es, m); }
      SyncNext(ss, es, m);
    }
  }

  lemma OnlyPackets(ss: seq<State>, es: seq<Event>, n: nat)
    requires n < |es| < |ss|
    ensures Admitted(ss, es, n) ==> es[n].Recv?
  {
  }

  lemma SyncAtStart(ss: seq<State>, es: seq<Event>)
    requires IsRun(ss, es)
    ensures SyncOk(ss, es, 0)
  {
  }

  lemma SyncNext(ss: seq<State>, es: seq<Event>, m: nat)
    requires m < |es| < |ss| && SyncOk(ss, es, m)
    requires Admitted(ss, es, m) ==> es[m].Recv? && ss[m + 1].synced && ss[m + 1].lastSynced == es[m].now
    requires !Admitted(ss, es, m) ==> ss[m + 1].lastSynced == ss[m].lastSynced
    requires !Admitted(ss, es, m) && (es[m].Recv? || es[m].Scan?) ==>
      (ss[m + 1].synced <==>
         LastAdmitted(ss, es, m).Some? && !LapsedSince(es, LastAdmitted(ss, es, m).value, m + 1))
    requires !Admitted(ss, es, m) && !es[m].Recv? && !es[m].Scan? ==> ss[m + 1].synced == ss[m].synced
    ensures SyncOk(ss, es, m + 1)
  {
    hide Admitted;
    var a := LastAdmitted(ss, es, m);
    if a.Some? { LapsedMore(es, a.value, m); }
  }

  /** When a session starts: over every run a packet starts one if and only if the events say so, and is
      admitted if and only if they do. */
  lemma SessionStartsIff(ss: seq<State>, es: seq<Event>, n: nat)
    requires IsRun(ss, es) && n < |es| && es[n].Recv?
    ensures StartsSession(ss[n], es[n].packet, es[n].now) <==> SessionStarts(ss, es, n)
    ensures IsAdmitted(ss[n], es[n].packet, es[n].now) <==> Admitted(ss, es, n)
  {
    SyncInRun(ss, es, n);
    ByteOrderFixed(ss, es, n);
    hide IsRun;
    RouteByEvents(ss, es, n);
  }
}
