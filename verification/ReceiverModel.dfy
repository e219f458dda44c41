/** The receive loop that drives the reassembler: a slot scan when the last one is more than 5 ms
    ago, then one blocking receive. */
module ReceiverModel {
  import opened Common
  import opened PacketHeader
  import opened VidRender
  import R = ReassemblyModel
  import I = ReassemblyInvariant
  import Run = ReassemblyRun

  const SCAN_PERIOD: int := 5 * MS
  const NO_MEMORY_LIMIT: int := 5
  const RECV_TIMEOUT: int := 50 * MS  // kRecvTimeout, set as SO_RCVTIMEO

  // What recv() returns: a datagram, an empty one, or an error.
  datatype RecvResult =
    | Packet(bytes: seq<u8>) | Empty | TimedOut | NoMemory | Interrupted | Unreachable | Fatal

  datatype Phase = Top | Receiving | Stopped
  datatype State = State(
    r: R.State, lastScan: TimePoint, noMemory: nat, clock: TimePoint, phase: Phase)

  ghost predicate Initial(s: State) {
    R.Initial(s.r) && s.lastScan == s.clock && s.noMemory == 0 && s.phase == Top
  }

  datatype Event =
    | Turn(now: TimePoint, scanNow: TimePoint, envs: seq<PushEnv>)  // the loop's clock, the scan's own
    | Receive(result: RecvResult, now: TimePoint, pick: nat, env: PushEnv)
    | Background(e: Run.Event)  // the pipeline frees a buffer, the user sets the option
    | Stop

  predicate Scans(s: State, e: Event) { e.Turn? && e.now - s.lastScan > SCAN_PERIOD }

  /** What the event asks of the reassembler, if anything. */
  function Request(s: State, e: Event): Option<Run.Event> {
    match e
    case Turn(now, scanNow, envs) => if Scans(s, e) then Some(Run.Scan(scanNow, envs)) else None
    case Receive(result, now, pick, env) =>
      if result.Packet? then Some(Run.Recv(result.bytes, now, pick, env)) else None
    case Background(b) => Some(b)
    case Stop => None
  }

  /** The clock does not go back; a receive returns within its timeout and brings at most the
      buffer's 1400 bytes; the requests meet what the reassembler asks of its callers. */
  ghost predicate Enabled(s: State, e: Event)
    requires |s.r.slots| == R.MAX_SLOTS
  {
    && (Request(s, e).Some? ==> Run.Enabled(s.r, Request(s, e).value))
    && match e
       case Turn(now, scanNow, envs) => s.phase.Top? && s.clock <= now <= scanNow
       case Receive(result, now, _, _) =>
         && s.phase.Receiving? && s.clock <= now <= s.clock + RECV_TIMEOUT
         && (result.Packet? ==> 0 < |result.bytes| <= MTU_LEN)
       case Background(b) => b.Release? || b.Allow?
       case Stop => s.phase.Top?
  }

  function AfterReceive(s: State, result: RecvResult): State {
    match result
    case Packet(_) => s.(noMemory := 0, phase := Top)
    case Empty => s.(noMemory := 0, phase := Top)
    case NoMemory =>
      s.(noMemory := s.noMemory + 1, phase := if s.noMemory + 1 > NO_MEMORY_LIMIT then Stopped else Top)
    case Fatal => s.(phase := Stopped)
    case _ => s.(phase := Top)
  }

  // The reassembler's part of a step.
  ghost function Serve(s: State, e: Event): State
    requires I.Inv(s.r) && Enabled(s, e)
  {
    if Request(s, e).Some? then s.(r := Run.Step(s.r, Request(s, e).value)) else s
  }

  ghost function Step(s: State, e: Event): State
    requires I.Inv(s.r) && Enabled(s, e)
  {
    var t := Serve(s, e);
    match e
    case Turn(now, scanNow, _) =>
      if Scans(s, e) then t.(lastScan := now, clock := scanNow, phase := Receiving)
      else t.(clock := now, phase := Receiving)
    case Receive(result, now, _, _) => AfterReceive(t.(clock := now), result)
    case Background(_) => t
    case Stop => t.(phase := Stopped)
  }

  ghost predicate IsStep(s: State, e: Event, t: State) {
    I.Inv(s.r) ==> Enabled(s, e) && t == Step(s, e)
  }

  ghost predicate IsRun(ss: seq<State>, es: seq<Event>)
    ensures IsRun(ss, es) ==> |ss| == |es| + 1
  {
    && |ss| == |es| + 1
    && Initial(ss[0])
    && forall n | 0 <= n < |es| :: IsStep(ss[n], es[n], ss[n + 1])
  }

  // ---------------------------------------------------------------------------------------
  // Every run of the loop is a run of the reassembler

  lemma ServeInv(s: State, e: Event)
    requires I.Inv(s.r) && Enabled(s, e)
    ensures I.Inv(Step(s, e).r)
    ensures Step(s, e).r == if Request(s, e).Some? then Run.Step(s.r, Request(s, e).value) else s.r
  {
    hide I.Inv, Run.Step, Run.Enabled;
    if Request(s, e).Some? {
      Run.StepInv(s.r, Request(s, e).value);
    }
  }

  lemma {:induction false} RunInv(ss: seq<State>, es: seq<Event>, n: nat)
    requires IsRun(ss, es) && n <= |es|
    ensures I.Inv(ss[n].r)
    ensures n < |es| ==> Enabled(ss[n], es[n]) && ss[n + 1] == Step(ss[n], es[n])
  {
    hide I.Inv, Enabled, Step;
    if n == 0 {
      I.InitialInv(ss[0].r);
    } else {
      RunInv(ss, es, n - 1);
      ServeInv(ss[n - 1], es[n - 1]);
    }
    assert n < |es| ==> IsStep(ss[n], es[n], ss[n + 1]);
  }

  // The loop's clock reading at its last scan; `start` is the one before the loop.
  function LastScan(start: TimePoint, es: seq<Event>, n: nat): TimePoint
    requires n <= |es|
    decreases n, 0
  {
    if n == 0 then start else if ScansAt(start, es, n - 1) then es[n - 1].now else LastScan(start, es, n - 1)
  }

  // Event n is a turn that comes more than 5 ms after the last scan.
  predicate ScansAt(start: TimePoint, es: seq<Event>, n: nat)
    requires n < |es|
    decreases n, 1
  {
    es[n].Turn? && es[n].now - LastScan(start, es, n) > 5_000_000
  }

  /** What the events ask of the reassembler, in order: a scan at each turn more than 5 ms after the last,
      every packet that is received, with its reading, and what happens in the background. */
  function Asked(start: TimePoint, es: seq<Event>, n: nat): seq<Run.Event>
    requires n <= |es|
  {
    if n == 0 then []
    else
      var before, e := Asked(start, es, n - 1), es[n - 1];
      if ScansAt(start, es, n - 1) then before + [Run.Scan(e.scanNow, e.envs)]
      else if e.Receive? && e.result.Packet? then before + [Run.Recv(e.result.bytes, e.now, e.pick, e.env)]
      else if e.Background? then before + [e.e]
      else before
  }

  // The packets among the events, of the loop and of the reassembler, with their readings.
  function Received(es: seq<Event>, n: nat): seq<(seq<u8>, TimePoint)>
    requires n <= |es|
  {
    if n == 0 then []
    else
      Received(es, n - 1) +
      if es[n - 1].Receive? && es[n - 1].result.Packet? then [(es[n - 1].result.bytes, es[n - 1].now)] else []
  }

  function Packets(res: seq<Run.Event>): seq<(seq<u8>, TimePoint)> {
    if res == [] then []
    else
      var e := res[|res| - 1];
      Packets(res[..|res| - 1]) + if e.Recv? then [(e.packet, e.now)] else []
  }

  lemma OneMorePacket(res: seq<Run.Event>, e: Run.Event)
    ensures Packets(res + [e]) == if e.Recv? then Packets(res) + [(e.packet, e.now)] else Packets(res)
  {
    assert (res + [e])[..|res|] == res;
  }

  lemma {:induction false} AskedPackets(start: TimePoint, es: seq<Event>, n: nat)
    requires n <= |es| && forall k | 0 <= k < n && es[k].Background? :: !es[k].e.Recv?
    ensures Packets(Asked(start, es, n)) == Received(es, n)
  {
    if n > 0 {
      AskedPackets(start, es, n - 1);
      var before, e := Asked(start, es, n - 1), es[n - 1];
      if ScansAt(start, es, n - 1) {
        OneMorePacket(before, Run.Scan(e.scanNow, e.envs));
      } else if e.Receive? && e.result.Packet? {
        OneMorePacket(before, Run.Recv(e.result.bytes, e.now, e.pick, e.env));
      } else if e.Background? {
        OneMorePacket(before, e.e);
      }
    }
  }

  lemma {:induction false} ScansInRun(ss: seq<State>, es: seq<Event>, n: nat)
    requires IsRun(ss, es) && n <= |es|
    ensures ss[n].lastScan == LastScan(ss[0].clock, es, n)
    ensures n < |es| ==> (Scans(ss[n], es[n]) <==> ScansAt(ss[0].clock, es, n))
  {
    if n > 0 {
      ScansInRun(ss, es, n - 1);
      RunInv(ss, es, n - 1);
      hide IsRun, I.Inv, Run.Step, Run.Enabled;
    }
  }

  lemma BackgroundIsQuiet(ss: seq<State>, es: seq<Event>, n: nat)
    requires IsRun(ss, es) && n <= |es|
    ensures forall k | 0 <= k < n && es[k].Background? :: !es[k].e.Recv?
  {
    forall k | 0 <= k < n && es[k].Background?
      ensures !es[k].e.Recv?
    {
      RunInv(ss, es, k);
    }
    hide IsRun;
  }

  /** What the loop's first n events ask of the reassembler, every received packet among it, in order, is
      a run of the reassembler that ends in the loop's state: nothing is withheld, and whatever holds of
      the reassembler's runs holds of it under the loop. */
  lemma LoopDrivesReassembler(ss: seq<State>, es: seq<Event>, n: nat)
    returns (rs: seq<R.State>, res: seq<Run.Event>)
    requires IsRun(ss, es) && n <= |es|
    ensures Run.IsRun(rs, res) && rs[|res|] == ss[n].r
    ensures res == Asked(ss[0].clock, es, n) && Packets(res) == Received(es, n)
    ensures forall k | 0 <= k < |res| && res[k].Recv? :: 0 < |res[k].packet| <= MTU_LEN
  {
    hide IsRun, Run.IsRun;
    rs, res := LoopRuns(ss, es, n);
    BackgroundIsQuiet(ss, es, n);
    AskedPackets(ss[0].clock, es, n);
  }

  lemma AskedNext(s: State, start: TimePoint, es: seq<Event>, n: nat)
    requires I.Inv(s.r) && n < |es| && (Scans(s, es[n]) <==> ScansAt(start, es, n))
    ensures Asked(start, es, n + 1) ==
      if Request(s, es[n]).Some? then Asked(start, es, n) + [Request(s, es[n]).value] else Asked(start, es, n)
  {
    hide ScansAt, I.Inv;
  }

  lemma LoopStarts(ss: seq<State>, es: seq<Event>)
    requires IsRun(ss, es)
    ensures Run.IsRun([ss[0].r], []) && Asked(ss[0].clock, es, 0) == []
  {
  }

  // A request is a step of the reassembler, and brings a packet of 1 to 1400 bytes if it brings one.
  lemma RequestIsStep(s: State, e: Event)
    requires I.Inv(s.r) && Enabled(s, e) && Request(s, e).Some?
    ensures Run.IsStep(s.r, Request(s, e).value, Step(s, e).r)
    ensures Request(s, e).value.Recv? ==> 0 < |Request(s, e).value.packet| <= MTU_LEN
  {
    hide I.Inv, Run.Step, Run.Enabled;
    ServeInv(s, e);
  }

  lemma {:induction false} LoopRuns(ss: seq<State>, es: seq<Event>, n: nat)
    returns (rs: seq<R.State>, res: seq<Run.Event>)
    requires IsRun(ss, es) && n <= |es|
    ensures Run.IsRun(rs, res) && rs[|res|] == ss[n].r && res == Asked(ss[0].clock, es, n)
    ensures forall k | 0 <= k < |res| && res[k].Recv? :: 0 < |res[k].packet| <= MTU_LEN
  {
    hide *;
    if n == 0 {
      LoopStarts(ss, es);
      rs, res := [ss[0].r], [];
    } else {
      rs, res := LoopRuns(ss, es, n - 1);
      var s, e := ss[n - 1], es[n - 1];
      RunInv(ss, es, n - 1);
      ScansInRun(ss, es, n - 1);
      AskedNext(s, ss[0].clock, es, n - 1);
      ServeInv(s, e);
      if Request(s, e).Some? {
        RequestIsStep(s, e);
        Run.RunGrows(rs, res, Request(s, e).value, ss[n].r);
        rs, res := rs + [ss[n].r], res + [Request(s, e).value];
      }
    }
  }
}
