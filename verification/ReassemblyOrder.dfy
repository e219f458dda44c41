/** The order in which frames reach the pipeline: within a session the pushed indices only move
    forward in serial-number order, on the completion path and on the timeout path alike. */
module ReassemblyOrder {
  import opened Common
  import opened PacketHeader
  import opened FramePool
  import opened VidRender
  import opened ReassemblyModel
  import opened ReassemblyInvariant
  import opened ReassemblyRun
  import opened ReassemblyHistory
  import opened ReassemblyDelivery

  /** The indices pushed in the current session, unwrapped to integers: `base` is the index just
      before the session's first packet. */
  datatype Order = Order(base: int, log: seq<int>) {
    function Last(): int { if log == [] then base else log[|log| - 1] }

    // Pushing idx advances by the serial difference from the last index.
    function Push(idx: u16): Order { this.(log := log + [Last() + Diff(idx, Last() % 0x1_0000)]) }

    // Entry i, counting the base as entry 0.
    function At(i: nat): int
      requires i <= |log|
    {
      if i == 0 then base else log[i - 1]
    }

    ghost predicate Advances() {
      forall i: nat | i < |log| :: 1 <= At(i + 1) - At(i) <= 0x7FFF
    }
  }

  ghost function ScanOrder(s: State, j: nat, now: TimePoint, envs: seq<PushEnv>, o: Order): Order
    requires j <= |s.slots| == |envs|
    decreases |s.slots| - j
  {
    if j == |s.slots| then o
    else
      var o' := if TimedOut(s.slots[j], now) && PushesIncomplete(s, j) then o.Push(s.slots[j].frameIdx) else o;
      ScanOrder(ScanSlot(s, j, now, envs[j]), j + 1, now, envs, o')
  }

  // Event n's push, if it completes a frame.
  ghost function PushOrder(ss: seq<State>, es: seq<Event>, n: nat, o: Order): Order
    requires IsRun(ss, es) && n < |es|
  {
    if PushesAt(ss, es, n) then o.Push(PushedSlot(ss, es, n).frameIdx) else o
  }

  // The empty order of the session that event n starts.
  ghost function NewSession(ss: seq<State>, es: seq<Event>, n: nat): Order
    requires IsRun(ss, es) && n < |es| && es[n].Recv?
  {
    Order(RouteAt(ss, es, n).s.lastPushed, [])
  }

  /** The push order after n events. */
  ghost function OrderAt(ss: seq<State>, es: seq<Event>, n: nat): Order
    requires IsRun(ss, es) && n <= |es|
  {
    if n == 0 then Order(ss[0].lastPushed, [])
    else
      var o := OrderAt(ss, es, n - 1);
      match es[n - 1]
      case Recv(packet, now, _, _) =>
        PushOrder(ss, es, n - 1, if StartsSession(ss[n - 1], packet, now) then NewSession(ss, es, n - 1) else o)
      case Scan(now, envs) =>
        RunInv(ss, es, n - 1);
        ScanOrder(Expire(ss[n - 1], now), 0, now, envs, o)
      case _ => o
  }

  ghost predicate Tracks(o: Order, lastPushed: u16) {
    o.Advances() && o.Last() % 0x1_0000 == lastPushed
  }

  lemma PushTracks(o: Order, lastPushed: u16, idx: u16)
    requires Tracks(o, lastPushed) && IsAfter(idx, lastPushed)
    ensures Tracks(o.Push(idx), idx)
  {
    var d := Diff(idx, lastPushed);
    assert (o.Last() + d) % 0x1_0000 == (lastPushed + d) % 0x1_0000;
    forall i: nat | i < |o.log| + 1 ensures 1 <= o.Push(idx).At(i + 1) - o.Push(idx).At(i) <= 0x7FFF {
      if i < |o.log| {
        assert 1 <= o.At(i + 1) - o.At(i) <= 0x7FFF;
      }
    }
  }

  lemma {:induction false} ScanTracks(s: State, j: nat, now: TimePoint, envs: seq<PushEnv>, o: Order)
    requires j <= |s.slots| == |envs| && Tracks(o, s.lastPushed)
    ensures Tracks(ScanOrder(s, j, now, envs, o), ScanFrom(s, j, now, envs).lastPushed)
    decreases |s.slots| - j
  {
    if j < |s.slots| {
      var o' := o;
      if TimedOut(s.slots[j], now) && PushesIncomplete(s, j) {
        PushTracks(o, s.lastPushed, s.slots[j].frameIdx);
        o' := o.Push(s.slots[j].frameIdx);
      }
      ScanTracks(ScanSlot(s, j, now, envs[j]), j + 1, now, envs, o');
    }
  }

  /** Between two resyncs the pushed indices strictly increase in serial order: unwrapped, each
      is 1 to 32767 above the one before, and the last is congruent to lastPushedIdx. */
  lemma {:induction false} SessionOrder(ss: seq<State>, es: seq<Event>, n: nat)
    requires IsRun(ss, es) && n <= |es|
    ensures Tracks(OrderAt(ss, es, n), ss[n].lastPushed)
  {
    hide IsRun, Parse, Inv, Route, Tracks, StartsSession, PushesAt;
    if n == 0 {
      SessionStarts(ss);
    } else {
      SessionOrder(ss, es, n - 1);
      RunInv(ss, es, n - 1);
      var s, o := ss[n - 1], OrderAt(ss, es, n - 1);
      match es[n - 1]
      case Recv(packet, now, _, _) => RecvOrder(ss, es, n - 1);
      case Scan(now, envs) => ScanTracks(Expire(s, now), 0, now, envs, o);
      case _ =>
    }
  }

  lemma SessionStarts(ss: seq<State>)
    requires |ss| > 0
    ensures Tracks(Order(ss[0].lastPushed, []), ss[0].lastPushed)
  {
  }

  lemma RecvOrder(ss: seq<State>, es: seq<Event>, n: nat)
    requires IsRun(ss, es) && n < |es| && es[n].Recv?
    requires Tracks(OrderAt(ss, es, n), ss[n].lastPushed)
    ensures Tracks(OrderAt(ss, es, n + 1), ss[n + 1].lastPushed)
  {
    hide IsRun, Parse, Inv, Route, OrderAt;
    var r := RouteAt(ss, es, n);
    var o := if StartsSession(ss[n], es[n].packet, es[n].now) then NewSession(ss, es, n) else OrderAt(ss, es, n);
    assert Tracks(o, r.s.lastPushed);
    if PushesAt(ss, es, n) {
      PushedSlotFacts(ss, es, n);
      ByteOrderFixed(ss, es, n);
      PushTracks(o, r.s.lastPushed, PushedSlot(ss, es, n).frameIdx);
    }
    OrderUnfold(ss, es, n, o);
  }

  lemma OrderUnfold(ss: seq<State>, es: seq<Event>, n: nat, o: Order)
    requires IsRun(ss, es) && n < |es| && es[n].Recv?
    requires o == if StartsSession(ss[n], es[n].packet, es[n].now) then NewSession(ss, es, n)
                  else OrderAt(ss, es, n)
    ensures OrderAt(ss, es, n + 1) == PushOrder(ss, es, n, o)
  {
    hide IsRun, Parse, Inv, Route;
  }

  lemma {:induction false} AdvancesFar(o: Order, i: nat, j: nat)
    requires o.Advances() && i < j <= |o.log|
    ensures o.At(j) - o.At(i) >= j - i
  {
    assert o.At(j - 1 + 1) - o.At(j - 1) >= 1;
    if i < j - 1 {
      AdvancesFar(o, i, j - 1);
    }
  }

  /** No index is pushed twice in a session before the 16-bit counter has gone all the way round. */
  lemma NoRepeatWithinWrap(ss: seq<State>, es: seq<Event>, n: nat, i: nat, j: nat)
    requires IsRun(ss, es) && n <= |es|
    requires i < j < |OrderAt(ss, es, n).log|
    requires OrderAt(ss, es, n).log[i] % 0x1_0000 == OrderAt(ss, es, n).log[j] % 0x1_0000
    ensures OrderAt(ss, es, n).log[j] - OrderAt(ss, es, n).log[i] >= 0x1_0000
  {
    hide OrderAt, IsRun;
    var o := OrderAt(ss, es, n);
    SessionOrder(ss, es, n);
    AdvancesFar(o, i + 1, j + 1);
    WholeTurns(o.log[i], o.log[j]);
  }

  lemma WholeTurns(x: int, y: int)
    requires x < y && x % 0x1_0000 == y % 0x1_0000
    ensures y - x >= 0x1_0000
  {
  }
}
