/** Nothing is lost: a message of the current binding reaches every handler that was registered for its
    topic, unless the binding is replaced before. */
module MqttReach {
  import opened Common
  import opened MqttFenceModel
  import opened MqttFence

  // The message is on its way to its handler: as a post, as a call, or checked already.
  predicate OnItsWay(s: State, p: Post, c: Call) {
    p in s.posted || c in s.calls || c in s.checked
  }

  // Event e calls the handler.
  predicate Reaches(s: State, e: Event, c: Call) {
    e.Invoke? && e.j < |s.checked| && s.checked[e.j] == c
  }

  lemma DeliverySends(s: State, e: Event, c: Call)
    requires Enabled(s, e) && e.Deliver?
    ensures OnItsWay(Step(s, e), Post(e.slot.topic, e.slot.gen, e.payload, s.deliveryCount), c)
  {
    var posted := Step(s, e).posted;
    assert posted[|posted| - 1] == Post(e.slot.topic, e.slot.gen, e.payload, s.deliveryCount);
  }

  lemma StaysIn<T>(s: seq<T>, k: nat, x: T)
    requires k < |s| && x in s && x != s[k]
    ensures x in RemoveAt(s, k)
  {
    var i :| 0 <= i < |s| && s[i] == x;
    if i < k { assert RemoveAt(s, k)[i] == x; } else { assert RemoveAt(s, k)[i - 1] == x; }
  }

  lemma DispatchPasses(s: State, p: Post, h: Handler)
    requires Enabled(s, Dispatch) && s.posted[0] == p && p.topic == h.topic && InRegister(s, h)
    requires s.snapshot.Some? && s.snapshot.value.gen == p.gen
    ensures Call(h, p.gen, p.payload, p.id) in Step(s, Dispatch).calls
  {
    var hs := s.register[p.topic].handlers;
    var i :| 0 <= i < |hs| && hs[i] == h;
    var calls := Step(s, Dispatch).calls;
    assert calls[|s.calls| + i] == Call(h, p.gen, p.payload, p.id);
  }

  lemma OnItsWayStep(s: State, e: Event, p: Post, h: Handler)
    requires Enabled(s, e) && p.topic == h.topic && s.snapshot.Some? && s.snapshot.value.gen == p.gen
    requires e.Dispatch? ==> InRegister(s, h)
    requires OnItsWay(s, p, Call(h, p.gen, p.payload, p.id))
    ensures var c := Call(h, p.gen, p.payload, p.id); OnItsWay(Step(s, e), p, c) || Reaches(s, e, c)
  {
    var c := Call(h, p.gen, p.payload, p.id);
    match e
    case Dispatch =>
      if s.posted[0] == p {
        DispatchPasses(s, p, h);
      } else if p in s.posted {
        assert s.posted == [s.posted[0]] + s.posted[1..];
      }
    case Check(k) =>
      if s.calls[k] == c {
        var checked := Step(s, e).checked;
        assert checked[|checked| - 1] == c;
      } else if c in s.calls {
        StaysIn(s.calls, k, c);
      }
    case Invoke(j) =>
      if s.checked[j] != c && c in s.checked { StaysIn(s.checked, j, c); }
    case _ =>
  }

  /** Let handler h be registered (event r) and a slot of its topic and binding deliver a payload later
      (event d). As long as the binding is current, the message is on its way to h or h has been called
      with it. */
  lemma {:induction false} CurrentMessagesReach(ss: seq<State>, es: seq<Event>, r: nat, d: nat, n: nat, h: Handler)
    returns (j: nat)
    requires IsRun(ss, es) && r < d < n <= |es| && RegisteredBy(ss[r], es[r], h) && es[d].Deliver?
    requires es[d].slot.topic == h.topic && ss[r].snapshot.Some? && es[d].slot.gen == ss[r].snapshot.value.gen
    requires forall i | d <= i < n :: ss[i].snapshot == ss[r].snapshot
    ensures var c := Call(h, es[d].slot.gen, es[d].payload, ss[d].deliveryCount);
      || OnItsWay(ss[n], Post(h.topic, c.gen, c.payload, c.id), c)
      || (d < j < n && Reaches(ss[j], es[j], c))
    decreases n
  {
    hide IsRun, Inv, Step, Enabled, RegisteredBy, InRegister, OnItsWay, Reaches;
    var p := Post(h.topic, es[d].slot.gen, es[d].payload, ss[d].deliveryCount);
    RunInv(ss, es, n - 1);
    j := n - 1;
    if d == n - 1 {
      DeliverySends(ss[d], es[d], Call(h, p.gen, p.payload, p.id));
    } else {
      var j' := CurrentMessagesReach(ss, es, r, d, n - 1, h);
      if d < j' < n - 1 && Reaches(ss[j'], es[j'], Call(h, p.gen, p.payload, p.id)) {
        j := j';
      } else {
        if es[n - 1].Dispatch? {
          DispatchIsIdle(ss[n - 1], es[n - 1]);
          HandlerStays(ss, es, r, n - 1, h);
        }
        OnItsWayStep(ss[n - 1], es[n - 1], p, h);
      }
    }
  }

  // Every channel's slot is one that was connected.
  predicate ChannelsHaveSlots(s: State) {
    forall t | t in s.register :: s.register[t].slot in s.slots
  }

  lemma ChannelsStep(s: State, e: Event)
    requires ChannelsHaveSlots(s) && Enabled(s, e)
    ensures ChannelsHaveSlots(Step(s, e))
  {
  }

  lemma {:induction false} ChannelsInRun(ss: seq<State>, es: seq<Event>, n: nat)
    requires IsRun(ss, es) && n <= |es|
    ensures ChannelsHaveSlots(ss[n])
  {
    RunStarts(ss, es);
    if n > 0 {
      RunInv(ss, es, n - 1);
      hide IsRun, Inv, Step, Enabled, ChannelsHaveSlots;
      ChannelsInRun(ss, es, n - 1);
      ChannelsStep(ss[n - 1], es[n - 1]);
    }
  }

  /** While its binding is current, and not being replaced, a registered handler's topic has a slot connected
      to the binding's client, with the topic and the binding's number. */
  lemma RegisteredIsConnected(ss: seq<State>, es: seq<Event>, r: nat, n: nat, h: Handler)
    requires IsRun(ss, es) && r < n <= |es| && RegisteredBy(ss[r], es[r], h)
    requires ss[n].snapshot == ss[r].snapshot && !ss[n].phase.Cleared?
    ensures ss[n].snapshot.Some?
    ensures Slot(ss[n].snapshot.value.client, h.topic, ss[n].snapshot.value.gen) in ss[n].slots
  {
    HandlerStays(ss, es, r, n, h);
    ChannelsInRun(ss, es, n);
    RunInv(ss, es, n);
    hide IsRun;
    assert h.topic in ss[n].register;
  }

  lemma DispatchIsIdle(s: State, e: Event)
    requires Enabled(s, e) && e.Dispatch?
    ensures s.phase.Idle?
  {
  }
}
