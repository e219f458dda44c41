/** What a handler can be called with: the fence holds over all interleavings. */
module MqttFence {
  import opened Common
  import opened MqttFenceModel

  ghost predicate IsRun(ss: seq<State>, es: seq<Event>)
    ensures IsRun(ss, es) ==> |ss| == |es| + 1
  {
    && |ss| == |es| + 1
    && Initial(ss[0])
    && forall n | 0 <= n < |es| :: IsStep(ss[n], es[n], ss[n + 1])
  }

  ghost predicate IsStep(s: State, e: Event, t: State) {
    Enabled(s, e) && t == Step(s, e)
  }

  lemma {:induction false} RunInv(ss: seq<State>, es: seq<Event>, n: nat)
    requires IsRun(ss, es) && n <= |es|
    ensures Inv(ss[n])
    ensures n < |es| ==> Enabled(ss[n], es[n]) && ss[n + 1] == Step(ss[n], es[n])
  {
    hide Inv, Step, Enabled;
    if n == 0 {
      InitialInv(ss[0]);
    } else {
      RunInv(ss, es, n - 1);
      StepInv(ss[n - 1], es[n - 1]);
    }
    assert n < |es| ==> IsStep(ss[n], es[n], ss[n + 1]);
  }

  lemma RunStarts(ss: seq<State>, es: seq<Event>)
    requires IsRun(ss, es)
    ensures ss[0].register == map[] && ss[0].slots == {} && ss[0].posted == [] && ss[0].calls == []
      && ss[0].checked == [] && ss[0].outgoing == []
  {
  }

  lemma InitialInv(s: State)
    requires Initial(s)
    ensures Inv(s)
  {
  }

  // ---------------------------------------------------------------------------------------
  // A generation number names one binding

  // From state s to state t: the current generation and client do not go back, and only together.
  ghost predicate Since(s: State, t: State) {
    s.snapshot.Some? ==>
      && t.generation >= s.snapshot.value.gen && t.clientCount > s.snapshot.value.client.serial
      && (t.snapshot.Some? && t.snapshot != s.snapshot ==> Newer(t.snapshot.value, s.snapshot.value))
      && (!t.phase.Idle? ==> Newer(t.phase.next, s.snapshot.value))
  }

  predicate Newer(a: Snapshot, b: Snapshot) { a.gen > b.gen && a.client.serial > b.client.serial }

  lemma SinceStep(s: State, t: State, e: Event)
    requires SnapshotsOk(t) && Enabled(t, e) && Since(s, t)
    ensures Since(s, Step(t, e))
  {
  }

  lemma {:induction false} SnapshotsGrow(ss: seq<State>, es: seq<Event>, i: nat, n: nat)
    requires IsRun(ss, es) && i <= n <= |es|
    ensures Since(ss[i], ss[n])
    decreases n
  {
    hide IsRun, Step, Enabled, Since, SnapshotsOk;
    RunInv(ss, es, i);
    if i == n {
      SinceSelf(ss[i]);
    } else {
      SnapshotsGrow(ss, es, i, n - 1);
      RunInv(ss, es, n - 1);
      SinceStep(ss[i], ss[n - 1], es[n - 1]);
    }
  }

  lemma SinceSelf(s: State)
    requires SnapshotsOk(s)
    ensures Since(s, s)
  {
  }

  /** One generation number is one binding: two states of a run have the same current generation
      exactly if they have the same client object. */
  lemma GenerationIsBinding(ss: seq<State>, es: seq<Event>, i: nat, j: nat)
    requires IsRun(ss, es) && i <= |es| && j <= |es| && ss[i].snapshot.Some? && ss[j].snapshot.Some?
    ensures ss[i].snapshot.value.gen == ss[j].snapshot.value.gen <==> ss[i].snapshot == ss[j].snapshot
    ensures ss[i].snapshot.value.client == ss[j].snapshot.value.client <==> ss[i].snapshot == ss[j].snapshot
  {
    if i <= j { SnapshotsGrow(ss, es, i, j); } else { SnapshotsGrow(ss, es, j, i); }
  }

  // The step replaces or removes the current binding.
  predicate Rebinds(s: State, e: Event) {
    e.StoreSnapshot? || (e.Shutdown? && s.snapshot.Some?)
  }

  // Since state s its binding was replaced, for good.
  predicate Replaced(s: State, t: State)
    requires s.snapshot.Some?
  {
    t.shuttingDown || (t.snapshot.Some? && Newer(t.snapshot.value, s.snapshot.value))
  }

  lemma ReplacedStep(s: State, t: State, e: Event)
    requires SnapshotsOk(t) && Enabled(t, e) && Since(s, t) && s.snapshot.Some?
    ensures Replaced(s, t) ==> Replaced(s, Step(t, e)) && t.snapshot != s.snapshot
    ensures t.snapshot == s.snapshot ==>
      if Rebinds(t, e) then Replaced(s, Step(t, e)) else Step(t, e).snapshot == s.snapshot
  {
  }

  lemma {:induction false} ReplacedInRun(ss: seq<State>, es: seq<Event>, m: nat, n: nat)
    requires IsRun(ss, es) && m <= n <= |es| && ss[m].snapshot.Some?
    ensures if exists i :: m <= i < n && Rebinds(ss[i], es[i]) then Replaced(ss[m], ss[n])
            else ss[n].snapshot == ss[m].snapshot
    decreases n
  {
    hide IsRun, Step, Enabled, Since, Inv, Replaced, Rebinds, SnapshotsOk;
    if m < n {
      ReplacedInRun(ss, es, m, n - 1);
      SnapshotsGrow(ss, es, m, n - 1);
      RunInv(ss, es, n - 1);
      InvSnapshots(ss[n - 1]);
      ReplacedStep(ss[m], ss[n - 1], es[n - 1]);
    }
  }

  lemma InvSnapshots(s: State)
    requires Inv(s)
    ensures SnapshotsOk(s)
  {
  }

  /** Exactly when a binding is still the current one later: no step between replaced or removed it. One
      that was replaced never comes back. */
  lemma StillCurrentIff(ss: seq<State>, es: seq<Event>, m: nat, n: nat)
    requires IsRun(ss, es) && m <= n <= |es| && ss[m].snapshot.Some?
    ensures ss[n].snapshot == ss[m].snapshot <==> forall i | m <= i < n :: !Rebinds(ss[i], es[i])
  {
    ReplacedInRun(ss, es, m, n);
    RunInv(ss, es, n);
    hide IsRun, Rebinds;
  }

  // ---------------------------------------------------------------------------------------
  // Where handlers, slots, posts and calls come from

  // Event r registered handler h.
  predicate RegisteredBy(s: State, e: Event, h: Handler) {
    && e.Register? && RegisterResult(s, e.context, e.topic, e.handler).Registered?
    && h == Handler(s.handlerCount, e.topic, e.local)
  }

  predicate InRegister(s: State, h: Handler) {
    h.topic in s.register && h in s.register[h.topic].handlers
  }

  predicate FiledByTopic(s: State) {
    forall t | t in s.register :: forall h | h in s.register[t].handlers :: h.topic == t
  }

  lemma FiledStep(s: State, e: Event)
    requires FiledByTopic(s) && Enabled(s, e)
    ensures FiledByTopic(Step(s, e))
  {
  }

  lemma {:induction false} FiledInRun(ss: seq<State>, es: seq<Event>, n: nat)
    requires IsRun(ss, es) && n <= |es|
    ensures FiledByTopic(ss[n])
  {
    if n > 0 {
      RunInv(ss, es, n - 1);
      hide IsRun, Step, Enabled, FiledByTopic;
      FiledInRun(ss, es, n - 1);
      FiledStep(ss[n - 1], es[n - 1]);
    }
  }

  lemma HandlerOrigin(s: State, e: Event, h: Handler)
    requires Enabled(s, e) && Inv(s) && InRegister(Step(s, e), h)
    ensures Step(s, e).snapshot == s.snapshot && s.snapshot.Some?
    ensures InRegister(s, h) || RegisteredBy(s, e, h)
  {
  }

  lemma NothingRegistered(s: State, h: Handler)
    requires s.register == map[]
    ensures !InRegister(s, h)
  {
  }

  // A handler in the register was registered under the binding that is current.
  lemma {:induction false} HandlerHistory(ss: seq<State>, es: seq<Event>, n: nat, h: Handler) returns (r: nat)
    requires IsRun(ss, es) && n <= |es| && InRegister(ss[n], h)
    ensures r < n && RegisteredBy(ss[r], es[r], h) && ss[r].snapshot == ss[n].snapshot
  {
    hide IsRun, Inv, Step, Enabled, InRegister, RegisteredBy;
    RunStarts(ss, es);
    if n == 0 { NothingRegistered(ss[0], h); }
    RunInv(ss, es, n - 1);
    HandlerOrigin(ss[n - 1], es[n - 1], h);
    r := n - 1;
    if InRegister(ss[n - 1], h) {
      r := HandlerHistory(ss, es, n - 1, h);
    }
  }

  lemma SlotOrigin(s: State, e: Event, slot: Slot)
    requires Inv(s) && Enabled(s, e) && slot in Step(s, e).slots
    ensures slot in s.slots || (s.snapshot == Some(Snapshot(slot.gen, slot.client)))
  {
  }

  // A slot was connected to the client of the generation it captured.
  lemma {:induction false} SlotHistory(ss: seq<State>, es: seq<Event>, n: nat, slot: Slot) returns (q: nat)
    requires IsRun(ss, es) && n <= |es| && slot in ss[n].slots
    ensures q < n && ss[q].snapshot == Some(Snapshot(slot.gen, slot.client))
  {
    hide IsRun, Inv, Step, Enabled;
    RunStarts(ss, es);
    RunInv(ss, es, n - 1);
    SlotOrigin(ss[n - 1], es[n - 1], slot);
    q := n - 1;
    if slot in ss[n - 1].slots {
      q := SlotHistory(ss, es, n - 1, slot);
    }
  }

  // Event d is the arrival, at a client, of what the post carries.
  predicate DeliveredBy(s: State, e: Event, p: Post) {
    e.Deliver? && e.slot in s.slots && p == Post(e.slot.topic, e.slot.gen, e.payload, s.deliveryCount)
  }

  lemma PostOrigin(s: State, e: Event, p: Post)
    requires Enabled(s, e) && p in Step(s, e).posted
    ensures p in s.posted || DeliveredBy(s, e, p)
  {
  }

  lemma {:induction false} PostHistory(ss: seq<State>, es: seq<Event>, n: nat, p: Post) returns (d: nat)
    requires IsRun(ss, es) && n <= |es| && p in ss[n].posted
    ensures d < n && DeliveredBy(ss[d], es[d], p)
  {
    hide IsRun, Inv, Step, Enabled, DeliveredBy;
    RunStarts(ss, es);
    RunInv(ss, es, n - 1);
    PostOrigin(ss[n - 1], es[n - 1], p);
    d := n - 1;
    if p in ss[n - 1].posted {
      d := PostHistory(ss, es, n - 1, p);
    }
  }

  lemma CallOrigin(s: State, e: Event, c: Call)
    requires Enabled(s, e) && FiledByTopic(s) && c in Step(s, e).calls
    ensures c in s.calls || (InRegister(s, c.handler) && s.snapshot.Some? && s.snapshot.value.gen == c.gen
                             && Post(c.handler.topic, c.gen, c.payload, c.id) in s.posted)
  {
  }

  // A call carries a payload that a client received for a topic, to a handler registered for that
  // topic, both under the generation it carries.
  lemma {:induction false} CallHistory(ss: seq<State>, es: seq<Event>, n: nat, c: Call) returns (r: nat, d: nat)
    requires IsRun(ss, es) && n <= |es| && c in ss[n].calls
    ensures r < n && RegisteredBy(ss[r], es[r], c.handler)
    ensures ss[r].snapshot.Some? && ss[r].snapshot.value.gen == c.gen
    ensures d < n && DeliveredBy(ss[d], es[d], Post(c.handler.topic, c.gen, c.payload, c.id))
  {
    hide IsRun, Inv, Step, Enabled, InRegister, RegisteredBy, DeliveredBy, FiledByTopic;
    RunStarts(ss, es);
    RunInv(ss, es, n - 1);
    FiledInRun(ss, es, n - 1);
    CallOrigin(ss[n - 1], es[n - 1], c);
    if c in ss[n - 1].calls {
      r, d := CallHistory(ss, es, n - 1, c);
    } else {
      r := HandlerHistory(ss, es, n - 1, c.handler);
      d := PostHistory(ss, es, n - 1, Post(c.handler.topic, c.gen, c.payload, c.id));
    }
  }

  // Event m is the check that let the call through.
  predicate CheckedBy(s: State, e: Event, c: Call) {
    e.Check? && e.k < |s.calls| && s.calls[e.k] == c && PassesSecondHop(s, c)
  }

  lemma CheckedOrigin(s: State, e: Event, c: Call)
    requires Enabled(s, e) && c in Step(s, e).checked
    ensures c in s.checked || CheckedBy(s, e, c)
  {
  }

  lemma {:induction false} CheckedHistory(ss: seq<State>, es: seq<Event>, n: nat, c: Call) returns (m: nat)
    requires IsRun(ss, es) && n <= |es| && c in ss[n].checked
    ensures m < n && CheckedBy(ss[m], es[m], c)
  {
    hide IsRun, Inv, Step, Enabled, CheckedBy;
    RunStarts(ss, es);
    RunInv(ss, es, n - 1);
    CheckedOrigin(ss[n - 1], es[n - 1], c);
    m := n - 1;
    if c in ss[n - 1].checked {
      m := CheckedHistory(ss, es, n - 1, c);
    }
  }

  // ---------------------------------------------------------------------------------------
  // The fence

  /** Whenever a handler is called: it was registered (event r), for a topic, under a binding; the
      payload is one that the client of that same binding received for that topic (event d); and that
      binding was current at the check (event m). It is still current at the call exactly if no step
      between check and call replaced or removed it, and always if the handler's context lives in the
      adapter's thread. No message of another client gets through, however rebinding, delivery and the
      two hops interleave. */
  lemma HandlersAreFenced(ss: seq<State>, es: seq<Event>, n: nat) returns (r: nat, d: nat, m: nat)
    requires IsRun(ss, es) && n < |es| && es[n].Invoke? && es[n].j < |ss[n].checked|
    ensures var c := ss[n].checked[es[n].j];
      && r < m < n && RegisteredBy(ss[r], es[r], c.handler) && ss[r].snapshot.Some?
      && d < m && DeliveredBy(ss[d], es[d], Post(c.handler.topic, c.gen, c.payload, c.id))
      && es[d].slot.client == ss[r].snapshot.value.client
      && CheckedBy(ss[m], es[m], c) && ss[m].snapshot == ss[r].snapshot
      && (ss[n].snapshot == ss[m].snapshot <==> forall i | m <= i < n :: !Rebinds(ss[i], es[i]))
      && (c.handler.local ==> ss[n].snapshot == ss[m].snapshot)
  {
    var c := ss[n].checked[es[n].j];
    m := CheckedHistory(ss, es, n, c);
    assert c in ss[m].calls;
    r, d := CallHistory(ss, es, m, c);
    RunInv(ss, es, n);
    if c.handler.local { LocalIsCurrent(ss[n], c); }
    var q := SlotHistory(ss, es, d, es[d].slot);
    hide IsRun, RegisteredBy, Inv, Enabled, Step, Rebinds;
    GenerationIsBinding(ss, es, r, m);
    GenerationIsBinding(ss, es, q, r);
    if c.handler.local { GenerationIsBinding(ss, es, r, n); }
    StillCurrentIff(ss, es, m, n);
  }

  lemma LocalIsCurrent(s: State, c: Call)
    requires Inv(s) && c in s.checked && c.handler.local
    ensures PassesSecondHop(s, c)
  {
  }

  /** Every message that publish() hands to a client is handed to the client it was meant for: publish
      was asked for a generation that was current at its checks, and the client is the one that every
      binding of that number in the run has. */
  lemma PublishIsFenced(ss: seq<State>, es: seq<Event>, n: nat) returns (c: nat)
    requires IsRun(ss, es) && n < |es| && es[n].HandOver? && es[n].j < |ss[n].outgoing|
    ensures var x := ss[n].outgoing[es[n].j];
      && c < n && es[c] == LoadForPublish(x.gen, x.topic, x.payload)
      && ss[c].snapshot == Some(Snapshot(x.gen, x.client))
      && forall b | 0 <= b <= |es| && ss[b].snapshot.Some? && ss[b].snapshot.value.gen == x.gen ::
           ss[b].snapshot.value.client == x.client
  {
    var x := ss[n].outgoing[es[n].j];
    c := OutgoingHistory(ss, es, n, x);
    hide IsRun;
    forall b | 0 <= b <= |es| && ss[b].snapshot.Some? && ss[b].snapshot.value.gen == x.gen
      ensures ss[b].snapshot.value.client == x.client
    {
      GenerationIsBinding(ss, es, b, c);
    }
  }

  lemma OutgoingOrigin(s: State, e: Event, x: Outgoing)
    requires Enabled(s, e) && x in Step(s, e).outgoing
    ensures x in s.outgoing ||
      (e == LoadForPublish(x.gen, x.topic, x.payload) && s.snapshot == Some(Snapshot(x.gen, x.client)))
  {
  }

  lemma {:induction false} OutgoingHistory(ss: seq<State>, es: seq<Event>, n: nat, x: Outgoing) returns (c: nat)
    requires IsRun(ss, es) && n <= |es| && x in ss[n].outgoing
    ensures c < n && es[c] == LoadForPublish(x.gen, x.topic, x.payload)
    ensures ss[c].snapshot == Some(Snapshot(x.gen, x.client))
  {
    hide IsRun, Inv, Step, Enabled;
    RunStarts(ss, es);
    RunInv(ss, es, n - 1);
    OutgoingOrigin(ss[n - 1], es[n - 1], x);
    c := n - 1;
    if x in ss[n - 1].outgoing {
      c := OutgoingHistory(ss, es, n - 1, x);
    }
  }

  /** publish() passes its checks exactly if the binding that was current when the generation number
      was obtained is still the current one. */
  lemma PublishChecksBinding(ss: seq<State>, es: seq<Event>, b: nat, n: nat, gen: nat)
    requires IsRun(ss, es) && b <= |es| && n <= |es|
    requires ss[b].snapshot.Some? && ss[b].snapshot.value.gen == gen
    ensures PublishResult(ss[n], gen).Passed? <==> ss[n].snapshot == ss[b].snapshot
  {
    RunInv(ss, es, n);
    RunInv(ss, es, b);
    if ss[n].snapshot.Some? && ss[n].snapshot.value.gen == gen {
      GenerationIsBinding(ss, es, b, n);
    }
  }

  // ---------------------------------------------------------------------------------------
  // Nothing of the current binding is held back

  lemma KeptStep(s: State, t: State, e: Event, h: Handler)
    requires Enabled(t, e) && Since(s, t) && s.snapshot.Some?
    requires Step(t, e).snapshot == s.snapshot && !Step(t, e).phase.Cleared?
    ensures t.snapshot == s.snapshot && !t.phase.Cleared?
    ensures InRegister(t, h) ==> InRegister(Step(t, e), h)
  {
  }

  lemma RegisteredIsIn(s: State, e: Event, h: Handler)
    requires Enabled(s, e) && RegisteredBy(s, e, h)
    ensures InRegister(Step(s, e), h) && s.snapshot.Some?
  {
    assert h in Step(s, e).register[e.topic].handlers by {
      var hs := Step(s, e).register[e.topic].handlers;
      assert hs[|hs| - 1] == h;
    }
  }

  // While its binding is current, and not being replaced, a registered handler stays in the register.
  lemma {:induction false} HandlerStays(ss: seq<State>, es: seq<Event>, r: nat, n: nat, h: Handler)
    requires IsRun(ss, es) && r < n <= |es| && RegisteredBy(ss[r], es[r], h)
    requires ss[n].snapshot == ss[r].snapshot && !ss[n].phase.Cleared?
    ensures InRegister(ss[n], h)
    decreases n
  {
    hide IsRun, Inv, Step, Enabled, InRegister, RegisteredBy, Since;
    RunInv(ss, es, r);
    RegisteredIsIn(ss[r], es[r], h);
    if r < n - 1 {
      RunInv(ss, es, n - 1);
      SnapshotsGrow(ss, es, r, n - 1);
      KeptStep(ss[r], ss[n - 1], es[n - 1], h);
      HandlerStays(ss, es, r, n - 1, h);
    }
  }

  /** The fence holds back nothing else: when a post for a topic is dispatched under the binding that
      a handler of the topic was registered under, and carries its number, that handler's call is
      made, and passes its check exactly if the binding has not been replaced by then. */
  lemma CurrentMessagesArrive(ss: seq<State>, es: seq<Event>, r: nat, n: nat, h: Handler)
    requires IsRun(ss, es) && r < n < |es| && RegisteredBy(ss[r], es[r], h) && es[n].Dispatch?
    requires ss[n].snapshot == ss[r].snapshot && ss[n].posted != []
    requires ss[n].posted[0].topic == h.topic && ss[n].posted[0].gen == ss[r].snapshot.value.gen
    ensures var p := ss[n].posted[0]; var c := Call(h, p.gen, p.payload, p.id);
      && c in ss[n + 1].calls
      && forall k | n < k < |es| :: PassesSecondHop(ss[k], c) <==> ss[k].snapshot == ss[n].snapshot
  {
    RunInv(ss, es, n);
    DispatchStart(ss[n], es[n]);
    HandlerStays(ss, es, r, n, h);
    CallsAreMade(ss[n], h);
    var p := ss[n].posted[0];
    forall k | n < k < |es|
      ensures PassesSecondHop(ss[k], Call(h, p.gen, p.payload, p.id)) <==> ss[k].snapshot == ss[n].snapshot
    {
      if ss[k].snapshot.Some? { GenerationIsBinding(ss, es, n, k); }
    }
  }

  lemma DispatchStart(s: State, e: Event)
    requires Enabled(s, e) && e.Dispatch?
    ensures s.phase.Idle?
  {
  }

  lemma CallsAreMade(s: State, h: Handler)
    requires Enabled(s, Dispatch) && InRegister(s, h) && PassesFirstHop(s, s.posted[0]) && s.posted[0].topic == h.topic
    ensures Call(h, s.posted[0].gen, s.posted[0].payload, s.posted[0].id) in Step(s, Dispatch).calls
  {
    var p := s.posted[0];
    var handlers := s.register[h.topic].handlers;
    var i :| 0 <= i < |handlers| && handlers[i] == h;
    assert CallsFor(handlers, p)[i] == Call(h, p.gen, p.payload, p.id);
  }
}
