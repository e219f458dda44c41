/** A message that a slot has posted reaches each handler at most once, by counting the places from
    which its call can still come. */
module MqttOnce {
  import opened Common
  import opened MqttFenceModel
  import opened MqttFence

  // How many of the calls are of handler h for delivery id.
  function Count(cs: seq<Call>, h: Handler, id: nat): nat {
    if cs == [] then 0
    else Count(cs[..|cs| - 1], h, id) + if cs[|cs| - 1].handler == h && cs[|cs| - 1].id == id then 1 else 0
  }

  lemma {:induction false} CountConcat(a: seq<Call>, b: seq<Call>, h: Handler, id: nat)
    ensures Count(a + b, h, id) == Count(a, h, id) + Count(b, h, id)
  {
    if b == [] {
      assert a + b == a;
    } else {
      CountConcat(a, b[..|b| - 1], h, id);
      assert (a + b)[..|a + b| - 1] == a + b[..|b| - 1];
    }
  }

  lemma CountRemoveAt(cs: seq<Call>, k: nat, h: Handler, id: nat)
    requires k < |cs|
    ensures Count(cs, h, id) == Count(RemoveAt(cs, k), h, id) + if cs[k].handler == h && cs[k].id == id then 1 else 0
  {
    assert cs == cs[..k] + [cs[k]] + cs[k + 1..];
    CountConcat(cs[..k] + [cs[k]], cs[k + 1..], h, id);
    CountConcat(cs[..k], [cs[k]], h, id);
    CountConcat(cs[..k], cs[k + 1..], h, id);
  }

  predicate Distinct(hs: seq<Handler>) {
    forall i, j | 0 <= i < j < |hs| :: hs[i] != hs[j]
  }

  // One post makes one call of a handler that is registered once, none of others, none for others.
  lemma {:induction false} CountCalls(hs: seq<Handler>, p: Post, h: Handler, id: nat)
    requires Distinct(hs)
    ensures Count(CallsFor(hs, p), h, id) == if h in hs && p.id == id then 1 else 0
  {
    if hs != [] {
      var n := |hs| - 1;
      CountCalls(hs[..n], p, h, id);
      assert CallsFor(hs, p)[..n] == CallsFor(hs[..n], p);
      assert hs == hs[..n] + [hs[n]];
    }
  }

  // ---------------------------------------------------------------------------------------
  // Numbers are given out once

  predicate PostsNumbered(s: State) {
    && (forall p | p in s.posted :: p.id < s.deliveryCount)
    && (forall i, j | 0 <= i < j < |s.posted| :: s.posted[i].id != s.posted[j].id)
  }

  predicate HandlersNumbered(s: State) {
    && (forall t | t in s.register :: forall h | h in s.register[t].handlers :: h.number < s.handlerCount)
    && (forall t | t in s.register :: Distinct(s.register[t].handlers))
  }

  predicate Numbered(s: State) { PostsNumbered(s) && HandlersNumbered(s) }

  lemma PostsStep(s: State, e: Event)
    requires Enabled(s, e) && PostsNumbered(s)
    ensures PostsNumbered(Step(s, e))
  {
  }

  lemma HandlersStep(s: State, e: Event)
    requires Enabled(s, e) && HandlersNumbered(s)
    ensures HandlersNumbered(Step(s, e))
  {
  }

  lemma NumberedStep(s: State, e: Event)
    requires Enabled(s, e) && Numbered(s)
    ensures Numbered(Step(s, e))
  {
    hide PostsNumbered, HandlersNumbered, Enabled, Step;
    PostsStep(s, e);
    HandlersStep(s, e);
  }

  // The delivery is still to come, or posted and not yet dispatched.
  predicate Undispatched(s: State, id: nat) {
    id >= s.deliveryCount || exists i :: 0 <= i < |s.posted| && s.posted[i].id == id
  }

  /** From how many places handler h can still be called for delivery id. */
  function Tokens(s: State, h: Handler, id: nat): nat {
    Count(s.calls, h, id) + Count(s.checked, h, id) + if Undispatched(s, id) then 1 else 0
  }

  predicate Calls(s: State, e: Event, h: Handler, id: nat) {
    e.Invoke? && e.j < |s.checked| && s.checked[e.j].handler == h && s.checked[e.j].id == id
  }

  lemma DeliverTokens(s: State, slot: Slot, payload: Payload, h: Handler, id: nat)
    requires Enabled(s, Deliver(slot, payload))
    ensures Tokens(Step(s, Deliver(slot, payload)), h, id) <= Tokens(s, h, id)
  {
    hide Count;
    var t := Step(s, Deliver(slot, payload));
    if Undispatched(t, id) && id < t.deliveryCount {
      var i :| 0 <= i < |t.posted| && t.posted[i].id == id;
      assert i < |s.posted| ==> s.posted[i].id == id;
    }
  }

  lemma DispatchTokens(s: State, h: Handler, id: nat)
    requires Enabled(s, Dispatch) && Numbered(s)
    ensures Tokens(Step(s, Dispatch), h, id) <= Tokens(s, h, id)
  {
    var p, t := s.posted[0], Step(s, Dispatch);
    if PassesFirstHop(s, p) {
      var hs := s.register[p.topic].handlers;
      CountCalls(hs, p, h, id);
      CountConcat(s.calls, CallsFor(hs, p), h, id);
    }
    hide Count;
    if Undispatched(t, id) && id < t.deliveryCount {
      var i :| 0 <= i < |t.posted| && t.posted[i].id == id;
      assert s.posted[i + 1].id == id;
    }
  }

  lemma CheckTokens(s: State, k: nat, h: Handler, id: nat)
    requires Enabled(s, Check(k))
    ensures Tokens(Step(s, Check(k)), h, id) <= Tokens(s, h, id)
  {
    CountRemoveAt(s.calls, k, h, id);
    CountConcat(s.checked, [s.calls[k]], h, id);
    assert Count([s.calls[k]], h, id) == if s.calls[k].handler == h && s.calls[k].id == id then 1 else 0;
    hide Count;
  }

  /** Each call uses up one token, and no step makes one. */
  lemma TokensStep(s: State, e: Event, h: Handler, id: nat)
    requires Enabled(s, e) && Numbered(s)
    ensures Tokens(Step(s, e), h, id) + (if Calls(s, e, h, id) then 1 else 0) <= Tokens(s, h, id)
  {
    match e {
      case Deliver(slot, payload) => DeliverTokens(s, slot, payload, h, id);
      case Dispatch => DispatchTokens(s, h, id);
      case Check(k) => CheckTokens(s, k, h, id);
      case Invoke(j) => CountRemoveAt(s.checked, j, h, id); hide Count;
      case _ => hide Count;
    }
  }

  lemma {:induction false} TokensInRun(ss: seq<State>, es: seq<Event>, a: nat, b: nat, h: Handler, id: nat)
    requires IsRun(ss, es) && a <= b <= |es|
    ensures Numbered(ss[b]) && Tokens(ss[b], h, id) <= Tokens(ss[a], h, id)
    decreases b
  {
    hide IsRun, Step, Enabled, Tokens, Numbered, Inv;
    if b == 0 {
      NumberedAtStart(ss, es);
    } else {
      RunInv(ss, es, b - 1);
      TokensInRun(ss, es, if a < b then a else b - 1, b - 1, h, id);
      NumberedStep(ss[b - 1], es[b - 1]);
      TokensStep(ss[b - 1], es[b - 1], h, id);
    }
  }

  lemma NumberedAtStart(ss: seq<State>, es: seq<Event>)
    requires IsRun(ss, es)
    ensures Numbered(ss[0])
  {
  }

  lemma OneTokenAtStart(ss: seq<State>, es: seq<Event>, h: Handler, id: nat)
    requires IsRun(ss, es)
    ensures Tokens(ss[0], h, id) == 1
  {
  }

  lemma {:induction false} CallIsCounted(cs: seq<Call>, j: nat)
    requires j < |cs|
    ensures Count(cs, cs[j].handler, cs[j].id) >= 1
  {
    if j < |cs| - 1 {
      assert cs[..|cs| - 1][j] == cs[j];
      CallIsCounted(cs[..|cs| - 1], j);
    }
  }

  /** No delivery reaches a handler twice: two calls of one handler are for different deliveries. */
  lemma AtMostOnce(ss: seq<State>, es: seq<Event>, a: nat, b: nat)
    requires IsRun(ss, es) && a < b < |es| && es[a].Invoke? && es[b].Invoke?
    requires es[a].j < |ss[a].checked| && es[b].j < |ss[b].checked|
    requires ss[a].checked[es[a].j].handler == ss[b].checked[es[b].j].handler
    ensures ss[a].checked[es[a].j].id != ss[b].checked[es[b].j].id
  {
    var c := ss[a].checked[es[a].j];
    if ss[b].checked[es[b].j].id == c.id {
      OneTokenAtStart(ss, es, c.handler, c.id);
      TokensInRun(ss, es, 0, a, c.handler, c.id);
      RunInv(ss, es, a);
      TokensStep(ss[a], es[a], c.handler, c.id);
      TokensInRun(ss, es, a + 1, b, c.handler, c.id);
      CallIsCounted(ss[b].checked, es[b].j);
      hide IsRun, Count, Inv, Step, Enabled, Numbered;
      assert false;
    }
  }
}
