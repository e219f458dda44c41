/** What the adapter answers: over every run the binding that is current, and the outcome of bind,
    registerTopic and publish, are determined by the calls so far and their arguments. */
module MqttHistory {
  import opened Common
  import opened MqttFenceModel
  import opened MqttFence

  // The identifier, address and generation number of a binding.
  datatype Binding = Binding(id: string, uri: string, gen: nat)

  predicate IsDown(es: seq<Event>, n: nat)
    requires n <= |es|
  {
    n > 0 && (es[n - 1].Shutdown? || IsDown(es, n - 1))
  }

  /** Event n is a bind that makes a new binding: the adapter is not shutting down, the client could be
      made, and the current binding, if there is one, has another identifier or another address. */
  predicate Rebinding(es: seq<Event>, n: nat)
    requires n < |es|
    decreases n, 1
  {
    && es[n].BeginBind? && !IsDown(es, n) && es[n].created
    && var b := Bound(es, n); b.Some? ==> b.value.id != es[n].id || b.value.uri != es[n].uri
  }

  // How many numbers have been given out: one for each new binding, one for the destructor.
  function Numbers(es: seq<Event>, n: nat): nat
    requires n <= |es|
    decreases n, 0
  {
    if n == 0 then 0
    else Numbers(es, n - 1) + if es[n - 1].Shutdown? || Rebinding(es, n - 1) then 1 else 0
  }

  // The binding that was made last.
  function Made(es: seq<Event>, n: nat): Option<Binding>
    requires n <= |es|
    decreases n, 0
  {
    if n == 0 then None
    else if Rebinding(es, n - 1) then Some(Binding(es[n - 1].id, es[n - 1].uri, Numbers(es, n - 1) + 1))
    else Made(es, n - 1)
  }

  /** The current binding: the one made last, once its snapshot is stored, until the destructor runs. */
  function Bound(es: seq<Event>, n: nat): Option<Binding>
    requires n <= |es|
    decreases n, 0
  {
    if n == 0 || es[n - 1].Shutdown? then None
    else if es[n - 1].StoreSnapshot? then Made(es, n - 1)
    else Bound(es, n - 1)
  }

  predicate IsSnapshot(x: Snapshot, b: Option<Binding>) {
    b == Some(Binding(x.client.id, x.client.uri, x.gen))
  }

  predicate Agrees(s: State, es: seq<Event>, n: nat)
    requires n <= |es|
  {
    && s.shuttingDown == IsDown(es, n) && s.generation == Numbers(es, n)
    && (if s.snapshot.Some? then IsSnapshot(s.snapshot.value, Bound(es, n)) else Bound(es, n) == None)
    && (!s.phase.Idle? ==> IsSnapshot(s.phase.next, Made(es, n)))
  }

  lemma BindIs(s: State, es: seq<Event>, n: nat)
    requires n < |es| && Agrees(s, es, n) && es[n].BeginBind?
    ensures BindResult(s, es[n].id, es[n].uri, es[n].created) ==
      if IsDown(es, n) then Failed
      else if Bound(es, n).Some? && Bound(es, n).value.id == es[n].id && Bound(es, n).value.uri == es[n].uri then
        Unchanged(Bound(es, n).value.gen)
      else if !es[n].created then Failed
      else Changed(Numbers(es, n) + 1)
    ensures BindResult(s, es[n].id, es[n].uri, es[n].created).Changed? <==> Rebinding(es, n)
  {
    hide Numbers, Made, Bound, IsDown;
  }

  lemma AgreesNext(s: State, es: seq<Event>, n: nat)
    requires n < |es| && Agrees(s, es, n) && Enabled(s, es[n])
    ensures Agrees(Step(s, es[n]), es, n + 1)
  {
    NotRebinding(es, n);
    var e := es[n];
    if e.BeginBind? {
      BindIs(s, es, n);
      hide BindResult, Rebinding;
    } else if e.StoreSnapshot? || e.ClearRegister? || e.Shutdown? {
      hide Rebinding;
    } else {
      MessagesKeep(s, e);
      hide Rebinding, Step, Enabled;
    }
  }

  lemma MessagesKeep(s: State, e: Event)
    requires Enabled(s, e) && !e.BeginBind? && !e.StoreSnapshot? && !e.ClearRegister? && !e.Shutdown?
    ensures Step(s, e).snapshot == s.snapshot && Step(s, e).generation == s.generation
    ensures Step(s, e).phase == s.phase && Step(s, e).shuttingDown == s.shuttingDown
  {
  }

  lemma NotRebinding(es: seq<Event>, n: nat)
    requires n < |es|
    ensures Rebinding(es, n) ==> es[n].BeginBind?
  {
  }

  lemma {:induction false} AgreesInRun(ss: seq<State>, es: seq<Event>, n: nat)
    requires IsRun(ss, es) && n <= |es|
    ensures Agrees(ss[n], es, n)
  {
    if n > 0 {
      RunInv(ss, es, n - 1);
      hide IsRun, Inv, Step, Enabled, Agrees;
      AgreesInRun(ss, es, n - 1);
      AgreesNext(ss[n - 1], es, n - 1);
    }
  }

  /** bind(): it fails while the adapter shuts down; it changes nothing exactly if the current binding has
      both the same identifier and the same address; otherwise it fails if the client cannot be made, and
      gives out the next number if it can. */
  lemma BindOutcome(ss: seq<State>, es: seq<Event>, n: nat)
    requires IsRun(ss, es) && n < |es| && es[n].BeginBind?
    ensures BindResult(ss[n], es[n].id, es[n].uri, es[n].created) ==
      if IsDown(es, n) then Failed
      else if Bound(es, n).Some? && Bound(es, n).value.id == es[n].id && Bound(es, n).value.uri == es[n].uri then
        Unchanged(Bound(es, n).value.gen)
      else if !es[n].created then Failed
      else Changed(Numbers(es, n) + 1)
  {
    AgreesInRun(ss, es, n);
    hide IsRun, BindResult, Agrees;
    BindIs(ss[n], es, n);
  }

  lemma NumbersArePositive(ss: seq<State>, es: seq<Event>, n: nat)
    requires IsRun(ss, es) && n <= |es| && ss[n].snapshot.Some?
    ensures ss[n].snapshot.value.gen > 0 && !ss[n].shuttingDown
  {
    RunInv(ss, es, n);
    hide IsRun;
  }

  /** registerTopic(): shutting down, no context, an empty topic or no handler is the adapter's rejection;
      then no binding is another; otherwise the handler is registered. */
  lemma RegisterOutcome(ss: seq<State>, es: seq<Event>, n: nat, context: bool, topic: Topic, handler: bool)
    requires IsRun(ss, es) && n <= |es|
    ensures var r := RegisterResult(ss[n], context, topic, handler);
      var refused := IsDown(es, n) || !context || |topic.name| == 0 || !handler;
      && (r == AdapterRejected <==> refused)
      && (r == NoBinding <==> !refused && Bound(es, n).None?)
      && (r == Registered <==> !refused && Bound(es, n).Some?)
  {
    AgreesInRun(ss, es, n);
    if ss[n].snapshot.Some? { NumbersArePositive(ss, es, n); }
    hide IsRun, IsDown, Bound, Numbers, Made;
  }

  /** publish(): it is rejected as shutting down, without a binding, or as stale if the number is not the
      current binding's; otherwise it goes on to a client with the current identifier and address. */
  lemma PublishOutcome(ss: seq<State>, es: seq<Event>, n: nat, gen: nat)
    requires IsRun(ss, es) && n <= |es|
    ensures var r := PublishResult(ss[n], gen); var b := Bound(es, n);
      && (r == AdapterDown <==> IsDown(es, n))
      && (r == NoClient <==> !IsDown(es, n) && b.None?)
      && (r == StaleGeneration <==> !IsDown(es, n) && b.Some? && b.value.gen != gen)
      && (r.Passed? <==> !IsDown(es, n) && b.Some? && b.value.gen == gen)
      && (r.Passed? ==> r.client.id == b.value.id && r.client.uri == b.value.uri)
  {
    AgreesInRun(ss, es, n);
    if ss[n].snapshot.Some? { NumbersArePositive(ss, es, n); }
    hide IsRun, IsDown, Bound, Numbers, Made;
  }
}
