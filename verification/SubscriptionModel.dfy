/** Subscriptions of the MQTT client: registerTopic's two steps in any number of threads, against
    connecting, losing the connection and subscribeAll on the client's callback thread. */
module SubscriptionModel {
  import opened Common

  type Thread = nat

  /** accepted and refused are the topics for which a subscribe was issued on the current
      connection: refused if the client library threw. */
  datatype State = State(
    topics: set<Topic>, connected: bool,
    accepted: set<Topic>, refused: set<Topic>,
    pending: map<Thread, Topic>,      // registerTopic between its insertion and its subscribe
    callbacks: nat,                   // `connected` callbacks not started yet
    syncing: Option<set<Topic>>)      // subscribeAll under its shared lock: the topics still to do
  {
    predicate Issued(t: Topic) { t in accepted || t in refused }

    predicate Quiet() { pending == map[] && callbacks == 0 && syncing == None }
  }

  predicate Initial(s: State) {
    s == State({}, false, {}, {}, map[], 0, None)
  }

  datatype Event =
    | Insert(thread: Thread, topic: Topic)       // registerTopic under the unique lock
    | Subscribe(thread: Thread, throws: bool)    // and its subscribe, if the topic was new
    | Connect | Lose
    | BeginSync                                  // a `connected` callback enters subscribeAll
    | SyncOne(topic: Topic, throws: bool)
    | EndSync

  /** The unique lock keeps insertions out while subscribeAll holds the shared one; callbacks run
      one after another. */
  predicate Enabled(s: State, e: Event) {
    match e
    case Insert(th, _) => th !in s.pending && s.syncing == None
    case Subscribe(th, _) => th in s.pending
    case Connect => !s.connected
    case Lose => s.connected
    case BeginSync => s.callbacks > 0 && s.syncing == None
    case SyncOne(t, _) => s.syncing.Some? && t in s.syncing.value
    case EndSync => s.syncing == Some({})
  }

  // A subscribe without a connection throws and is issued nowhere.
  function Issue(s: State, t: Topic, throws: bool): State {
    if !s.connected then s
    else if throws then s.(refused := s.refused + {t})
    else s.(accepted := s.accepted + {t})
  }

  function Step(s: State, e: Event): State
    requires Enabled(s, e)
  {
    match e
    case Insert(th, t) =>
      if t in s.topics then s else s.(topics := s.topics + {t}, pending := s.pending[th := t])
    case Subscribe(th, throws) => Issue(s, s.pending[th], throws).(pending := s.pending - {th})
    case Connect => s.(connected := true, accepted := {}, refused := {}, callbacks := s.callbacks + 1)
    case Lose => s.(connected := false, accepted := {}, refused := {})
    case BeginSync => s.(callbacks := s.callbacks - 1, syncing := Some(s.topics))
    case SyncOne(t, throws) => Issue(s, t, throws).(syncing := Some(s.syncing.value - {t}))
    case EndSync => s.(syncing := None)
  }

  // ---------------------------------------------------------------------------------------
  // No lost subscription

  /** While connected, a registered topic without a subscribe has one coming: from the thread that
      registered it, from the synchronisation under way, or from one that has still to start. */
  predicate Inv(s: State) {
    s.connected ==> forall t | t in s.topics ::
      s.Issued(t) || s.callbacks > 0 || (s.syncing.Some? && t in s.syncing.value) || t in s.pending.Values
  }

  lemma IssueKeeps(s: State, e: Event, t: Topic)
    requires Enabled(s, e) && s.connected && Step(s, e).connected && s.Issued(t)
    ensures Step(s, e).Issued(t)
  {
  }

  lemma PendingStep(s: State, e: Event, t: Topic)
    requires Enabled(s, e) && s.connected && Step(s, e).connected && t in s.pending.Values
    ensures Step(s, e).Issued(t) || t in Step(s, e).pending.Values
  {
    var th :| th in s.pending && s.pending[th] == t;
    if e.Subscribe? && e.thread == th {
    } else {
      assert th in Step(s, e).pending && Step(s, e).pending[th] == t;
    }
  }

  lemma StepInv(s: State, e: Event)
    requires Inv(s) && Enabled(s, e)
    ensures Inv(Step(s, e))
  {
    var u := Step(s, e);
    if s.connected && u.connected {
      forall t | t in u.topics
        ensures u.Issued(t) || u.callbacks > 0 || (u.syncing.Some? && t in u.syncing.value) || t in u.pending.Values
      {
        if t !in s.topics {
          assert u.pending[e.thread] == t;
        } else if s.Issued(t) {
          IssueKeeps(s, e, t);
        } else if t in s.pending.Values {
          PendingStep(s, e, t);
        }
      }
    }
  }

  ghost predicate IsRun(ss: seq<State>, es: seq<Event>)
    ensures IsRun(ss, es) ==> |ss| == |es| + 1
  {
    && |ss| == |es| + 1
    && Initial(ss[0])
    && forall n | 0 <= n < |es| :: IsStep(ss[n], es[n], ss[n + 1])
  }

  ghost predicate IsStep(s: State, e: Event, t: State) {
    Enabled(s, e) && t == Step(s, e)
  }

  lemma {:induction false} RunInv(ss: seq<State>, es: seq<Event>, n: nat)
    requires IsRun(ss, es) && n <= |es|
    ensures Inv(ss[n])
  {
    if n > 0 {
      RunInv(ss, es, n - 1);
      assert IsStep(ss[n - 1], es[n - 1], ss[n]);
      hide IsRun, Inv, Step, Enabled;
      StepInv(ss[n - 1], es[n - 1]);
    }
  }

  /** In every interleaving: once no registration, callback or synchronisation is under way and the
      client is connected, every registered topic has had a subscribe on the current connection,
      and is subscribed unless the client library refused it. */
  lemma NoLostSubscription(ss: seq<State>, es: seq<Event>, n: nat, t: Topic)
    requires IsRun(ss, es) && n <= |es| && ss[n].connected && ss[n].Quiet() && t in ss[n].topics
    ensures ss[n].Issued(t)
    ensures t !in ss[n].refused ==> t in ss[n].accepted
  {
    RunInv(ss, es, n);
  }

  // ---------------------------------------------------------------------------------------
  // What is under way comes to an end

  predicate IsWork(e: Event) { e.Subscribe? || e.BeginSync? || e.SyncOne? || e.EndSync? }

  // A synchronisation still to start: one step in, one per topic, one out.
  function SyncWork(callbacks: nat, topics: nat): (r: nat)
    ensures callbacks == 0 <==> r == 0
  {
    if callbacks == 0 then 0 else SyncWork(callbacks - 1, topics) + topics + 2
  }

  function Work(s: State): nat {
    |s.pending| + SyncWork(s.callbacks, |s.topics|) + if s.syncing.Some? then |s.syncing.value| + 1 else 0
  }

  lemma MapRemove(m: map<Thread, Topic>, th: Thread)
    requires th in m
    ensures |m - {th}| == |m| - 1
  {
    assert (m - {th}).Keys == m.Keys - {th};
    assert |m| == |m.Keys| && |m - {th}| == |(m - {th}).Keys|;
  }

  /** Each step of work under way uses up one unit, none is added by it, and some step is enabled
      until all is quiet; so the work ends, in any order, without a new connection or topic. */
  lemma WorkEnds(s: State, e: Event)
    requires Enabled(s, e) && IsWork(e)
    ensures Work(Step(s, e)) == Work(s) - 1
    ensures Step(s, e).connected == s.connected && Step(s, e).topics == s.topics
  {
    if e.Subscribe? { MapRemove(s.pending, e.thread); }
  }

  lemma WorkIsEnabled(s: State) returns (e: Event)
    requires !s.Quiet()
    ensures IsWork(e) && Enabled(s, e)
  {
    if s.pending != map[] {
      var th :| th in s.pending;
      e := Subscribe(th, false);
    } else if s.syncing == Some({}) {
      e := EndSync;
    } else if s.syncing.Some? {
      assert s.syncing.value != {};
      var t :| t in s.syncing.value;
      e := SyncOne(t, false);
    } else {
      e := BeginSync;
    }
  }

  lemma QuietIsNoWork(s: State)
    ensures s.Quiet() <==> Work(s) == 0
  {
    assert s.pending != map[] ==> |s.pending| > 0 by {
      if s.pending != map[] {
        var th :| th in s.pending;
        MapRemove(s.pending, th);
      }
    }
  }

  /** From any connected state of any run: after as many steps of the work under way as there are,
      in whatever order they come, every registered topic has its subscribe. */
  lemma {:induction false} DrainedIsSubscribed(ss: seq<State>, es: seq<Event>, n: nat, m: nat)
    requires IsRun(ss, es) && n <= m <= |es| && ss[n].connected
    requires (forall i | n <= i < m :: IsWork(es[i])) && m - n == Work(ss[n])
    ensures ss[m].topics == ss[n].topics && ss[m].Quiet()
    ensures forall t | t in ss[n].topics :: ss[m].Issued(t)
    decreases m - n
  {
    QuietIsNoWork(ss[n]);
    if n == m {
      RunInv(ss, es, n);
    } else {
      assert IsStep(ss[n], es[n], ss[n + 1]);
      hide IsRun, Step, Enabled, Work;
      WorkEnds(ss[n], es[n]);
      DrainedIsSubscribed(ss, es, n + 1, m);
    }
  }

  // ---------------------------------------------------------------------------------------
  // subscribeAll without interruption

  /** What a synchronisation under way leaves behind if nothing else happens; `throwing` are the
      topics that the client library refuses. */
  function AfterSync(s: State, throwing: set<Topic>): State
    requires s.syncing.Some?
  {
    var todo := s.syncing.value;
    if s.connected then
      s.(accepted := s.accepted + (todo - throwing), refused := s.refused + todo * throwing, syncing := None)
    else s.(syncing := None)
  }

  /** Its steps lead there in every order. */
  lemma SyncOneKeeps(s: State, t: Topic, throwing: set<Topic>)
    requires Enabled(s, SyncOne(t, t in throwing))
    ensures Step(s, SyncOne(t, t in throwing)).syncing.Some?
    ensures AfterSync(Step(s, SyncOne(t, t in throwing)), throwing) == AfterSync(s, throwing)
  {
    var u := Step(s, SyncOne(t, t in throwing));
    var todo := s.syncing.value;
    if s.connected {
      if t in throwing {
        assert todo - {t} - throwing == todo - throwing;
        assert s.refused + {t} + (todo - {t}) * throwing == s.refused + todo * throwing;
      } else {
        assert s.accepted + {t} + (todo - {t} - throwing) == s.accepted + (todo - throwing);
        assert (todo - {t}) * throwing == todo * throwing;
      }
    }
  }

  lemma SyncEnds(s: State, throwing: set<Topic>)
    requires Enabled(s, EndSync)
    ensures AfterSync(s, throwing) == Step(s, EndSync) == s.(syncing := None)
  {
    assert s.accepted + ({} - throwing) == s.accepted && s.refused + {} * throwing == s.refused;
  }

  // ---------------------------------------------------------------------------------------
  // subscribeAll among other threads

  /** The state that the events lead to, if each is enabled when it comes. */
  function After(s: State, es: seq<Event>): Option<State> {
    if es == [] then Some(s)
    else
      var u, e := After(s, es[..|es| - 1]), es[|es| - 1];
      if u.Some? && Enabled(u.value, e) then Some(Step(u.value, e)) else None
  }

  lemma AfterOneMore(s: State, es: seq<Event>, e: Event)
    requires After(s, es).Some? && Enabled(After(s, es).value, e)
    ensures After(s, es + [e]) == Some(Step(After(s, es).value, e))
  {
    assert (es + [e])[..|es|] == es;
  }

  // The topics that the events have tried to synchronise, and those of them whose subscribe threw.
  function Tried(es: seq<Event>): set<Topic> {
    if es == [] then {}
    else Tried(es[..|es| - 1]) + if es[|es| - 1].SyncOne? then {es[|es| - 1].topic} else {}
  }

  function Failed(s: State, es: seq<Event>): set<Topic> {
    if es == [] then {}
    else
      var u, e := After(s, es[..|es| - 1]), es[|es| - 1];
      Failed(s, es[..|es| - 1]) + if e.SyncOne? && u.Some? && (!u.value.connected || e.throws) then {e.topic} else {}
  }

  lemma FailedOneMore(s: State, es: seq<Event>, e: Event)
    requires After(s, es).Some?
    ensures Tried(es + [e]) == Tried(es) + if e.SyncOne? then {e.topic} else {}
    ensures Failed(s, es + [e]) ==
      Failed(s, es) + if e.SyncOne? && (!After(s, es).value.connected || e.throws) then {e.topic} else {}
  {
    assert (es + [e])[..|es|] == es;
  }
}
