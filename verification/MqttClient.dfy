/** The MQTT client's class: its registration and synchronisation are the steps of
    SubscriptionModel. */
module MqttClient {
  import opened Common
  import opened SubscriptionModel

  type Handler = nat     // stands for a function
  type Connection = nat  // of a handler to its topic's signal

  // How far a loop over `all` has come: failed are those of the topics done whose subscribe threw.
  predicate Progress(all: set<Topic>, todo: set<Topic>, failed: set<Topic>, connected: bool, throwing: set<Topic>) {
    todo <= all && failed == if connected then (all - todo) * throwing else all - todo
  }

  lemma ProgressStarts(all: set<Topic>, connected: bool, throwing: set<Topic>)
    ensures Progress(all, all, {}, connected, throwing)
  {
  }

  lemma ProgressStep(all: set<Topic>, todo: set<Topic>, failed: set<Topic>,
                     connected: bool, throwing: set<Topic>, t: Topic)
    requires Progress(all, todo, failed, connected, throwing) && t in todo
    ensures Progress(all, todo - {t}, if !connected || t in throwing then failed + {t} else failed, connected, throwing)
  {
    assert all - (todo - {t}) == all - todo + {t};
  }

  lemma ProgressEnds(all: set<Topic>, failed: set<Topic>, connected: bool, throwing: set<Topic>)
    requires Progress(all, {}, failed, connected, throwing)
    ensures failed == if connected then all * throwing else all
  {
    assert all - {} == all;
  }

  // ---------------------------------------------------------------------------------------
  // What was registered, and what of it is still connected

  function TopicsOf(registered: seq<(Topic, Handler)>): set<Topic> {
    set r | r in registered :: r.0
  }

  // A registration is numbered by its place; this one is of the topic and was not disconnected.
  predicate IsLive(registered: seq<(Topic, Handler)>, gone: set<Connection>, t: Topic, c: Connection, h: Handler) {
    c < |registered| && c !in gone && registered[c] == (t, h)
  }

  // Nothing of the topic was ever disconnected.
  predicate Untouched(registered: seq<(Topic, Handler)>, gone: set<Connection>, t: Topic) {
    forall c | c in gone && c < |registered| :: registered[c].0 != t
  }

  // The live registrations of a topic, in order.
  function LiveOf(registered: seq<(Topic, Handler)>, gone: set<Connection>, t: Topic): seq<(Connection, Handler)> {
    if registered == [] then []
    else
      var n := |registered| - 1;
      LiveOf(registered[..n], gone, t) + if registered[n].0 == t && n !in gone then [(n, registered[n].1)] else []
  }

  lemma {:induction false} LiveIs(registered: seq<(Topic, Handler)>, gone: set<Connection>, t: Topic)
    ensures forall c: Connection, h: Handler ::
      multiset(LiveOf(registered, gone, t))[(c, h)] == if IsLive(registered, gone, t, c, h) then 1 else 0
  {
    if registered != [] {
      var n := |registered| - 1;
      LiveIs(registered[..n], gone, t);
      forall c: Connection, h: Handler
        ensures multiset(LiveOf(registered, gone, t))[(c, h)] == if IsLive(registered, gone, t, c, h) then 1 else 0
      {
        assert IsLive(registered[..n], gone, t, c, h) <==> IsLive(registered, gone, t, c, h) && c < n;
      }
    }
  }

  lemma OneMoreHandler(registered: seq<(Topic, Handler)>, gone: set<Connection>, topic: Topic, h: Handler)
    requires forall c | c in gone :: c < |registered|
    ensures forall t :: Untouched(registered + [(topic, h)], gone, t) <==> Untouched(registered, gone, t)
    ensures TopicsOf(registered + [(topic, h)]) == TopicsOf(registered) + {topic}
    ensures forall t | t != topic :: LiveOf(registered + [(topic, h)], gone, t) == LiveOf(registered, gone, t)
    ensures LiveOf(registered + [(topic, h)], gone, topic) == LiveOf(registered, gone, topic) + [(|registered|, h)]
  {
    var all := registered + [(topic, h)];
    assert all[..|all| - 1] == registered;
    assert all[|registered|] in all && forall r | r in registered :: r in all;
  }

  lemma {:induction false} NoneLive(registered: seq<(Topic, Handler)>, gone: set<Connection>, t: Topic)
    requires t !in TopicsOf(registered)
    ensures LiveOf(registered, gone, t) == []
  {
    if registered != [] {
      NoneLive(registered[..|registered| - 1], gone, t);
      assert registered[|registered| - 1] in registered;
    }
  }

  // A list of connections, in any order, after one of them was disconnected.
  ghost predicate IsWithout(slots: seq<(Connection, Handler)>, conn: Connection, rest: seq<(Connection, Handler)>) {
    forall c: Connection, h: Handler :: multiset(rest)[(c, h)] == if c == conn then 0 else multiset(slots)[(c, h)]
  }

  // The live registrations of all topics after one registration, of the given topic, is gone.
  lemma OneGone(registered: seq<(Topic, Handler)>, gone: set<Connection>, conn: Connection, topic: Topic,
                slots: seq<(Connection, Handler)>, rest: seq<(Connection, Handler)>)
    requires conn < |registered| && registered[conn].0 == topic
    requires multiset(slots) == multiset(LiveOf(registered, gone, topic)) && IsWithout(slots, conn, rest)
    ensures multiset(rest) == multiset(LiveOf(registered, gone + {conn}, topic))
    ensures forall t | t != topic :: LiveOf(registered, gone + {conn}, t) == LiveOf(registered, gone, t)
    ensures forall t | t != topic ::
      Untouched(registered, gone + {conn}, t) ==> Untouched(registered, gone, t)
  {
    LiveIs(registered, gone, topic);
    LiveIs(registered, gone + {conn}, topic);
    forall x: (Connection, Handler)
      ensures multiset(rest)[x] == multiset(LiveOf(registered, gone + {conn}, topic))[x]
    {
      assert x == (x.0, x.1);
    }
    forall t | t != topic
      ensures LiveOf(registered, gone + {conn}, t) == LiveOf(registered, gone, t)
    {
      OthersStay(registered, gone, conn, t);
    }
  }

  lemma {:induction false} OthersStay(registered: seq<(Topic, Handler)>, gone: set<Connection>,
                                      conn: Connection, t: Topic)
    requires conn < |registered| ==> registered[conn].0 != t
    ensures LiveOf(registered, gone + {conn}, t) == LiveOf(registered, gone, t)
  {
    if registered != [] {
      OthersStay(registered[..|registered| - 1], gone, conn, t);
    }
  }

  // The trace with the event that is about to happen, for the proof of its three records.
  lemma Happened(s: State, trace: seq<Event>, e: Event)
    requires After(s, trace).Some? && Enabled(After(s, trace).value, e)
    ensures After(s, trace + [e]) == Some(Step(After(s, trace).value, e))
    ensures Tried(trace + [e]) == Tried(trace) + if e.SyncOne? then {e.topic} else {}
    ensures Failed(s, trace + [e]) ==
      Failed(s, trace) + if e.SyncOne? && (!After(s, trace).value.connected || e.throws) then {e.topic} else {}
  {
    hide *;
    AfterOneMore(s, trace, e);
    FailedOneMore(s, trace, e);
  }

  lemma Begun(s: State)
    requires Enabled(s, BeginSync)
    ensures After(s, [BeginSync]) == Some(Step(s, BeginSync))
    ensures Tried([BeginSync]) == {} && Failed(s, [BeginSync]) == {}
  {
    assert [BeginSync][..0] == [];
  }

  class TMqttClient {
    var topicRegister: map<Topic, seq<(Connection, Handler)>>
    var connectionCount: nat
    // The client library's side, threads inside registerTopic, callbacks due.
    var connected: bool
    var accepted: set<Topic>
    var refused: set<Topic>
    var pending: map<Thread, Topic>
    var callbacks: nat
    var syncing: Option<set<Topic>>
    ghost var registered: seq<(Topic, Handler)>  // every registration there has been
    ghost var gone: set<Connection>              // and those that were disconnected

    /** The register files, under each topic ever registered, the registrations that are still
        connected, each once; in their order, if none of the topic was disconnected. */
    ghost predicate Filed()
      reads `topicRegister, `connectionCount, `registered, `gone
    {
      && connectionCount == |registered| && (forall c | c in gone :: c < |registered|)
      && topicRegister.Keys == TopicsOf(registered)
      && (forall t | t in topicRegister :: multiset(topicRegister[t]) == multiset(LiveOf(registered, gone, t)))
      && (forall t | t in topicRegister && Untouched(registered, gone, t) ::
            topicRegister[t] == LiveOf(registered, gone, t))
    }

    ghost function Model(): State
      reads this
    {
      State(topicRegister.Keys, connected, accepted, refused, pending, callbacks, syncing)
    }

    constructor ()
      ensures Initial(Model()) && Filed() && registered == [] && gone == {}
    {
      registered, gone, connectionCount := [], {}, 0;
      topicRegister, connected, accepted, refused, pending, callbacks, syncing := map[], false, {}, {}, map[], 0, None;
    }

    /** The library's subscribe: throws without a connection, and if it refuses the topic. */
    method TrySubscribe(t: Topic, refuses: bool) returns (threw: bool)
      modifies `accepted, `refused
      ensures Model() == Issue(old(Model()), t, refuses)
      ensures threw == (!connected || refuses)
    {
      if !connected {
        return true;
      }
      if refuses {
        refused := refused + {t};
        return true;
      }
      accepted := accepted + {t};
      return false;
    }

    // try_emplace and connect.
    method FileHandler(topic: Topic, handler: Handler) returns (conn: Connection)
      requires Filed()
      modifies `topicRegister, `connectionCount, `registered
      ensures Filed() && registered == old(registered) + [(topic, handler)] && conn == |old(registered)|
      ensures topicRegister.Keys == old(topicRegister).Keys + {topic}
    {
      hide LiveOf, TopicsOf;
      OneMoreHandler(registered, gone, topic, handler);
      if topic !in topicRegister { NoneLive(registered, gone, topic); }
      conn := connectionCount;
      connectionCount := connectionCount + 1;
      var slots := if topic in topicRegister then topicRegister[topic] else [];
      topicRegister := topicRegister[topic := slots + [(conn, handler)]];
      registered := registered + [(topic, handler)];
    }

    /** registerTopic under its lock: the handler is filed under its topic, after those before it. */
    method InsertHandler(thread: Thread, topic: Topic, handler: Handler) returns (conn: Connection, isNewTopic: bool)
      requires thread !in pending && syncing == None && Filed()
      modifies `topicRegister, `connectionCount, `pending, `registered
      ensures Model() == Step(old(Model()), Insert(thread, topic))
      ensures isNewTopic == (topic !in TopicsOf(old(registered))) && conn == |old(registered)|
      ensures Filed() && registered == old(registered) + [(topic, handler)]
    {
      hide LiveOf, TopicsOf;
      isNewTopic := topic !in topicRegister;
      if isNewTopic {
        pending := pending[thread := topic];
      }
      conn := FileHandler(topic, handler);
      assert !isNewTopic ==> old(topicRegister).Keys + {topic} == old(topicRegister).Keys;
    }

    /** The rest of registerTopic for a new topic; a failure is ignored. */
    method SubscribeNew(thread: Thread, refuses: bool)
      requires thread in pending
      modifies `accepted, `refused, `pending
      ensures Model() == Step(old(Model()), Subscribe(thread, refuses))
    {
      var _ := TrySubscribe(pending[thread], refuses);
      pending := pending - {thread};
    }

    method OnConnect()
      requires !connected
      modifies `connected, `accepted, `refused, `callbacks
      ensures Model() == Step(old(Model()), Connect)
    {
      connected, accepted, refused, callbacks := true, {}, {}, callbacks + 1;
    }

    method OnConnectionLost()
      requires connected
      modifies `connected, `accepted, `refused
      ensures Model() == Step(old(Model()), Lose)
    {
      connected, accepted, refused := false, {}, {};
    }

    // One turn of subscribeAll's loop.
    method SubscribeNext(t: Topic, refuses: bool) returns (threw: bool)
      requires syncing.Some? && t in syncing.value
      modifies `accepted, `refused, `syncing
      ensures Model() == Step(old(Model()), SyncOne(t, refuses))
      ensures threw == (!connected || refuses) && syncing == Some(old(syncing).value - {t})
    {
      threw := TrySubscribe(t, refuses);
      syncing := Some(syncing.value - {t});
    }

    // What other threads do between two turns, as far as it is possible when it comes.
    method Interfere(steps: seq<Event>, ghost s: State, ghost trace: seq<Event>) returns (ghost trace': seq<Event>)
      requires After(s, trace) == Some(Model())
      modifies `connected, `accepted, `refused, `callbacks, `pending
      ensures After(s, trace') == Some(Model()) && (steps == [] ==> trace' == trace && Model() == old(Model()))
      ensures Tried(trace') == Tried(trace) && Failed(s, trace') == Failed(s, trace)
    {
      trace' := trace;
      var i := 0;
      while i < |steps|
        invariant 0 <= i <= |steps| && syncing == old(syncing)
        invariant After(s, trace') == Some(Model())
        invariant Tried(trace') == Tried(trace) && Failed(s, trace') == Failed(s, trace)
        invariant i == 0 ==> trace' == trace && Model() == old(Model())
      {
        var done := InterfereOnce(steps[i], s, trace');
        if done {
          trace' := trace' + [steps[i]];
        }
        i := i + 1;
      }
    }

    method InterfereOnce(e: Event, ghost s: State, ghost trace: seq<Event>) returns (done: bool)
      requires After(s, trace) == Some(Model())
      modifies `connected, `accepted, `refused, `callbacks, `pending
      ensures !done ==> Model() == old(Model())
      ensures done ==> After(s, trace + [e]) == Some(Model())
      ensures done ==> Tried(trace + [e]) == Tried(trace) && Failed(s, trace + [e]) == Failed(s, trace)
    {
      ghost var u := Model();
      done := false;
      match e {
        case Connect =>
          if !connected { OnConnect(); done := true; }
        case Lose =>
          if connected { OnConnectionLost(); done := true; }
        case Subscribe(th, refuses) =>
          if th in pending { SubscribeNew(th, refuses); done := true; }
        case _ =>
      }
      if done {
        AfterOneMore(s, trace, e);
        FailedOneMore(s, trace, e);
      }
    }

    /** subscribeAll, run by a `connected` callback, while the connection comes and goes and other
        threads subscribe (`others` says what they do before each turn; the lock keeps registrations
        out). `trace` is what has happened: a synchronisation that tries every topic there is. The
        topics reported as failed are exactly those whose subscribe threw. */
    method SubscribeAll(throwing: set<Topic>, others: seq<seq<Event>>)
      returns (failedTopics: set<Topic>, ghost trace: seq<Event>)
      requires callbacks > 0 && syncing == None
      modifies `callbacks, `syncing, `accepted, `refused, `connected, `pending
      ensures After(old(Model()), trace) == Some(Model()) && syncing == None
      ensures Tried(trace) == topicRegister.Keys && failedTopics == Failed(old(Model()), trace)
    {
      hide Synchronising, Step;
      ghost var s := Model();
      BeginSynchronising(s);
      failedTopics := {};
      trace := [BeginSync];
      var turn := 0;
      while syncing != Some({})
        invariant syncing.Some? && Synchronising(s, trace, failedTopics)
        decreases if syncing.Some? then |syncing.value| else 0
      {
        trace := LetOthers(if turn < |others| then others[turn] else [], failedTopics, s, trace);
        failedTopics, trace := TakeTurn(throwing, failedTopics, s, trace);
        turn := turn + 1;
      }
      trace := EndSynchronising(failedTopics, s, trace);
    }

    // A synchronisation that began in state s is under way; trace and failures are recorded.
    ghost predicate Synchronising(s: State, trace: seq<Event>, failedTopics: set<Topic>)
      reads this
      ensures Synchronising(s, trace, failedTopics) ==> syncing.Some?
    {
      && syncing.Some? && syncing.value <= topicRegister.Keys && After(s, trace) == Some(Model())
      && Tried(trace) == topicRegister.Keys - syncing.value && failedTopics == Failed(s, trace)
    }

    method LetOthers(steps: seq<Event>, failedTopics: set<Topic>, ghost s: State, ghost trace: seq<Event>)
      returns (ghost trace': seq<Event>)
      requires Synchronising(s, trace, failedTopics)
      modifies `connected, `accepted, `refused, `callbacks, `pending
      ensures Synchronising(s, trace', failedTopics)
    {
      hide After, Tried, Failed;
      trace' := Interfere(steps, s, trace);
    }

    method TakeTurn(throwing: set<Topic>, failedTopics: set<Topic>, ghost s: State, ghost trace: seq<Event>)
      returns (failed: set<Topic>, ghost trace': seq<Event>)
      requires Synchronising(s, trace, failedTopics) && syncing != Some({})
      modifies `syncing, `accepted, `refused
      ensures Synchronising(s, trace', failed) && |syncing.value| < |old(syncing).value|
    {
      hide After, Tried, Failed, Issue, Step;
      assert syncing.value != {};
      var t :| t in syncing.value;
      Happened(s, trace, SyncOne(t, t in throwing));
      trace' := trace + [SyncOne(t, t in throwing)];
      var threw := SubscribeNext(t, t in throwing);
      failed := if threw then failedTopics + {t} else failedTopics;
    }

    method BeginSynchronising(ghost s: State)
      requires callbacks > 0 && syncing == None && s == Model()
      modifies `callbacks, `syncing
      ensures Synchronising(s, [BeginSync], {})
    {
      Begun(s);
      hide After, Tried, Failed;
      callbacks := callbacks - 1;
      syncing := Some(topicRegister.Keys);
    }

    method EndSynchronising(failedTopics: set<Topic>, ghost s: State, ghost trace: seq<Event>)
      returns (ghost trace': seq<Event>)
      requires syncing == Some({}) && Synchronising(s, trace, failedTopics)
      modifies `syncing
      ensures After(s, trace') == Some(Model()) && syncing == None
      ensures Tried(trace') == topicRegister.Keys && failedTopics == Failed(s, trace')
    {
      Happened(s, trace, EndSync);
      hide After, Tried, Failed;
      trace' := trace + [EndSync];
      syncing := None;
    }

    /** The same when nothing else happens meanwhile: the state is the one that all orders of the turns
        lead to. */
    method SubscribeAllAlone(throwing: set<Topic>) returns (failedTopics: set<Topic>)
      requires callbacks > 0 && syncing == None
      modifies `callbacks, `syncing, `accepted, `refused
      ensures Model() == AfterSync(Step(old(Model()), BeginSync), throwing)
      ensures failedTopics == if connected then topicRegister.Keys * throwing else topicRegister.Keys
    {
      hide AfterSync, Progress;
      callbacks := callbacks - 1;
      syncing := Some(topicRegister.Keys);
      ghost var begun := Model();
      assert begun == Step(old(Model()), BeginSync);
      hide Step, Issue;
      failedTopics := {};
      ProgressStarts(topicRegister.Keys, connected, throwing);
      while syncing != Some({})
        invariant syncing.Some? && Progress(topicRegister.Keys, syncing.value, failedTopics, connected, throwing)
        invariant AfterSync(Model(), throwing) == AfterSync(begun, throwing)
        decreases if syncing.Some? then |syncing.value| else 0
      {
        assert syncing.value != {};
        var t :| t in syncing.value;
        SyncOneKeeps(Model(), t, throwing);
        ProgressStep(topicRegister.Keys, syncing.value, failedTopics, connected, throwing, t);
        var threw := SubscribeNext(t, t in throwing);
        if threw {
          failedTopics := failedTopics + {t};
        }
      }
      SyncEnds(Model(), throwing);
      ProgressEnds(topicRegister.Keys, failedTopics, connected, throwing);
      syncing := None;
    }

    /** A connection that registerTopic returned is disconnected. The topic stays; the signal may keep its
        other connections in another order. */
    method Disconnect(topic: Topic, conn: Connection, rest: seq<(Connection, Handler)>)
      requires Filed() && conn < |registered| && registered[conn].0 == topic
      requires topic in topicRegister && IsWithout(topicRegister[topic], conn, rest)
      modifies `topicRegister, `gone
      ensures Filed() && Model() == old(Model()) && gone == old(gone) + {conn}
    {
      hide LiveOf, TopicsOf, IsWithout;
      OneGone(registered, gone, conn, topic, topicRegister[topic], rest);
      topicRegister := topicRegister[topic := rest];
      gone := gone + {conn};
      assert !Untouched(registered, gone, topic);
      assert topicRegister.Keys == old(topicRegister.Keys);
    }

    /** message_arrived: a message of a topic reaches exactly the handlers that were registered for it and
        are still connected, each registration once; in the order of their registration, unless the
        signal has reordered them at a disconnection. */
    method HandlersFor(topic: Topic) returns (slots: seq<(Connection, Handler)>)
      requires Filed()
      ensures forall c: Connection, h: Handler ::
        multiset(slots)[(c, h)] == if IsLive(registered, gone, topic, c, h) then 1 else 0
      ensures Untouched(registered, gone, topic) ==> slots == LiveOf(registered, gone, topic)
    {
      LiveIs(registered, gone, topic);
      hide LiveOf, IsLive;
      if topic !in topicRegister {
        NoneLive(registered, gone, topic);
        return [];
      }
      return topicRegister[topic];
    }
  }
}
