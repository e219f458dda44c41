/** The MQTT adapter's object graph: clients with the slots connected to their signals, channels that
    disconnect their slot when they go, and the register of channels. Its methods are the steps of
    MqttFenceModel, and between them only slots of the current binding are connected. */
module MqttAdapter {
  import opened Common
  import opened MqttFenceModel

  // What the adapter uses of a TMqttClient: its identity, the slots that are connected to its
  // signals, and what it was given to publish.
  class MqttClient {
    const self: Client
    var connected: set<Slot>
    var sent: seq<(Topic, Payload)>

    constructor (self: Client)
      ensures this.self == self && connected == {} && sent == []
    {
      this.self, connected, sent := self, {}, [];
    }

    /** publish; false if it throws. */
    method Publish(topic: Topic, payload: Payload, throws: bool) returns (ok: bool)
      modifies `sent
      ensures ok == !throws && sent == if ok then old(sent) + [(topic, payload)] else old(sent)
    {
      if throws {
        return false;
      }
      sent := sent + [(topic, payload)];
      return true;
    }
  }

  // A channel holds the scoped connection of its topic's slot.
  class GMqttChannel {
    const client: MqttClient
    const slot: Slot

    constructor (client: MqttClient, slot: Slot)
      ensures this.client == client && this.slot == slot
    {
      this.client, this.slot := client, slot;
    }

    // registerTopic of the client, whose connection becomes the channel's.
    method Connect()
      modifies client`connected
      ensures client.connected == old(client.connected) + {slot}
    {
      client.connected := client.connected + {slot};
    }

    // The destructor.
    method Destroy()
      modifies client`connected
      ensures client.connected == old(client.connected) - {slot}
    {
      client.connected := client.connected - {slot};
    }
  }

  class BindingSnapshot {
    const generation: nat
    const client: MqttClient

    constructor (generation: nat, client: MqttClient)
      ensures this.generation == generation && this.client == client
    {
      this.generation, this.client := generation, client;
    }

    static method Create(generation: nat, self: Client) returns (r: BindingSnapshot)
      ensures r.Value() == Snapshot(generation, self) && fresh(r.client) && r.client.connected == {}
    {
      var client := new MqttClient(self);
      r := new BindingSnapshot(generation, client);
    }

    ghost function Value(): Snapshot { Snapshot(generation, client.self) }

    // The slot of a topic under this binding.
    function SlotOf(t: Topic): (s: Slot)
      ensures s.topic == t
    {
      Slot(client.self, t, generation)
    }
  }

  // A message past publish's checks, with the client of the snapshot that was loaded.
  datatype Publishing = Publishing(message: Outgoing, client: MqttClient)

  function Messages(ps: seq<Publishing>): (r: seq<Outgoing>)
    ensures |r| == |ps| && forall i | 0 <= i < |r| :: r[i] == ps[i].message
  {
    seq(|ps|, i requires 0 <= i < |ps| => ps[i].message)
  }

  lemma MessagesRemoveAt(ps: seq<Publishing>, j: nat)
    requires j < |ps|
    ensures Messages(RemoveAt(ps, j)) == RemoveAt(Messages(ps), j)
  {
  }

  datatype PublishOutcome = Published | AdapterRejected | NoBinding | Stale | ClientRejected

  function Outcome(checks: PublishStatus, throws: bool): PublishOutcome {
    match checks
    case AdapterDown => PublishOutcome.AdapterRejected
    case NoClient => PublishOutcome.NoBinding
    case StaleGeneration => Stale
    case Passed(_) => if throws then ClientRejected else Published
  }

  class GMqttAdapter {
    var shuttingDown: bool
    var generation: nat
    var snapshot: BindingSnapshot?
    var topicRegister: map<Topic, GMqttChannel>
    // Qt's lists of the handlers connected to the channels.
    var receivers: map<Topic, seq<Handler>>
    // The event queues of Qt and of the handlers' threads, and the calls about to be made.
    var posted: seq<Post>
    var calls: seq<Call>
    var checked: seq<Call>
    var publishing: seq<Publishing>  // the threads inside publish, past its checks
    // Identities given out.
    var clientCount: nat
    var handlerCount: nat
    var deliveryCount: nat
    // How far bind has come, every client there has been, and every slot connected to one.
    ghost var phase: Phase
    ghost var clients: set<MqttClient>
    ghost var slots: set<Slot>

    ghost function Register(): (r: map<Topic, Channel>)
      requires receivers.Keys == topicRegister.Keys
      reads `topicRegister, `receivers
      ensures r.Keys == topicRegister.Keys
    {
      map t | t in topicRegister :: Channel(topicRegister[t].slot, receivers[t])
    }

    ghost function Model(): (s: State)
      requires receivers.Keys == topicRegister.Keys
      reads this
      ensures (s.snapshot.Some? <==> snapshot != null) && s.outgoing == Messages(publishing)
    {
      State(generation, if snapshot == null then None else Some(snapshot.Value()), Register(), phase, shuttingDown,
            clientCount, handlerCount, deliveryCount, slots, posted, calls, checked, Messages(publishing))
    }

    // The channel of a topic is connected to the current client.
    ghost predicate ChannelsOk()
      reads `topicRegister, `receivers, `snapshot, `clients, `slots
    {
      && receivers.Keys == topicRegister.Keys
      && (snapshot != null ==> snapshot.client in clients)
      && forall t | t in topicRegister ::
           && snapshot != null && topicRegister[t].client == snapshot.client
           && topicRegister[t].slot == snapshot.SlotOf(t) && topicRegister[t].slot in slots
    }

    // The slots of the given topics that are connected to a client: those of the current one.
    ghost function Live(c: MqttClient, topics: set<Topic>): set<Slot>
      reads `snapshot
    {
      if snapshot != null && c == snapshot.client then set t | t in topics :: snapshot.SlotOf(t) else {}
    }

    ghost predicate Connected(topics: set<Topic>)
      reads `clients, `snapshot, clients`connected
    {
      forall c | c in clients :: c.connected == Live(c, topics)
    }

    /** The slots connected to the clients are exactly those of the channels in the register; none is
        connected to an earlier client. */
    ghost predicate Valid()
      reads `topicRegister, `receivers, `snapshot, `clients, `slots, clients`connected
      ensures Valid() ==> receivers.Keys == topicRegister.Keys
    {
      ChannelsOk() && Connected(topicRegister.Keys)
    }

    constructor ()
      ensures Valid() && Initial(Model()) && clients == {}
    {
      shuttingDown, generation, snapshot, topicRegister, receivers, phase := false, 0, null, map[], map[], Idle;
      posted, calls, checked, publishing := [], [], [], [];
      clientCount, handlerCount, deliveryCount := 0, 0, 0;
      clients, slots := {}, {};
    }

    // -------------------------------------------------------------------------------------
    // bind

    /** bind up to the new snapshot; `created` is false if making the client throws. */
    method BeginBind(id: string, uri: string, created: bool) returns (r: BindStatus, next: BindingSnapshot?)
      requires Valid() && AdapterIdle(Model())
      modifies `generation, `phase, `clientCount, `clients
      ensures Valid() && Model() == Step(old(Model()), Event.BeginBind(id, uri, created))
      ensures r == BindResult(old(Model()), id, uri, created)
      ensures r.Changed? ==> next != null && next.client in clients && phase == Numbered(next.Value())
      ensures old(clients) <= clients && forall c | c in clients :: c in old(clients) || fresh(c)
    {
      hide Valid, Register, AdapterIdle;
      next := null;
      if shuttingDown {
        return Failed, null;
      }
      if snapshot != null && snapshot.client.self.id == id && snapshot.client.self.uri == uri {
        return Unchanged(snapshot.generation), null;
      }
      if !created {
        return Failed, null;
      }
      next := BindingSnapshot.Create(generation + 1, Client(clientCount, id, uri));
      AddBinding(next);
      return Changed(generation), next;
    }

    method AddBinding(next: BindingSnapshot)
      requires Valid() && next.client !in clients && next.client.connected == {} && next.generation == generation + 1
      modifies `generation, `phase, `clientCount, `clients
      ensures Valid() && next.client in clients && phase == Numbered(next.Value())
      ensures generation == next.generation && clientCount == old(clientCount) + 1
      ensures clients == old(clients) + {next.client}
    {
      generation := next.generation;
      clientCount := clientCount + 1;
      phase := Numbered(next.Value());
      clients := clients + {next.client};
    }

    // topicRegister.clear(): the channels go and disconnect their slots.
    method DropChannels()
      requires Valid()
      modifies `topicRegister, `receivers, clients`connected
      ensures Valid() && topicRegister == map[] && (forall c | c in clients :: c.connected == {})
      ensures Model() == old(Model()).(register := map[])
    {
      hide Register;
      DisconnectAll();
      ForgetChannels();
    }

    method ForgetChannels()
      requires ChannelsOk() && Connected({})
      modifies `topicRegister, `receivers
      ensures Valid() && topicRegister == map[] && (forall c | c in clients :: c.connected == {})
      ensures Register() == map[]
    {
      topicRegister, receivers := map[], map[];
    }

    method DisconnectAll()
      requires Valid()
      modifies clients`connected
      ensures ChannelsOk() && Connected({})
    {
      var todo := topicRegister.Keys;
      while todo != {}
        invariant todo <= topicRegister.Keys && Connected(todo)
        decreases |todo|
        modifies clients`connected
      {
        var t :| t in todo;
        EndChannel(t, todo);
        todo := todo - {t};
      }
    }

    method EndChannel(t: Topic, todo: set<Topic>)
      requires t in todo && todo <= topicRegister.Keys && ChannelsOk() && Connected(todo)
      modifies clients`connected
      ensures Connected(todo - {t})
    {
      topicRegister[t].Destroy();
    }

    method ClearRegister()
      requires Valid() && phase.Numbered?
      modifies `topicRegister, `receivers, `phase, clients`connected
      ensures Valid() && Model() == Step(old(Model()), Event.ClearRegister)
      ensures topicRegister == map[] && forall c | c in clients :: c.connected == {}
    {
      hide Valid, Register;
      DropChannels();
      phase := Cleared(phase.next);
    }

    method StoreSnapshot(next: BindingSnapshot)
      requires Valid() && phase == Cleared(next.Value()) && next.client in clients && topicRegister == map[]
      modifies `snapshot, `phase
      ensures Valid() && Model() == Step(old(Model()), Event.StoreSnapshot)
      ensures snapshot == next
    {
      snapshot := next;
      phase := Idle;
    }

    /** The whole of bind when no other thread runs in between: the binding it leaves has the number it
        returns, a client made for it, no topic, and no client has a slot connected. */
    method Bind(id: string, uri: string, created: bool) returns (r: BindStatus)
      requires Valid() && AdapterIdle(Model()) && Inv(Model())
      modifies `generation, `phase, `clientCount, `clients, `topicRegister, `receivers, `snapshot, clients`connected
      ensures Valid() && Inv(Model()) && r == BindResult(old(Model()), id, uri, created)
      ensures r.Changed? ==>
        && Model().snapshot == Some(Snapshot(r.gen, Client(old(clientCount), id, uri)))
        && topicRegister == map[] && (forall c | c in clients :: c.connected == {})
        && (old(snapshot) != null ==> r.gen > old(snapshot.generation))
      ensures !r.Changed? ==> Model() == old(Model())
      ensures old(clients) <= clients
    {
      hide Valid, Register, Inv;
      var next;
      StepInv(Model(), Event.BeginBind(id, uri, created));
      CurrentIsOlder(Model());
      r, next := BeginBind(id, uri, created);
      if r.Changed? {
        StepInv(Model(), Event.ClearRegister);
        ClearRegister();
        StepInv(Model(), Event.StoreSnapshot);
        StoreSnapshot(next);
      }
    }

    // -------------------------------------------------------------------------------------
    // registerTopic

    method RegisterTopic(context: bool, topic: Topic, handler: bool, local: bool) returns (r: RegisterStatus)
      requires Valid() && AdapterIdle(Model())
      modifies `topicRegister, `receivers, `slots, `handlerCount, clients`connected
      ensures Valid() && Model() == Step(old(Model()), Event.Register(context, topic, handler, local))
      ensures r == RegisterResult(old(Model()), context, topic, handler)
    {
      hide Valid, Register, AdapterIdle, RegisterStep;
      if shuttingDown {
        return RegisterStatus.AdapterRejected;
      }
      if !context {
        return RegisterStatus.AdapterRejected;
      }
      if topic.name == "" {
        return RegisterStatus.AdapterRejected;
      }
      if !handler {
        return RegisterStatus.AdapterRejected;
      }
      var providedSnap := snapshot;
      if providedSnap == null || providedSnap.generation == 0 {
        return RegisterStatus.NoBinding;
      }
      Enroll(topic, local);
      return Registered;
    }

    method Enroll(topic: Topic, local: bool)
      requires Valid() && snapshot != null
      modifies `topicRegister, `receivers, `slots, `handlerCount, clients`connected
      ensures Valid() && Model() == RegisterStep(old(Model()), topic, local)
    {
      hide Valid, Model, OpenStep, JoinStep, RegisterStep;
      EnrolledIs(Model(), topic, local);
      EnsureChannel(topic);
      AddHandler(topic, local);
    }

    // try_emplace: a channel is only made for a topic that has none.
    method EnsureChannel(topic: Topic)
      requires Valid() && snapshot != null
      modifies `topicRegister, `receivers, `slots, clients`connected
      ensures Valid() && topic in topicRegister && old(Model()).snapshot.Some?
      ensures Model() == OpenStep(old(Model()), topic)
    {
      hide Valid, Register;
      if topic !in topicRegister {
        OpenChannel(topic);
      }
    }

    // The first handler of a topic connects a slot to the current client.
    method OpenChannel(topic: Topic)
      requires Valid() && snapshot != null && topic !in topicRegister
      modifies `topicRegister, `receivers, `slots, clients`connected
      ensures Valid() && topic in topicRegister
      ensures Register() == old(Register())[topic := Channel(snapshot.SlotOf(topic), [])]
      ensures slots == old(slots) + {snapshot.SlotOf(topic)}
    {
      assert snapshot.client in clients;
      hide Register, Valid;
      var channel := new GMqttChannel(snapshot.client, snapshot.SlotOf(topic));
      FileChannel(topic, channel);
      LinkChannel(channel);
    }

    method FileChannel(topic: Topic, channel: GMqttChannel)
      requires Valid() && snapshot != null && topic !in topicRegister
      requires channel.client == snapshot.client && channel.slot == snapshot.SlotOf(topic)
      modifies `topicRegister, `receivers, `slots
      ensures ChannelsOk() && Connected(old(topicRegister).Keys)
      ensures topicRegister.Keys == old(topicRegister).Keys + {topic}
      ensures Register() == old(Register())[topic := Channel(channel.slot, [])]
      ensures slots == old(slots) + {channel.slot}
    {
      assert Connected(topicRegister.Keys);
      hide Connected;
      slots := slots + {channel.slot};
      topicRegister := topicRegister[topic := channel];
      receivers := receivers[topic := []];
    }

    method LinkChannel(channel: GMqttChannel)
      requires ChannelsOk() && snapshot != null && channel.client == snapshot.client
      requires channel.slot.topic in topicRegister && channel.slot == snapshot.SlotOf(channel.slot.topic)
      requires Connected(topicRegister.Keys - {channel.slot.topic})
      modifies clients`connected
      ensures Valid()
    {
      assert snapshot.client in clients;
      hide ChannelsOk;
      channel.Connect();
      assert topicRegister.Keys - {channel.slot.topic} + {channel.slot.topic} == topicRegister.Keys;
    }

    method AddHandler(topic: Topic, local: bool)
      requires Valid() && topic in topicRegister
      modifies `handlerCount, `receivers
      ensures Valid() && Model() == JoinStep(old(Model()), topic, local)
    {
      hide Valid, Register;
      var h := Handler(handlerCount, topic, local);
      handlerCount := handlerCount + 1;
      Receive(topic, h);
    }

    // QObject::connect of a handler to the topic's channel.
    method Receive(topic: Topic, h: Handler)
      requires Valid() && topic in topicRegister
      modifies `receivers
      ensures Valid() && topic in old(Register())
      ensures var c := old(Register())[topic];
        Register() == old(Register())[topic := c.(handlers := c.handlers + [h])]
    {
      hide Connected;
      receivers := receivers[topic := receivers[topic] + [h]];
    }

    // -------------------------------------------------------------------------------------
    // Messages

    // The slots of a topic that are connected to a client.
    ghost function Listening(client: MqttClient, topic: Topic): set<Slot>
      reads client
    {
      set s | s in client.connected && s.topic == topic
    }

    lemma ListeningIs(client: MqttClient, topic: Topic)
      requires Valid() && client in clients
      ensures Listening(client, topic) ==
        if snapshot != null && client == snapshot.client && topic in topicRegister then {snapshot.SlotOf(topic)} else {}
      ensures forall s | s in Listening(client, topic) :: s in slots
    {
      assert client.connected == Live(client, topicRegister.Keys);
      if snapshot != null && client == snapshot.client && topic in topicRegister {
        assert snapshot.SlotOf(topic) in client.connected;
      }
    }

    /** A message of any client, old or new, for a topic: the client emits it to the slots connected to
        the topic's signal. It is posted once if the client is the current one and the topic has a
        channel, and not at all otherwise. */
    method OnMessage(client: MqttClient, topic: Topic, payload: Payload)
      requires Valid() && client in clients
      modifies `posted, `deliveryCount
      ensures Valid()
      ensures Model() ==
        if snapshot != null && client == snapshot.client && topic in topicRegister
        then Step(old(Model()), Deliver(snapshot.SlotOf(topic), payload)) else old(Model())
    {
      ListeningIs(client, topic);
      var todo := set slot | slot in client.connected && slot.topic == topic;
      assert todo == Listening(client, topic);
      hide Valid, Register, Listening, Step;
      Emit(todo, payload);
    }

    // The signal runs its slots one after another; there is never more than one.
    method Emit(listening: set<Slot>, payload: Payload)
      requires Valid() && |listening| <= 1 && listening <= slots
      modifies `posted, `deliveryCount
      ensures Valid() && (listening == {} ==> Model() == old(Model()))
      ensures forall slot | listening == {slot} ::
        slot in slots && Model() == Step(old(Model()), Deliver(slot, payload))
    {
      hide Valid, Register, Step;
      ghost var s := Model();
      var todo := listening;
      while todo != {}
        invariant Valid() && todo <= listening && (todo == {} || todo == listening)
        invariant todo == listening ==> Model() == s
        invariant todo == {} ==> forall slot | listening == {slot} ::
          slot in slots && Model() == Step(s, Deliver(slot, payload))
        decreases |todo|
      {
        var slot :| slot in todo;
        OnlyOne(todo, slot);
        OnPayload(slot, payload);
        todo := todo - {slot};
      }
    }

    lemma OnlyOne(todo: set<Slot>, slot: Slot)
      requires slot in todo && |todo| <= 1
      ensures todo == {slot}
    {
      assert |todo - {slot}| == |todo| - 1;
    }

    /** What a connected slot does. */
    method OnPayload(slot: Slot, payload: Payload)
      requires Valid() && slot in slots
      modifies `posted, `deliveryCount
      ensures Valid() && Model() == Step(old(Model()), Deliver(slot, payload))
    {
      hide Valid, Register;
      posted := posted + [Post(slot.topic, slot.gen, payload, deliveryCount)];
      deliveryCount := deliveryCount + 1;
    }

    /** The first hop: the post is emitted by its topic's channel, if it is of the current binding. */
    method DispatchPost()
      requires Valid() && AdapterIdle(Model()) && posted != []
      modifies `posted, `calls
      ensures Valid() && Model() == Step(old(Model()), Dispatch)
    {
      hide Valid, AdapterIdle;
      var p := posted[0];
      posted := posted[1..];
      if snapshot == null || snapshot.generation != p.gen {
        return;
      }
      if p.topic !in topicRegister {
        return;
      }
      calls := calls + CallsFor(receivers[p.topic], p);
    }

    /** The second hop's check, in the handler's thread. */
    method CheckCall(k: nat)
      requires Valid() && k < |calls| && (calls[k].handler.local ==> AdapterIdle(Model()))
      modifies `calls, `checked
      ensures Valid() && Model() == Step(old(Model()), Check(k))
    {
      hide Valid, Register, AdapterIdle;
      var c := calls[k];
      calls := RemoveAt(calls, k);
      if snapshot == null || snapshot.generation != c.gen {
        return;
      }
      checked := checked + [c];
    }

    /** And the call. A handler in the adapter's thread gets a payload of the binding that is current. */
    method CallHandler(j: nat) returns (handler: Handler, payload: Payload)
      requires Valid() && Inv(Model()) && j < |checked|
      modifies `checked
      ensures Valid() && Model() == Step(old(Model()), Invoke(j))
      ensures handler == old(checked[j]).handler && payload == old(checked[j]).payload
      ensures handler.local ==> snapshot != null && snapshot.generation == old(checked[j]).gen
    {
      hide Valid, Register, RegisterOk, TopicOk;
      var c := checked[j];
      assert c in checked;
      checked := RemoveAt(checked, j);
      return c.handler, c.payload;
    }

    // -------------------------------------------------------------------------------------
    // publish and the destructor

    // What a thread inside publish holds is a client there has been, the one of its message.
    ghost predicate PublishersOk()
      reads `publishing, `clients
    {
      forall p | p in publishing :: p.client in clients && p.client.self == p.message.client
    }

    /** publish() up to its checks: what passes them keeps the client of the snapshot it was checked
        against. */
    method CheckPublish(reqGen: nat, topic: Topic, payload: Payload) returns (r: PublishStatus)
      requires Valid() && PublishersOk()
      modifies `publishing
      ensures Valid() && PublishersOk() && r == PublishResult(old(Model()), reqGen)
      ensures Model() == Step(old(Model()), LoadForPublish(reqGen, topic, payload))
      ensures r.Passed? ==>
        && snapshot != null
        && publishing == old(publishing) + [Publishing(Outgoing(reqGen, r.client, topic, payload), snapshot.client)]
      ensures !r.Passed? ==> publishing == old(publishing)
      ensures r.AdapterDown? <==> shuttingDown
      ensures r.NoClient? <==> !shuttingDown && (snapshot == null || snapshot.generation == 0)
      ensures r.StaleGeneration? <==> !shuttingDown && snapshot != null && snapshot.generation !in {0, reqGen}
    {
      hide Register, Connected;
      if shuttingDown {
        return AdapterDown;
      }
      var currentSnap := snapshot;
      if currentSnap == null || currentSnap.generation == 0 {
        return NoClient;
      }
      if currentSnap.generation != reqGen {
        return StaleGeneration;
      }
      var message := Outgoing(reqGen, currentSnap.client.self, topic, payload);
      publishing := publishing + [Publishing(message, currentSnap.client)];
      return Passed(currentSnap.client.self);
    }

    /** The rest of publish() in one of the threads inside it: the message lands at the client it was
        checked against, whatever binding is current by now, and at no other; at none if the client
        throws. */
    method HandOverMessage(j: nat, throws: bool) returns (ok: bool)
      requires Valid() && PublishersOk() && j < |publishing|
      modifies `publishing, clients`sent
      ensures Valid() && PublishersOk() && Model() == Step(old(Model()), HandOver(j))
      ensures publishing == RemoveAt(old(publishing), j) && ok == !throws
      ensures var p := old(publishing[j]);
        && p.client.self == p.message.client
        && (ok ==> p.client.sent == old(publishing[j].client.sent) + [(p.message.topic, p.message.payload)])
      ensures forall c | c in clients && (!ok || c != old(publishing[j].client)) :: c.sent == old(c.sent)
    {
      hide Register, Connected;
      var p := publishing[j];
      assert p in publishing;
      publishing := RemoveAt(publishing, j);
      MessagesRemoveAt(old(publishing), j);
      ok := p.client.Publish(p.message.topic, p.message.payload, throws);
    }

    // The message that passed last.
    method HandOverLast(throws: bool) returns (ok: bool)
      requires Valid() && PublishersOk() && publishing != []
      modifies `publishing, clients`sent
      ensures Valid() && PublishersOk() && ok == !throws
      ensures |old(Model()).outgoing| > 0 && Model() == Step(old(Model()), HandOver(|old(Model()).outgoing| - 1))
      ensures ok ==> var p := old(publishing[|publishing| - 1]);
        p.client.sent == old(publishing[|publishing| - 1].client.sent) + [(p.message.topic, p.message.payload)]
      ensures forall c | c in clients && (!ok || c != old(publishing[|publishing| - 1].client)) :: c.sent == old(c.sent)
    {
      hide Valid, Register, Step, PublishersOk, Model;
      ok := HandOverMessage(|publishing| - 1, throws);
    }

    /** The whole of publish() when no other thread runs in between. */
    method Publish(reqGen: nat, topic: Topic, payload: Payload, throws: bool) returns (r: PublishOutcome)
      requires Valid() && PublishersOk()
      modifies `publishing, clients`sent
      ensures Valid() && PublishersOk() && Model() == old(Model())
      ensures r.AdapterRejected? <==> shuttingDown
      ensures r.NoBinding? <==> !shuttingDown && (snapshot == null || snapshot.generation == 0)
      ensures r.Stale? <==> !shuttingDown && snapshot != null && snapshot.generation !in {0, reqGen}
      ensures r.ClientRejected? || r.Published? <==>
        !shuttingDown && snapshot != null && snapshot.generation == reqGen != 0
      ensures r.ClientRejected? ==> throws
      ensures r.Published? ==> !throws
      ensures r.Published? ==>
        snapshot != null && snapshot.client.sent == old(snapshot.client.sent) + [(topic, payload)]
      ensures forall c | c in clients && (!r.Published? || c != snapshot.client) :: c.sent == old(c.sent)
    {
      hide Valid, Register, Step, PublishersOk, PublishResult, Messages, Model;
      LoadedAndHanded(Model(), reqGen, topic, payload);
      var status := CheckPublish(reqGen, topic, payload);
      if status.Passed? {
        var _ := HandOverLast(throws);
      }
      return Outcome(status, throws);
    }

    /** The destructor leaves no binding, no channel and no slot connected. */
    method Destroy()
      requires Valid() && AdapterIdle(Model())
      modifies `shuttingDown, `generation, `topicRegister, `receivers, `snapshot, clients`connected
      ensures Valid() && Model() == Step(old(Model()), Shutdown)
      ensures forall c | c in clients :: c.connected == {}
    {
      hide AdapterIdle, Valid, Register;
      shuttingDown := true;
      generation := generation + 1;
      DropChannels();
      Unbind();
    }

    method Unbind()
      requires Valid() && topicRegister == map[]
      modifies `snapshot
      ensures Valid() && snapshot == null
    {
      snapshot := null;
    }
  }

  // The two halves of registerTopic: a channel for the topic, and a handler joined to it.
  function OpenStep(s: State, topic: Topic): State
    requires s.snapshot.Some?
  {
    var slot := Slot(s.snapshot.value.client, topic, s.snapshot.value.gen);
    if topic in s.register then s
    else s.(register := s.register[topic := Channel(slot, [])], slots := s.slots + {slot})
  }

  function JoinStep(s: State, topic: Topic, local: bool): State {
    if topic !in s.register then s
    else
      var c, h := s.register[topic], Handler(s.handlerCount, topic, local);
      s.(register := s.register[topic := c.(handlers := c.handlers + [h])], handlerCount := s.handlerCount + 1)
  }

  lemma EnrolledIs(s: State, topic: Topic, local: bool)
    requires s.snapshot.Some?
    ensures RegisterStep(s, topic, local) == JoinStep(OpenStep(s, topic), topic, local)
  {
  }

  // A message that is handed over at once leaves nothing behind.
  lemma LoadedAndHanded(s: State, gen: nat, topic: Topic, payload: Payload)
    ensures var t := Step(s, LoadForPublish(gen, topic, payload));
      if PublishResult(s, gen).Passed? then
        |t.outgoing| > 0 && Enabled(t, HandOver(|t.outgoing| - 1)) && Step(t, HandOver(|t.outgoing| - 1)) == s
      else t == s
  {
    hide PublishResult;
    var t := LoadStep(s, gen, topic, payload);
    assert PublishResult(s, gen).Passed? ==> t.outgoing[..|t.outgoing| - 1] == s.outgoing;
  }

  lemma CurrentIsOlder(s: State)
    requires Inv(s)
    ensures s.snapshot.Some? ==> s.snapshot.value.gen <= s.generation
  {
  }
}
