/** The MQTT adapter's generation fence as a state machine: bindings, registrations, messages of
    clients old and new, and the two queued hops between a client's thread and a handler. */
module MqttFenceModel {
  import opened Common

  type Payload = seq<u8>

  // A client object: its serial number stands for its identity.
  datatype Client = Client(serial: nat, id: string, uri: string)
  datatype Snapshot = Snapshot(gen: nat, client: Client)

  // The function an adapter connects to a client's signal for a topic, with what it captures.
  datatype Slot = Slot(client: Client, topic: Topic, gen: nat)

  // A registered handler: the number stands for its identity, and its context may live in the
  // adapter's thread or in another one.
  datatype Handler = Handler(number: nat, topic: Topic, local: bool)
  datatype Channel = Channel(slot: Slot, handlers: seq<Handler>)

  // An event posted by a slot, numbered by arrival, and the call of one handler it leads to.
  datatype Post = Post(topic: Topic, gen: nat, payload: Payload, id: nat)
  datatype Call = Call(handler: Handler, gen: nat, payload: Payload, id: nat)

  // A message that has passed publish()'s checks, with the client it was checked against.
  datatype Outgoing = Outgoing(gen: nat, client: Client, topic: Topic, payload: Payload)

  // How far bind() has come.
  datatype Phase = Idle | Numbered(next: Snapshot) | Cleared(next: Snapshot)

  datatype State = State(
    generation: nat, snapshot: Option<Snapshot>, register: map<Topic, Channel>,
    phase: Phase, shuttingDown: bool,
    clientCount: nat, handlerCount: nat, deliveryCount: nat,
    slots: set<Slot>, posted: seq<Post>, calls: seq<Call>, checked: seq<Call>, outgoing: seq<Outgoing>)

  predicate Initial(s: State) {
    s == State(0, None, map[], Idle, false, 0, 0, 0, {}, [], [], [], [])
  }

  datatype Event =
    | BeginBind(id: string, uri: string, created: bool)  // bind() up to the new generation number
    | ClearRegister | StoreSnapshot                      // and its next two effects
    | Register(context: bool, topic: Topic, handler: bool, local: bool)  // context, handler: not null
    | Deliver(slot: Slot, payload: Payload)              // a client's thread runs a slot
    | Dispatch                                           // first hop: the adapter's thread takes a post
    | Check(k: nat)                                      // second hop: a handler's thread takes a call
    | Invoke(j: nat)                                     // and calls the handler
    | LoadForPublish(gen: nat, topic: Topic, payload: Payload)  // publish() up to its checks
    | HandOver(j: nat)                                   // and on to the client
    | Shutdown

  // The adapter's thread is neither in bind nor between a check and its call.
  predicate AdapterIdle(s: State) {
    s.phase.Idle? && forall c | c in s.checked :: !c.handler.local
  }

  /** bind, registerTopic, the first hop and the destructor run on the adapter's thread, one after
      another. Clients run any slot ever connected, even after it was disconnected; calls are taken
      in any order, those of local handlers on the adapter's thread. */
  predicate Enabled(s: State, e: Event) {
    match e
    case BeginBind(_, _, _) => AdapterIdle(s)
    case ClearRegister => s.phase.Numbered?
    case StoreSnapshot => s.phase.Cleared?
    case Register(_, _, _, _) => AdapterIdle(s)
    case Deliver(slot, _) => slot in s.slots
    case Dispatch => AdapterIdle(s) && s.posted != []
    case Check(k) => k < |s.calls| && (s.calls[k].handler.local ==> AdapterIdle(s))
    case Invoke(j) => j < |s.checked|
    case LoadForPublish(_, _, _) => true
    case HandOver(j) => j < |s.outgoing|
    case Shutdown => AdapterIdle(s)
  }

  datatype BindStatus = Changed(gen: nat) | Unchanged(gen: nat) | Failed

  function BindResult(s: State, id: string, uri: string, created: bool): BindStatus {
    if s.shuttingDown then Failed
    else if s.snapshot.Some? && s.snapshot.value.client.id == id && s.snapshot.value.client.uri == uri then
      Unchanged(s.snapshot.value.gen)
    else if !created then Failed
    else Changed(s.generation + 1)
  }

  function BeginBindStep(s: State, id: string, uri: string, created: bool): State {
    if BindResult(s, id, uri, created).Changed? then
      s.(generation := s.generation + 1, clientCount := s.clientCount + 1,
         phase := Numbered(Snapshot(s.generation + 1, Client(s.clientCount, id, uri))))
    else s
  }

  datatype RegisterStatus = Registered | AdapterRejected | NoBinding

  function RegisterResult(s: State, context: bool, topic: Topic, handler: bool): RegisterStatus {
    if s.shuttingDown || !context || topic.name == "" || !handler then AdapterRejected
    else if s.snapshot.None? || s.snapshot.value.gen == 0 then NoBinding
    else Registered
  }

  // The first handler of a topic makes its channel and connects a slot to the current client.
  function RegisterStep(s: State, topic: Topic, local: bool): State
    requires s.snapshot.Some?
  {
    var h := Handler(s.handlerCount, topic, local);
    var slot := Slot(s.snapshot.value.client, topic, s.snapshot.value.gen);
    var channel := if topic in s.register then s.register[topic] else Channel(slot, []);
    s.(register := s.register[topic := channel.(handlers := channel.handlers + [h])],
       slots := if topic in s.register then s.slots else s.slots + {slot},
       handlerCount := s.handlerCount + 1)
  }

  function CallsFor(handlers: seq<Handler>, p: Post): (r: seq<Call>)
    ensures |r| == |handlers| && forall i | 0 <= i < |r| :: r[i] == Call(handlers[i], p.gen, p.payload, p.id)
  {
    seq(|handlers|, i requires 0 <= i < |handlers| => Call(handlers[i], p.gen, p.payload, p.id))
  }

  // A post of another generation, or for a topic without a channel, is dropped.
  predicate PassesFirstHop(s: State, p: Post) {
    s.snapshot.Some? && s.snapshot.value.gen == p.gen && p.topic in s.register
  }

  function DispatchStep(s: State): State
    requires s.posted != []
  {
    var p := s.posted[0];
    var t := s.(posted := s.posted[1..]);
    if PassesFirstHop(s, p) then t.(calls := s.calls + CallsFor(s.register[p.topic].handlers, p)) else t
  }

  // The second check.
  predicate PassesSecondHop(s: State, c: Call) { s.snapshot.Some? && s.snapshot.value.gen == c.gen }

  function CheckStep(s: State, k: nat): State
    requires k < |s.calls|
  {
    var c, t := s.calls[k], s.(calls := RemoveAt(s.calls, k));
    if PassesSecondHop(s, c) then t.(checked := s.checked + [c]) else t
  }

  datatype PublishStatus = Passed(client: Client) | AdapterDown | NoClient | StaleGeneration

  /** The checks of publish(). */
  function PublishResult(s: State, gen: nat): PublishStatus {
    if s.shuttingDown then AdapterDown
    else if s.snapshot.None? || s.snapshot.value.gen == 0 then NoClient
    else if s.snapshot.value.gen != gen then StaleGeneration
    else Passed(s.snapshot.value.client)
  }

  function LoadStep(s: State, gen: nat, topic: Topic, payload: Payload): State {
    var r := PublishResult(s, gen);
    if r.Passed? then s.(outgoing := s.outgoing + [Outgoing(gen, r.client, topic, payload)]) else s
  }

  function Step(s: State, e: Event): State
    requires Enabled(s, e)
  {
    match e
    case BeginBind(id, uri, created) => BeginBindStep(s, id, uri, created)
    case ClearRegister => s.(register := map[], phase := Cleared(s.phase.next))
    case StoreSnapshot => s.(snapshot := Some(s.phase.next), phase := Idle)
    case Register(context, topic, handler, local) =>
      if RegisterResult(s, context, topic, handler).Registered? then RegisterStep(s, topic, local) else s
    case Deliver(slot, payload) =>
      s.(posted := s.posted + [Post(slot.topic, slot.gen, payload, s.deliveryCount)],
         deliveryCount := s.deliveryCount + 1)
    case Dispatch => DispatchStep(s)
    case Check(k) => CheckStep(s, k)
    case Invoke(j) => s.(checked := RemoveAt(s.checked, j))
    case LoadForPublish(gen, topic, payload) => LoadStep(s, gen, topic, payload)
    case HandOver(j) => s.(outgoing := RemoveAt(s.outgoing, j))
    case Shutdown => s.(shuttingDown := true, generation := s.generation + 1, register := map[], snapshot := None)
  }

  // ---------------------------------------------------------------------------------------
  // The invariant

  /** Generation and client numbers only grow, every channel in the register belongs to the binding
      that is current (the register is cleared before the snapshot changes), and what a slot of the
      current generation posts has a channel. While a local handler is about to be called its binding
      stays the current one. */
  predicate Inv(s: State) {
    && SnapshotsOk(s)
    && RegisterOk(s)
    && (forall slot | slot in s.slots :: TopicOk(s, slot.topic, slot.gen))
    && (forall p | p in s.posted :: TopicOk(s, p.topic, p.gen))
    && LocalsOk(s)
  }

  predicate RegisterOk(s: State) {
    && (s.phase.Cleared? ==> s.register == map[])
    && (forall t | t in s.register :: s.snapshot.Some? &&
          s.register[t].slot == Slot(s.snapshot.value.client, t, s.snapshot.value.gen))
  }

  predicate LocalsOk(s: State) {
    forall c | c in s.checked && c.handler.local :: s.phase.Idle? && PassesSecondHop(s, c)
  }

  predicate SnapshotsOk(s: State) {
    && (s.snapshot.Some? ==> 0 < s.snapshot.value.gen <= s.generation && s.snapshot.value.client.serial < s.clientCount)
    && (!s.phase.Idle? ==> 0 < s.phase.next.gen == s.generation && s.phase.next.client.serial < s.clientCount)
    && (!s.phase.Idle? && s.snapshot.Some? ==>
          && s.snapshot.value.gen < s.generation
          && s.snapshot.value.client.serial < s.phase.next.client.serial)
    && (s.shuttingDown ==> s.snapshot == None && s.phase.Idle?)
  }

  predicate TopicOk(s: State, topic: Topic, gen: nat) {
    && gen <= s.generation
    && (!s.phase.Idle? ==> gen < s.generation)
    && (s.snapshot.Some? && s.snapshot.value.gen == gen && !s.phase.Cleared? ==> topic in s.register)
  }

  lemma SnapshotsStep(s: State, e: Event)
    requires SnapshotsOk(s) && Enabled(s, e)
    ensures SnapshotsOk(Step(s, e))
  {
  }

  lemma TopicStep(s: State, e: Event, topic: Topic, gen: nat)
    requires SnapshotsOk(s) && Enabled(s, e) && TopicOk(s, topic, gen)
    ensures TopicOk(Step(s, e), topic, gen)
  {
  }

  lemma RegisterOkStep(s: State, e: Event)
    requires RegisterOk(s) && Enabled(s, e)
    ensures RegisterOk(Step(s, e))
  {
  }

  lemma LocalsOkStep(s: State, e: Event)
    requires LocalsOk(s) && Enabled(s, e)
    ensures LocalsOk(Step(s, e))
  {
  }

  lemma SlotsStep(s: State, e: Event)
    requires Inv(s) && Enabled(s, e)
    ensures forall slot | slot in Step(s, e).slots :: TopicOk(Step(s, e), slot.topic, slot.gen)
  {
    forall slot | slot in Step(s, e).slots
      ensures TopicOk(Step(s, e), slot.topic, slot.gen)
    {
      if slot in s.slots { TopicStep(s, e, slot.topic, slot.gen); }
    }
    hide RegisterOk, LocalsOk;
  }

  lemma PostedStep(s: State, e: Event)
    requires Inv(s) && Enabled(s, e)
    ensures forall p | p in Step(s, e).posted :: TopicOk(Step(s, e), p.topic, p.gen)
  {
    forall p | p in Step(s, e).posted
      ensures TopicOk(Step(s, e), p.topic, p.gen)
    {
      if e.Deliver? && p !in s.posted {
        TopicStep(s, e, e.slot.topic, e.slot.gen);
      } else {
        TopicStep(s, e, p.topic, p.gen);
      }
    }
    hide RegisterOk, LocalsOk, SnapshotsOk, TopicOk;
  }

  lemma StepInv(s: State, e: Event)
    requires Inv(s) && Enabled(s, e)
    ensures Inv(Step(s, e))
  {
    hide SnapshotsOk, RegisterOk, LocalsOk, TopicOk, Step, Enabled;
    SnapshotsStep(s, e);
    RegisterOkStep(s, e);
    SlotsStep(s, e);
    PostedStep(s, e);
    LocalsOkStep(s, e);
  }

  /** Of what clients have posted the first hop drops exactly what is of another generation: a post
      of the current one always finds its channel. */
  lemma FirstHopDropsTheStale(s: State)
    requires Inv(s) && Enabled(s, Dispatch)
    ensures PassesFirstHop(s, s.posted[0]) <==> s.snapshot.Some? && s.snapshot.value.gen == s.posted[0].gen
  {
    assert s.posted[0] in s.posted;
  }
}
