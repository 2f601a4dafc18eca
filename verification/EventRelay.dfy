/** The relay shared by the WebSocket handlers for patches, benchmarks, chaos actions, experiments and
    the lab: for each request a fresh queue, a worker thread that puts the generator's events and then
    a sentinel, and a loop that takes slots off the queue and sends them until it meets the sentinel.

    All connections run interleaved, and every worker runs beside its own handler.  A worker does not
    own its queue: it uses the handler's variable, which names whatever queue the handler made last.
    That a worker never reaches a later request's queue is a property of the protocol, proved here.

    A handler takes a slot in a thread of the event loop's default executor, which all connections share:
    the thread is held until there is a slot to take, even when the client has left. */
module EventRelay {
  import opened Runs

  type Message = string

  /** What a client may ask: something ignored (an empty command line), something answered at once (an
      unknown action or a command that is not allowed), or a stream of events from a generator, which
      may end or raise after its last event. */
  datatype Request =
    | Ignored
    | Direct(reply: Message)
    | Stream(events: seq<Message>, ends: bool)

  datatype Slot = Event(message: Message) | Sentinel

  datatype Status = Live | Finished | Raised

  datatype Worker = Worker(left: seq<Message>, ends: bool, status: Status)

  datatype Phase = Receiving | Relaying | Disconnected

  /** One connection: `requests` is all its client ever asks, `events` the queue its handler's variable
      names, `fetching` whether an executor thread is taking a slot off it, `workers` the threads started. */
  datatype Connection = Connection(
    requests: seq<Request>, inbox: seq<Request>, finished: seq<Request>, current: Option<Request>,
    phase: Phase, events: Option<nat>, fetching: bool, workers: seq<Worker>, sent: seq<Message>)

  /** `pool` is the number of the executor's threads. */
  datatype Server = Server(connections: seq<Connection>, queues: seq<seq<Slot>>, pool: nat)

  datatype Action =
    | Receive(c: nat)
    | Put(c: nat, w: nat) | End(c: nat, w: nat) | Raise(c: nat, w: nat)
    | Fetch(c: nat)           // a free thread begins to take a slot for the handler
    | Relay(c: nat)           // it has one, which the handler sends
    | Disconnect(c: nat)
    | Release(c: nat)         // it has one, but the handler is over

  function Opened(requests: seq<Request>): Connection {
    Connection(requests, requests, [], None, Receiving, None, false, [], [])
  }

  function Initial(clients: seq<seq<Request>>, pool: nat): Server {
    Server(seq(|clients|, i requires 0 <= i < |clients| => Opened(clients[i])), [], pool)
  }

  /** The connections that hold a thread of the executor. */
  function Holding(s: Server): set<nat> { set c: nat | c < |s.connections| && s.connections[c].fetching }

  predicate IsLive(k: Connection, w: nat) {
    w < |k.workers| && k.workers[w].status == Live
  }

  /** The handler takes the next request. */
  function Accept(k: Connection, newest: nat): Connection
    requires k.inbox != []
  {
    match k.inbox[0]
    case Ignored => k.(inbox := k.inbox[1..], finished := k.finished + [Ignored])
    case Direct(reply) => k.(inbox := k.inbox[1..], finished := k.finished + [Direct(reply)], sent := k.sent + [reply])
    case Stream(events, ends) =>
      k.(inbox := k.inbox[1..], current := Some(k.inbox[0]), phase := Relaying, events := Some(newest),
         workers := k.workers + [Worker(events, ends, Live)])
  }

  /** The handler sends a slot, or returns to receiving when it is the sentinel. */
  function Send(k: Connection, slot: Slot): Connection
    requires k.current.Some?
  {
    match slot
    case Event(m) => k.(sent := k.sent + [m], fetching := false)
    case Sentinel =>
      k.(fetching := false, finished := k.finished + [k.current.value], current := None, phase := Receiving)
  }

  function With(s: Server, c: nat, k: Connection): Server
    requires c < |s.connections|
  {
    s.(connections := s.connections[c := k])
  }

  /** A worker puts a slot on the queue its connection's variable names at that moment. */
  function PutSlot(s: Server, c: nat, w: nat, slot: Slot, worker: Worker): Option<Server>
    requires c < |s.connections| && w < |s.connections[c].workers|
  {
    var k := s.connections[c];
    if k.events.None? || k.events.value >= |s.queues| then None
    else
      var q := k.events.value;
      Some(Server(s.connections[c := k.(workers := k.workers[w := worker])],
                  s.queues[q := s.queues[q] + [slot]], s.pool))
  }

  function Of(a: Action): nat { a.c }

  function Step(s: Server, a: Action): Option<Server> {
    if Of(a) >= |s.connections| then None
    else
      var k := s.connections[Of(a)];
      match a
      case Receive(c) =>
        if k.phase != Receiving || k.inbox == [] then None
        else
          var queues := if k.inbox[0].Stream? then s.queues + [[]] else s.queues;
          Some(With(s, c, Accept(k, |s.queues|)).(queues := queues))
      case Put(c, w) =>
        if !IsLive(k, w) || k.workers[w].left == [] then None
        else PutSlot(s, c, w, Event(k.workers[w].left[0]), k.workers[w].(left := k.workers[w].left[1..]))
      case End(c, w) =>
        if !IsLive(k, w) || k.workers[w].left != [] || !k.workers[w].ends then None
        else PutSlot(s, c, w, Sentinel, k.workers[w].(status := Finished))
      case Raise(c, w) =>
        if !IsLive(k, w) || k.workers[w].left != [] || k.workers[w].ends then None
        else Some(With(s, c, k.(workers := k.workers[w := k.workers[w].(status := Raised)])))
      case Fetch(c) =>
        if k.phase != Relaying || k.fetching || |Holding(s)| >= s.pool then None
        else Some(With(s, c, k.(fetching := true)))
      case Relay(c) =>
        if k.phase != Relaying || !k.fetching || k.current.None? then None
        else if k.events.None? || k.events.value >= |s.queues| then None
        else
          var q := k.events.value;
          if s.queues[q] == [] then None
          else Some(With(s, c, Send(k, s.queues[q][0])).(queues := s.queues[q := s.queues[q][1..]]))
      case Disconnect(c) =>
        if k.phase == Disconnected then None else Some(With(s, c, k.(phase := Disconnected)))
      case Release(c) =>
        // nobody looks at this queue any more, so what the thread took can stay on it
        if k.phase != Disconnected || !k.fetching || k.events.None? || k.events.value >= |s.queues| then None
        else if s.queues[k.events.value] == [] then None
        else Some(With(s, c, k.(fetching := false)))
  }

  // ----- What a client is owed -----

  function Full(r: Request): seq<Message> {
    match r
    case Ignored => []
    case Direct(reply) => [reply]
    case Stream(events, _) => events
  }

  /** Everything owed for a list of requests. */
  function Replies(requests: seq<Request>): seq<Message> {
    if requests == [] then [] else Replies(requests[..|requests| - 1]) + Full(requests[|requests| - 1])
  }

  lemma RepliesAppend(requests: seq<Request>, r: Request)
    ensures Replies(requests + [r]) == Replies(requests) + Full(r)
  {
    assert (requests + [r])[..|requests|] == requests;
  }

  function Pending(current: Option<Request>): seq<Request> {
    if current.Some? then [current.value] else []
  }

  function Carried(slot: Slot): seq<Message> {
    match slot case Event(m) => [m] case Sentinel => []
  }

  /** The messages on a queue. */
  function Payload(queue: seq<Slot>): seq<Message> {
    if queue == [] then [] else Carried(queue[0]) + Payload(queue[1..])
  }

  lemma {:induction false} PayloadAppend(queue: seq<Slot>, slot: Slot)
    ensures Payload(queue + [slot]) == Payload(queue) + Carried(slot)
  {
    if queue == [] {
      assert (queue + [slot])[1..] == [];
      assert Carried(slot) + [] == [] + Carried(slot);
    } else {
      assert (queue + [slot])[1..] == queue[1..] + [slot];
      PayloadAppend(queue[1..], slot);
    }
  }

  /** The sentinel is on the queue exactly when its worker has finished, and then it is last. */
  predicate SentinelLast(queue: seq<Slot>, finished: bool) {
    && (forall i :: 0 <= i < |queue| - 1 ==> queue[i].Event?)
    && (queue != [] ==> (queue[|queue| - 1] == Sentinel <==> finished))
    && (finished ==> queue != [])
  }

  // ----- The invariant of one connection -----

  predicate RequestsInOrder(k: Connection) {
    && k.finished + Pending(k.current) + k.inbox == k.requests
    && (forall r :: r in k.finished && r.Stream? ==> r.ends)
  }

  predicate OldWorkersFinished(k: Connection) {
    forall w :: 0 <= w < |k.workers| - 1 ==> k.workers[w].status == Finished
  }

  predicate Between(k: Connection, queues: seq<seq<Slot>>) {
    && k.phase != Relaying && !k.fetching
    && (k.workers != [] ==> k.workers[|k.workers| - 1].status == Finished)
    && (k.events.Some? ==> k.events.value < |queues| && queues[k.events.value] == [])
    && k.sent == Replies(k.finished)
  }

  predicate During(k: Connection, queues: seq<seq<Slot>>)
    requires k.current.Some?
  {
    && k.phase != Receiving && k.current.value.Stream? && k.workers != []
    && k.events.Some? && k.events.value < |queues|
    && var w := k.workers[|k.workers| - 1];
       var queue := queues[k.events.value];
       && w.ends == k.current.value.ends
       && (w.status != Live ==> w.left == [] && (w.status == Finished <==> w.ends))
       && SentinelLast(queue, w.status == Finished)
       && Replies(k.finished) <= k.sent
       && k.sent + Payload(queue) + w.left == Replies(k.finished) + Full(k.current.value)
  }

  predicate ConnectionInv(k: Connection, queues: seq<seq<Slot>>) {
    && RequestsInOrder(k)
    && OldWorkersFinished(k)
    && (if k.current.None? then Between(k, queues) else During(k, queues))
  }

  /** No two connections name the same queue. */
  predicate OwnQueues(connections: seq<Connection>) {
    forall c, d :: 0 <= c < d < |connections| && connections[c].events.Some? && connections[d].events.Some?
      ==> connections[c].events != connections[d].events
  }

  predicate Inv(s: Server) {
    && OwnQueues(s.connections)
    && (forall c :: 0 <= c < |s.connections| ==> ConnectionInv(s.connections[c], s.queues))
  }

  /** A connection does not notice what happens to the other queues. */
  lemma Frame(k: Connection, queues: seq<seq<Slot>>, queues': seq<seq<Slot>>)
    requires ConnectionInv(k, queues) && |queues| <= |queues'|
    requires k.events.Some? ==> queues'[k.events.value] == queues[k.events.value]
    ensures ConnectionInv(k, queues')
  {
  }

  lemma AcceptKeepsOrder(k: Connection, newest: nat)
    requires RequestsInOrder(k) && k.current.None? && k.inbox != []
    ensures RequestsInOrder(Accept(k, newest))
  {
    var r := k.inbox[0];
    var k' := Accept(k, newest);
    assert k.finished + Pending(k.current) + k.inbox == k.finished + [r] + k.inbox[1..];
    assert k'.finished + Pending(k'.current) + k'.inbox == k.finished + [r] + k.inbox[1..];
  }

  lemma AcceptStreamStarts(k: Connection, queues: seq<seq<Slot>>)
    requires Between(k, queues) && k.inbox != [] && k.inbox[0].Stream?
    ensures During(Accept(k, |queues|), queues + [[]])
  {
    var events := k.inbox[0].events;
    assert k.sent + Payload([]) + events == Replies(k.finished) + events;
  }

  lemma AcceptAnswersAtOnce(k: Connection, queues: seq<seq<Slot>>)
    requires Between(k, queues) && k.phase == Receiving && k.inbox != [] && !k.inbox[0].Stream?
    ensures Between(Accept(k, |queues|), queues)
  {
    RepliesAppend(k.finished, k.inbox[0]);
  }

  lemma {:induction false} AcceptKeepsInv(k: Connection, queues: seq<seq<Slot>>)
    requires ConnectionInv(k, queues) && k.phase == Receiving && k.inbox != []
    ensures var queues' := if k.inbox[0].Stream? then queues + [[]] else queues;
            ConnectionInv(Accept(k, |queues|), queues')
  {
    AcceptKeepsOrder(k, |queues|);
    if k.inbox[0].Stream? { AcceptStreamStarts(k, queues); } else { AcceptAnswersAtOnce(k, queues); }
  }

  lemma OnlyLastIsLive(k: Connection, queues: seq<seq<Slot>>, w: nat)
    requires ConnectionInv(k, queues) && IsLive(k, w)
    ensures w == |k.workers| - 1 && k.current.Some? && During(k, queues)
  {
  }

  lemma MoveAcross(sent: seq<Message>, queued: seq<Message>, left: seq<Message>)
    requires left != []
    ensures sent + (queued + [left[0]]) + left[1..] == sent + queued + left
  {
  }

  /** Whichever slot the last worker puts, with what it is left with. */
  predicate PutsNext(was: Worker, slot: Slot, worker: Worker) {
    || (was.left != [] && slot == Event(was.left[0]) && worker == was.(left := was.left[1..]))
    || (was.left == [] && was.ends && slot == Sentinel && worker == was.(status := Finished))
  }

  lemma SentinelLastAppend(queue: seq<Slot>, slot: Slot)
    requires SentinelLast(queue, false)
    ensures SentinelLast(queue + [slot], slot == Sentinel)
  {
  }

  lemma PutEventKeepsDuring(k: Connection, queues: seq<seq<Slot>>, w: nat)
    requires k.current.Some? && During(k, queues) && IsLive(k, w) && w == |k.workers| - 1 && k.workers[w].left != []
    ensures var q, left := k.events.value, k.workers[w].left;
            During(k.(workers := k.workers[w := k.workers[w].(left := left[1..])]),
                   queues[q := queues[q] + [Event(left[0])]])
  {
    var queue, left := queues[k.events.value], k.workers[w].left;
    PayloadAppend(queue, Event(left[0]));
    SentinelLastAppend(queue, Event(left[0]));
    MoveAcross(k.sent, Payload(queue), left);
  }

  lemma PutSentinelKeepsDuring(k: Connection, queues: seq<seq<Slot>>, w: nat)
    requires k.current.Some? && During(k, queues) && IsLive(k, w) && w == |k.workers| - 1
    requires k.workers[w].left == [] && k.workers[w].ends
    ensures var q := k.events.value;
            During(k.(workers := k.workers[w := k.workers[w].(status := Finished)]),
                   queues[q := queues[q] + [Sentinel]])
  {
    var queue := queues[k.events.value];
    PayloadAppend(queue, Sentinel);
    SentinelLastAppend(queue, Sentinel);
    assert Payload(queue) + [] == Payload(queue);
  }

  lemma PutKeepsInv(k: Connection, queues: seq<seq<Slot>>, w: nat, slot: Slot, worker: Worker)
    requires ConnectionInv(k, queues) && IsLive(k, w) && PutsNext(k.workers[w], slot, worker)
    ensures k.current.Some? && w == |k.workers| - 1 && k.events.Some? && k.events.value < |queues|
    ensures var q := k.events.value;
            ConnectionInv(k.(workers := k.workers[w := worker]), queues[q := queues[q] + [slot]])
  {
    OnlyLastIsLive(k, queues, w);
    if k.workers[w].left != [] { PutEventKeepsDuring(k, queues, w); } else { PutSentinelKeepsDuring(k, queues, w); }
  }

  lemma Regroup(sent: seq<Message>, first: seq<Message>, rest: seq<Message>, left: seq<Message>)
    ensures sent + (first + rest) + left == sent + first + rest + left
  {
  }

  lemma SendEventKeepsDuring(k: Connection, queues: seq<seq<Slot>>)
    requires k.current.Some? && During(k, queues) && queues[k.events.value] != [] && queues[k.events.value][0].Event?
    requires k.phase == Relaying
    ensures var queue := queues[k.events.value];
            During(Send(k, queue[0]), queues[k.events.value := queue[1..]])
  {
    var queue := queues[k.events.value];
    var m := queue[0].message;
    Regroup(k.sent, [m], Payload(queue[1..]), k.workers[|k.workers| - 1].left);
    assert Replies(k.finished) <= k.sent + [m];
  }

  lemma SendSentinelEndsRequest(k: Connection, queues: seq<seq<Slot>>)
    requires k.current.Some? && During(k, queues) && queues[k.events.value] != [] && queues[k.events.value][0].Sentinel?
    requires k.phase == Relaying
    ensures k.current.value.ends && queues[k.events.value][1..] == []
    ensures Between(Send(k, Sentinel), queues[k.events.value := []])
  {
    var queue := queues[k.events.value];
    assert |queue| == 1;
    assert queue[1..] == [] && Payload(queue) == [] + Payload(queue[1..]);
    assert k.sent + [] + [] == k.sent;
    RepliesAppend(k.finished, k.current.value);
  }

  lemma SentinelKeepsOrder(k: Connection)
    requires RequestsInOrder(k) && k.current.Some? && k.current.value.Stream? && k.current.value.ends
    ensures RequestsInOrder(Send(k, Sentinel))
  {
    assert k.finished + [k.current.value] + [] + k.inbox == k.finished + [k.current.value] + k.inbox;
  }

  lemma SendKeepsInv(k: Connection, queues: seq<seq<Slot>>)
    requires ConnectionInv(k, queues) && k.phase == Relaying
    requires k.current.Some? && k.events.Some? && queues[k.events.value] != []
    ensures var q := k.events.value;
            ConnectionInv(Send(k, queues[q][0]), queues[q := queues[q][1..]])
  {
    if queues[k.events.value][0].Event? {
      SendEventKeepsDuring(k, queues);
    } else {
      SendSentinelEndsRequest(k, queues);
      SentinelKeepsOrder(k);
    }
  }

  lemma OnlyOneChanged(s: Server, t: Server, c: nat)
    requires Inv(s) && c < |s.connections| == |t.connections| && |s.queues| <= |t.queues|
    requires forall d :: 0 <= d < |s.connections| && d != c ==> t.connections[d] == s.connections[d]
    requires ConnectionInv(t.connections[c], t.queues)
    // the other connections' queues are untouched
    requires forall d :: 0 <= d < |s.connections| && d != c && s.connections[d].events.Some? ==>
               t.queues[s.connections[d].events.value] == s.queues[s.connections[d].events.value]
               && s.connections[d].events != t.connections[c].events
    ensures Inv(t)
  {
    forall d | 0 <= d < |t.connections| ensures ConnectionInv(t.connections[d], t.queues) {
      if d != c { Frame(s.connections[d], s.queues, t.queues); }
    }
    forall d, e | 0 <= d < e < |t.connections| && t.connections[d].events.Some? && t.connections[e].events.Some?
      ensures t.connections[d].events != t.connections[e].events
    {
      assert d != c ==> t.connections[d] == s.connections[d];
      assert e != c ==> t.connections[e] == s.connections[e];
    }
  }

  /** A queue in use is not the one that is about to be made, and belongs to one connection. */
  lemma QueuesInUse(s: Server, c: nat, d: nat)
    requires Inv(s) && c < |s.connections| && d < |s.connections| && c != d && s.connections[d].events.Some?
    ensures s.connections[d].events.value < |s.queues|
    ensures s.connections[c].events != s.connections[d].events
  {
    assert ConnectionInv(s.connections[d], s.queues);
  }

  lemma ReceiveKeepsInv(s: Server, c: nat)
    requires Inv(s) && Step(s, Receive(c)).Some?
    ensures Inv(Step(s, Receive(c)).value)
  {
    var t := Step(s, Receive(c)).value;
    AcceptKeepsInv(s.connections[c], s.queues);
    forall d | 0 <= d < |s.connections| && d != c && s.connections[d].events.Some?
      ensures s.connections[d].events.value < |s.queues| && s.connections[d].events != s.connections[c].events
    {
      QueuesInUse(s, c, d);
    }
    OnlyOneChanged(s, t, c);
  }

  lemma PutSlotKeepsInv(s: Server, c: nat, w: nat, slot: Slot, worker: Worker)
    requires Inv(s) && c < |s.connections| && IsLive(s.connections[c], w)
    requires PutsNext(s.connections[c].workers[w], slot, worker)
    ensures PutSlot(s, c, w, slot, worker).Some? && Inv(PutSlot(s, c, w, slot, worker).value)
  {
    PutKeepsInv(s.connections[c], s.queues, w, slot, worker);
    var t := PutSlot(s, c, w, slot, worker).value;
    forall d | 0 <= d < |s.connections| && d != c && s.connections[d].events.Some?
      ensures s.connections[d].events.value < |s.queues| && s.connections[d].events != s.connections[c].events
    {
      QueuesInUse(s, c, d);
    }
    OnlyOneChanged(s, t, c);
  }

  lemma RelayKeepsInv(s: Server, c: nat)
    requires Inv(s) && Step(s, Relay(c)).Some?
    ensures Inv(Step(s, Relay(c)).value)
  {
    var t := Step(s, Relay(c)).value;
    SendKeepsInv(s.connections[c], s.queues);
    forall d | 0 <= d < |s.connections| && d != c && s.connections[d].events.Some?
      ensures s.connections[d].events.value < |s.queues| && s.connections[d].events != s.connections[c].events
    {
      QueuesInUse(s, c, d);
    }
    OnlyOneChanged(s, t, c);
  }

  /** A step that leaves the queues and the variable alone: a worker's exception, a disconnection, a thread
      that begins to wait or is given back. */
  predicate IsQuiet(a: Action) { a.Raise? || a.Disconnect? || a.Fetch? || a.Release? }

  lemma QuietStepOfConnection(s: Server, a: Action)
    requires a.c < |s.connections| && ConnectionInv(s.connections[a.c], s.queues) && Step(s, a).Some? && IsQuiet(a)
    ensures var t := Step(s, a).value;
            && t.queues == s.queues && t == With(s, a.c, t.connections[a.c])
            && t.connections[a.c].events == s.connections[a.c].events
            && ConnectionInv(t.connections[a.c], s.queues)
  {
    var k, k' := s.connections[a.c], Step(s, a).value.connections[a.c];
    match a
    case Fetch(_) => assert k' == k.(fetching := true) && k.current.Some?;
    case Release(_) => assert k' == k.(fetching := false) && k.current.Some?;
    case Disconnect(_) => assert k' == k.(phase := Disconnected);
    case Raise(_, w) => OnlyLastIsLive(k, s.queues, w);
  }

  lemma QuietStepKeepsInv(s: Server, a: Action)
    requires Inv(s) && Step(s, a).Some? && IsQuiet(a)
    ensures Inv(Step(s, a).value)
  {
    QuietStepOfConnection(s, a);
    var t := Step(s, a).value;
    forall d | 0 <= d < |s.connections| && d != a.c && s.connections[d].events.Some?
      ensures s.connections[d].events.value < |s.queues| && s.connections[d].events != s.connections[a.c].events
    {
      QueuesInUse(s, a.c, d);
    }
    OnlyOneChanged(s, t, a.c);
  }

  lemma StepKeepsInv(s: Server, a: Action)
    requires Inv(s) && Step(s, a).Some?
    ensures Inv(Step(s, a).value) && SameClients(s, Step(s, a).value)
  {
    match a {
      case Receive(c) => ReceiveKeepsInv(s, c);
      case Put(c, w) =>
        var k := s.connections[c];
        PutSlotKeepsInv(s, c, w, Event(k.workers[w].left[0]), k.workers[w].(left := k.workers[w].left[1..]));
      case End(c, w) =>
        PutSlotKeepsInv(s, c, w, Sentinel, s.connections[c].workers[w].(status := Finished));
      case Relay(c) => RelayKeepsInv(s, c);
      case _ => QuietStepKeepsInv(s, a);
    }
  }

  /** The clients and what they ask never change. */
  predicate SameClients(s: Server, t: Server) {
    && |s.connections| == |t.connections| && s.pool == t.pool
    && (forall c :: 0 <= c < |s.connections| ==> s.connections[c].requests == t.connections[c].requests)
  }

  lemma RunKeepsInv(clients: seq<seq<Request>>, pool: nat, acts: seq<Action>)
    ensures var r := Exec(Step, Initial(clients, pool), acts);
            r.Some? ==> Inv(r.value) && SameClients(Initial(clients, pool), r.value)
  {
    var inv := (s: Server) => Inv(s) && SameClients(Initial(clients, pool), s);
    forall c | 0 <= c < |clients| ensures ConnectionInv(Initial(clients, pool).connections[c], []) {
      assert [] + [] + clients[c] == clients[c];
    }
    forall s, a | inv(s) && Step(s, a).Some? ensures inv(Step(s, a).value) { StepKeepsInv(s, a); }
    Preserved(Step, inv, Initial(clients, pool), acts);
  }

  /** The relay refines its requests: under every interleaving of all connections and workers, what a
      socket has been sent is the whole replies to its finished requests, in order, and a prefix of the
      reply to the current one; the requests finished, under way and to come are the client's own; and
      between requests the queue is empty. */
  lemma SocketsGetTheirOwnReplies(clients: seq<seq<Request>>, pool: nat, acts: seq<Action>, c: nat)
    requires Exec(Step, Initial(clients, pool), acts).Some? && c < |clients|
    ensures var s := Exec(Step, Initial(clients, pool), acts).value;
            |s.connections| == |clients| &&
            var k := s.connections[c];
            && k.finished + Pending(k.current) + k.inbox == clients[c]
            && Replies(k.finished) <= k.sent <= Replies(k.finished + Pending(k.current))
            && (k.current.None? && k.events.Some? ==> k.events.value < |s.queues| && s.queues[k.events.value] == [])
  {
    RunKeepsInv(clients, pool, acts);
    var s := Exec(Step, Initial(clients, pool), acts).value;
    var k := s.connections[c];
    assert ConnectionInv(k, s.queues);
    if k.current.Some? {
      RepliesAppend(k.finished, k.current.value);
      SentIsPrefix(k, s.queues);
    } else {
      assert k.finished + [] == k.finished;
    }
  }

  lemma SentIsPrefix(k: Connection, queues: seq<seq<Slot>>)
    requires k.current.Some? && During(k, queues)
    ensures k.sent <= Replies(k.finished) + Full(k.current.value)
  {
    var rest := Payload(queues[k.events.value]) + k.workers[|k.workers| - 1].left;
    assert k.sent + Payload(queues[k.events.value]) + k.workers[|k.workers| - 1].left == k.sent + rest;
  }

  /** When a sentinel is taken off a queue it is all that is on it: nothing is left for a later request. */
  lemma SentinelLeavesNothing(clients: seq<seq<Request>>, pool: nat, acts: seq<Action>, c: nat)
    requires Exec(Step, Initial(clients, pool), acts).Some? && c < |clients|
    ensures var s := Exec(Step, Initial(clients, pool), acts).value;
            |s.connections| == |clients| &&
            var k := s.connections[c];
            k.phase == Relaying ==>
              && k.events.Some? && k.events.value < |s.queues|
              && ([Sentinel] <= s.queues[k.events.value] ==> s.queues[k.events.value] == [Sentinel])
  {
    RunKeepsInv(clients, pool, acts);
    var s := Exec(Step, Initial(clients, pool), acts).value;
    assert ConnectionInv(s.connections[c], s.queues);
  }

  // ----- Clients that leave -----

  lemma {:induction false} GoneStaysGone(s: Server, c: nat, acts: seq<Action>)
    requires c < |s.connections| && s.connections[c].phase == Disconnected && Exec(Step, s, acts).Some?
    ensures var t := Exec(Step, s, acts).value;
            && c < |t.connections| && t.connections[c].phase == Disconnected
            && t.connections[c].sent == s.connections[c].sent
    decreases |acts|
  {
    if acts != [] {
      GoneStepStaysGone(s, c, acts[0]);
      GoneStaysGone(Step(s, acts[0]).value, c, acts[1..]);
    }
  }

  lemma GoneStepStaysGone(s: Server, c: nat, a: Action)
    requires c < |s.connections| && s.connections[c].phase == Disconnected && Step(s, a).Some?
    ensures var t := Step(s, a).value;
            && c < |t.connections| && t.connections[c].phase == Disconnected
            && t.connections[c].sent == s.connections[c].sent
  {
    var t := Step(s, a).value;
    if a.c != c { assert t.connections[c] == s.connections[c]; }
  }

  /** A client can leave at any moment; from then on nothing more is sent to it, whatever its worker still puts. */
  lemma NothingSentAfterLeaving(s: Server, c: nat, acts: seq<Action>)
    requires c < |s.connections| && s.connections[c].phase != Disconnected
    ensures Step(s, Disconnect(c)).Some?
    ensures var t := Step(s, Disconnect(c)).value;
            Exec(Step, t, acts).Some? ==>
              var u := Exec(Step, t, acts).value;
              && c < |u.connections| && u.connections[c].phase == Disconnected
              && u.connections[c].sent == s.connections[c].sent
  {
    var t := Step(s, Disconnect(c)).value;
    if Exec(Step, t, acts).Some? { GoneStaysGone(t, c, acts); }
  }

  // ----- Completion -----

  /** Nothing more will happen unless a client disconnects. */
  ghost predicate Quiescent(s: Server) {
    forall a: Action :: !a.Disconnect? ==> Step(s, a).None?
  }

  /** The worker of a request under way has nothing more to do. */
  lemma WorkerIsDone(s: Server, c: nat)
    requires Inv(s) && c < |s.connections| && Quiescent(s) && s.connections[c].current.Some?
    ensures var k := s.connections[c];
            During(k, s.queues) && k.workers[|k.workers| - 1].status != Live
  {
    var k := s.connections[c];
    assert ConnectionInv(k, s.queues);
    var w := |k.workers| - 1;
    assert Step(s, Put(c, w)).None?;
    assert Step(s, End(c, w)).None?;
    assert Step(s, Raise(c, w)).None?;
  }

  /** When nothing more happens, a thread is held for a generator that raised. */
  lemma HolderRaised(s: Server, c: nat)
    requires Inv(s) && c < |s.connections| && Quiescent(s) && s.connections[c].fetching
    ensures var k := s.connections[c];
            && k.current.Some? && !k.current.value.ends
            && k.sent == Replies(k.finished) + Full(k.current.value)
  {
    var k := s.connections[c];
    assert ConnectionInv(k, s.queues);
    WorkerIsDone(s, c);
    assert Step(s, Relay(c)).None? && Step(s, Release(c)).None?;
    assert s.queues[k.events.value] == [] && Payload([]) == [];
    assert k.sent + [] + [] == k.sent;
  }

  predicate MayRaise(requests: seq<Request>) { exists r :: r in requests && r.Stream? && !r.ends }

  /** The clients one of whose generators raises. */
  function Raising(clients: seq<seq<Request>>): set<nat> { set c: nat | c < |clients| && MayRaise(clients[c]) }

  lemma CurrentIsAsked(k: Connection)
    requires RequestsInOrder(k) && k.current.Some?
    ensures k.current.value in k.requests
  {
    assert k.current.value in k.finished + [k.current.value] + k.inbox;
  }

  lemma {:induction false} SubsetSize<T>(a: set<T>, b: set<T>)
    requires a <= b
    ensures |a| <= |b|
  {
    if a != {} {
      var x :| x in a;
      SubsetSize(a - {x}, b - {x});
    }
  }

  /** So at the end no more threads are held than there are clients with a generator that raises. */
  lemma HoldersMayRaise(s: Server, clients: seq<seq<Request>>, pool: nat)
    requires Inv(s) && Quiescent(s) && SameClients(Initial(clients, pool), s)
    ensures |Holding(s)| <= |Raising(clients)|
  {
    forall c | c in Holding(s) ensures c in Raising(clients) {
      HolderRaised(s, c);
      assert ConnectionInv(s.connections[c], s.queues);
      CurrentIsAsked(s.connections[c]);
    }
    SubsetSize(Holding(s), Raising(clients));
  }

  /** Where a connection stands when nothing more happens and a thread is free. */
  lemma FreeThreadStuck(s: Server, c: nat)
    requires Inv(s) && c < |s.connections| && s.connections[c].phase != Disconnected
    requires Quiescent(s) && |Holding(s)| < s.pool
    ensures var k := s.connections[c];
            && (k.current.None? ==> k.inbox == [])
            && (k.current.Some? ==> !k.current.value.ends && k.sent == Replies(k.finished) + Full(k.current.value))
  {
    var k := s.connections[c];
    assert ConnectionInv(k, s.queues);
    assert Step(s, Receive(c)).None? && Step(s, Fetch(c)).None?;
    if k.current.Some? { HolderRaised(s, c); }
  }

  /** Completion: as long as fewer clients have a generator that raises than the executor has threads, then
      when nothing more can happen every client still there has had all its replies, in full and in order, if
      and only if none of its own generators raises.  Otherwise its handler waits for a sentinel that never
      comes, after the events of the generator that raised. */
  lemma AllAnsweredUnlessGeneratorRaises(clients: seq<seq<Request>>, pool: nat, acts: seq<Action>, c: nat)
    requires Exec(Step, Initial(clients, pool), acts).Some? && c < |clients|
    requires Quiescent(Exec(Step, Initial(clients, pool), acts).value) && |Raising(clients)| < pool
    ensures var s := Exec(Step, Initial(clients, pool), acts).value;
            |s.connections| == |clients| &&
            var k := s.connections[c];
            k.phase != Disconnected ==>
              && (k.inbox == [] && k.current.None? <==> !MayRaise(clients[c]))
              && (k.inbox == [] && k.current.None? ==> k.sent == Replies(clients[c]))
              && (k.current.Some? ==> k.sent == Replies(k.finished) + Full(k.current.value))
  {
    RunKeepsInv(clients, pool, acts);
    var s := Exec(Step, Initial(clients, pool), acts).value;
    var k := s.connections[c];
    assert ConnectionInv(k, s.queues);
    HoldersMayRaise(s, clients, pool);
    if k.phase != Disconnected {
      FreeThreadStuck(s, c);
      assert k.finished + Pending(k.current) + k.inbox == clients[c];
      if k.current.Some? {
        CurrentIsAsked(k);
      } else {
        assert k.finished + [] + [] == k.finished;
      }
    }
  }

  // ----- Starvation: the bound is sharp -----

  /** A handler whose generator has raised, waiting on an empty queue: it holds its thread for ever. */
  predicate Wedged(k: Connection, queues: seq<seq<Slot>>) {
    && k.fetching && k.phase != Receiving
    && k.events.Some? && k.events.value < |queues| && queues[k.events.value] == []
    && forall w :: 0 <= w < |k.workers| ==> k.workers[w].status != Live
  }

  /** The threads are all held like that, and connection `c` waits for one. */
  ghost predicate Starved(s: Server, wedged: set<nat>, c: nat) {
    && (forall d :: d in wedged ==> d < |s.connections| && Wedged(s.connections[d], s.queues))
    && |wedged| >= s.pool
    && c < |s.connections| && s.connections[c].phase != Receiving && !s.connections[c].fetching
  }

  lemma WedgedStays(s: Server, a: Action, d: nat)
    requires Inv(s) && Step(s, a).Some? && d < |s.connections| && Wedged(s.connections[d], s.queues)
    ensures d < |Step(s, a).value.connections| && Wedged(Step(s, a).value.connections[d], Step(s, a).value.queues)
  {
    if a.c != d { QueuesInUse(s, a.c, d); }
  }

  lemma NoThreadLeft(s: Server, wedged: set<nat>, c: nat)
    requires Starved(s, wedged, c)
    ensures |Holding(s)| >= s.pool
  {
    SubsetSize(wedged, Holding(s));
  }

  lemma StepKeepsStarved(s: Server, wedged: set<nat>, c: nat, a: Action)
    requires Inv(s) && Starved(s, wedged, c) && Step(s, a).Some?
    ensures var t := Step(s, a).value;
            Starved(t, wedged, c) && t.connections[c].sent == s.connections[c].sent
            && t.connections[c].current == s.connections[c].current
  {
    NoThreadLeft(s, wedged, c);
    forall d | d in wedged
      ensures d < |Step(s, a).value.connections| && Wedged(Step(s, a).value.connections[d], Step(s, a).value.queues)
    {
      WedgedStays(s, a, d);
    }
  }

  /** Once every thread is held for a generator that raised, its client still there or not, no other
      connection that waits for a thread is ever sent anything again, whatever its own generator does. */
  lemma {:induction false} StarvedForGood(s: Server, wedged: set<nat>, c: nat, acts: seq<Action>)
    requires Inv(s) && Starved(s, wedged, c) && Exec(Step, s, acts).Some?
    ensures var t := Exec(Step, s, acts).value;
            c < |t.connections| && t.connections[c].sent == s.connections[c].sent
            && t.connections[c].current == s.connections[c].current
    decreases |acts|
  {
    if acts != [] {
      StepKeepsInv(s, acts[0]);
      StepKeepsStarved(s, wedged, c, acts[0]);
      StarvedForGood(Step(s, acts[0]).value, wedged, c, acts[1..]);
    }
  }

  const RAISES: seq<Request> := [Stream([], false)]

  /** As many clients with a generator that raises as there are threads, and one more client. */
  function Crowd(pool: nat, asked: seq<Request>): seq<seq<Request>> {
    seq(pool + 1, c requires 0 <= c <= pool => if c < pool then RAISES else asked)
  }

  function WedgedOn(q: nat): Connection {
    Connection(RAISES, [], [], Some(RAISES[0]), Relaying, Some(q), true, [Worker([], false, Raised)], [])
  }

  function Member(pool: nat, asked: seq<Request>, i: nat, c: nat): (k: Connection)
    ensures i <= pool ==> (k.fetching <==> c < i)
  {
    if c < i then WedgedOn(c) else if c < pool then Opened(RAISES) else Opened(asked)
  }

  /** After the first `i` of them have got their threads. */
  function CrowdAt(pool: nat, asked: seq<Request>, i: nat): Server
    requires i <= pool
  {
    Server(seq(pool + 1, c requires 0 <= c <= pool => Member(pool, asked, i, c)), seq(i, q => []), pool)
  }

  function Wedging(i: nat): seq<Action> {
    if i == 0 then [] else Wedging(i - 1) + [Receive(i - 1), Fetch(i - 1), Raise(i - 1, 0)]
  }

  function Below(i: nat): (numbers: set<nat>)
    ensures |numbers| == i && forall c: nat :: c in numbers <==> c < i
  {
    if i == 0 then {} else Below(i - 1) + {i - 1}
  }

  lemma HoldingAt(s: Server, i: nat)
    requires i <= |s.connections| && forall c :: 0 <= c < |s.connections| ==> (s.connections[c].fetching <==> c < i)
    ensures |Holding(s)| == i
  {
    assert Holding(s) == Below(i);
  }

  lemma WedgeOne(pool: nat, asked: seq<Request>, i: nat)
    requires i < pool
    ensures Exec(Step, CrowdAt(pool, asked, i), [Receive(i), Fetch(i), Raise(i, 0)])
         == Some(CrowdAt(pool, asked, i + 1))
  {
    var s0 := CrowdAt(pool, asked, i);
    var k := WedgedOn(i).(fetching := false, workers := [Worker([], false, Live)]);
    var s1 := With(s0, i, k).(queues := s0.queues + [[]]);
    assert Opened(RAISES).workers + [Worker([], false, Live)] == k.workers && RAISES[1..] == [];
    assert Step(s0, Receive(i)) == Some(s1);
    assert forall c :: 0 <= c <= pool ==> s0.connections[c] == Member(pool, asked, i, c);
    HoldingAt(s1, i);
    var s2 := With(s1, i, k.(fetching := true));
    assert Step(s1, Fetch(i)) == Some(s2);
    var s3 := With(s2, i, WedgedOn(i));
    assert k.workers[0 := Worker([], false, Raised)] == [Worker([], false, Raised)];
    assert Step(s2, Raise(i, 0)) == Some(s3);
    assert s3.connections == CrowdAt(pool, asked, i + 1).connections;
    assert s3.queues == CrowdAt(pool, asked, i + 1).queues;
    Exec3(Step, s0, s1, s2, s3, Receive(i), Fetch(i), Raise(i, 0));
  }

  lemma WedgeNone(pool: nat, asked: seq<Request>)
    ensures Initial(Crowd(pool, asked), pool) == CrowdAt(pool, asked, 0)
  {
    assert Initial(Crowd(pool, asked), pool).connections == CrowdAt(pool, asked, 0).connections;
    assert Initial(Crowd(pool, asked), pool).queues == CrowdAt(pool, asked, 0).queues;
  }

  lemma {:induction false} WedgeMany(pool: nat, asked: seq<Request>, i: nat)
    requires i <= pool
    ensures Exec(Step, Initial(Crowd(pool, asked), pool), Wedging(i)) == Some(CrowdAt(pool, asked, i))
  {
    if i == 0 {
      WedgeNone(pool, asked);
    } else {
      WedgeMany(pool, asked, i - 1);
      WedgeOneMore(pool, asked, i - 1);
    }
  }

  lemma WedgeOneMore(pool: nat, asked: seq<Request>, i: nat)
    requires i < pool
    requires Exec(Step, Initial(Crowd(pool, asked), pool), Wedging(i)) == Some(CrowdAt(pool, asked, i))
    ensures Exec(Step, Initial(Crowd(pool, asked), pool), Wedging(i + 1)) == Some(CrowdAt(pool, asked, i + 1))
  {
    WedgeOne(pool, asked, i);
    ExecConcat(Step, Initial(Crowd(pool, asked), pool), Wedging(i), [Receive(i), Fetch(i), Raise(i, 0)]);
  }

  /** The last client's first request is taken when all threads are held. */
  lemma LastWaits(pool: nat, asked: seq<Request>)
    requires asked != [] && asked[0].Stream?
    ensures var r := Step(CrowdAt(pool, asked, pool), Receive(pool));
            && r.Some? && Starved(r.value, Below(pool), pool)
            && r.value.connections[pool].sent == [] && r.value.connections[pool].current == Some(asked[0])
  {
    var s := CrowdAt(pool, asked, pool);
    assert s.connections[pool] == Opened(asked);
    var t := Step(s, Receive(pool)).value;
    forall d | 0 <= d < pool ensures Wedged(t.connections[d], t.queues) {
      assert t.connections[d] == WedgedOn(d);
    }
  }

  lemma CrowdRuns(pool: nat, asked: seq<Request>)
    requires asked != [] && asked[0].Stream?
    ensures Exec(Step, Initial(Crowd(pool, asked), pool), Wedging(pool) + [Receive(pool)])
         == Step(CrowdAt(pool, asked, pool), Receive(pool))
  {
    WedgeMany(pool, asked, pool);
    ExecConcat(Step, Initial(Crowd(pool, asked), pool), Wedging(pool), [Receive(pool)]);
    assert [Receive(pool)][1..] == [];
  }

  /** The bound is sharp: with as many such clients as threads, there is a schedule after which a client all
      of whose generators may end is never sent anything, however it goes on. */
  lemma AsManyRaisingAsThreadsCanStarve(pool: nat, asked: seq<Request>, after: seq<Action>)
    requires asked != [] && asked[0].Stream?
    ensures var start := Exec(Step, Initial(Crowd(pool, asked), pool), Wedging(pool) + [Receive(pool)]);
            start.Some? &&
            (Exec(Step, start.value, after).Some? ==>
               var t := Exec(Step, start.value, after).value;
               && pool < |t.connections|
               && t.connections[pool].sent == [] && t.connections[pool].current == Some(asked[0]))
  {
    CrowdRuns(pool, asked);
    LastWaits(pool, asked);
    var acts := Wedging(pool) + [Receive(pool)];
    RunKeepsInv(Crowd(pool, asked), pool, acts);
    var s := Exec(Step, Initial(Crowd(pool, asked), pool), acts).value;
    if Exec(Step, s, after).Some? { StarvedForGood(s, Below(pool), pool, after); }
  }
}
