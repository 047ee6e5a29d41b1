/** The event bus behind the order stream: numbered status events per order, the last hundred of
    them kept for clients that come back (src/orders/order-events.service.ts), and what a client
    sees over all its connections (src/orders/orders.controller.ts:76-84). */
module OrderEvents {

  const BUFFER_SIZE: nat := 100

  datatype StatusEvent = StatusEvent(id: nat, orderId: string, status: string, previousStatus: string, at: string)

  // ---------------------------------------------------------------- what the service keeps

  /** The events of an order are numbered from 1. */
  predicate Numbered(history: seq<StatusEvent>) {
    forall i :: 0 <= i < |history| ==> history[i].id == i + 1
  }

  /** The last hundred events. */
  function Buffer(history: seq<StatusEvent>): seq<StatusEvent> {
    if |history| > BUFFER_SIZE then history[|history| - BUFFER_SIZE..] else history
  }

  /** buffer.filter((e) => e.id > lastEventId) */
  function Newer(buffer: seq<StatusEvent>, lastEventId: nat): seq<StatusEvent> {
    if buffer == [] then []
    else (if buffer[0].id > lastEventId then [buffer[0]] else []) + Newer(buffer[1..], lastEventId)
  }

  lemma {:induction false} NewerOfNumbered(buffer: seq<StatusEvent>, from: nat, lastEventId: nat)
    requires forall i :: 0 <= i < |buffer| ==> buffer[i].id == from + i + 1
    ensures Newer(buffer, lastEventId) ==
      if lastEventId <= from then buffer
      else if lastEventId <= from + |buffer| then buffer[lastEventId - from..] else []
  {
    if buffer != [] {
      NewerOfNumbered(buffer[1..], from + 1, lastEventId);
    }
  }

  /** What a client that has seen everything up to `lastEventId` gets on connecting. */
  function Missed(history: seq<StatusEvent>, lastEventId: nat): seq<StatusEvent> {
    Newer(Buffer(history), lastEventId)
  }

  /** The replay is exactly what the client missed, if and only if it is at most a hundred events
      behind; otherwise it is the last hundred events. */
  lemma ReplayIsComplete(history: seq<StatusEvent>, lastEventId: nat)
    requires Numbered(history) && lastEventId <= |history|
    ensures Missed(history, lastEventId) == history[lastEventId..] <==> |history| - lastEventId <= 100
    ensures |history| - lastEventId > 100 ==>
      Missed(history, lastEventId) == history[|history| - 100..]
  {
    var buffer, missed := Buffer(history), Missed(history, lastEventId);
    NewerOfNumbered(buffer, |history| - |buffer|, lastEventId);
    if |history| - lastEventId > 100 {
      assert missed == buffer && |missed| == 100;
      assert |history[lastEventId..]| == |history| - lastEventId;
    } else if |history| > 100 {
      assert missed == buffer[lastEventId - (|history| - 100)..];
    } else {
      assert missed == buffer[lastEventId..];
    }
  }

  /** A client that claims to be ahead (after a restart of the service, say) gets nothing. */
  lemma NothingForTheFuture(history: seq<StatusEvent>, lastEventId: nat)
    requires Numbered(history) && lastEventId >= |history|
    ensures Missed(history, lastEventId) == []
  {
    NewerOfNumbered(Buffer(history), |history| - |Buffer(history)|, lastEventId);
  }

  predicate Tail(buffer: seq<StatusEvent>, sequence: nat, history: seq<StatusEvent>) {
    Numbered(history) && sequence == |history| && buffer == Buffer(history)
  }

  /** Pushing to the ring keeps it the tail of the history. */
  lemma TailOfNext(buffer: seq<StatusEvent>, sequence: nat, history: seq<StatusEvent>, event: StatusEvent)
    requires Tail(buffer, sequence, history) && event.id == sequence + 1
    ensures var longer := buffer + [event];
      Tail(if |longer| > BUFFER_SIZE then longer[|longer| - BUFFER_SIZE..] else longer, sequence + 1, history + [event])
  {
    var longer := buffer + [event];
    assert Buffer(history + [event]) == if |longer| > BUFFER_SIZE then longer[|longer| - BUFFER_SIZE..] else longer;
  }

  predicate Kept(buffers: map<string, seq<StatusEvent>>, sequences: map<string, nat>,
                 history: map<string, seq<StatusEvent>>) {
    && buffers.Keys == sequences.Keys == history.Keys
    && forall o :: o in history ==> Tail(buffers[o], sequences[o], history[o])
  }

  lemma KeptWith(buffers: map<string, seq<StatusEvent>>, sequences: map<string, nat>,
                 history: map<string, seq<StatusEvent>>, o: string,
                 buffer: seq<StatusEvent>, sequence: nat, events: seq<StatusEvent>)
    requires Kept(buffers, sequences, history) && Tail(buffer, sequence, events)
    ensures Kept(buffers[o := buffer], sequences[o := sequence], history[o := events])
  {
  }

  function EventsOf(history: map<string, seq<StatusEvent>>, orderId: string): seq<StatusEvent> {
    if orderId in history then history[orderId] else []
  }

  class OrderEventsService {
    var buffers: map<string, seq<StatusEvent>>
    var sequences: map<string, nat>
    var emitted: seq<StatusEvent>                   // what went to the subscribers
    ghost var history: map<string, seq<StatusEvent>>  // every event ever published, by order

    ghost function History(orderId: string): seq<StatusEvent>
      reads this
    {
      EventsOf(history, orderId)
    }

    ghost predicate Valid()
      reads this
    {
      Kept(buffers, sequences, history)
    }

    constructor ()
      ensures Valid() && history == map[] && emitted == []
    {
      buffers, sequences, emitted, history := map[], map[], [], map[];
    }

    /** The new event gets the next number of its order and goes to all subscribers; other
        orders are not touched. */
    method Publish(orderId: string, status: string, previousStatus: string, at: string) returns (event: StatusEvent)
      requires Valid()
      modifies this
      ensures Valid()
      ensures event == StatusEvent(|old(History(orderId))| + 1, orderId, status, previousStatus, at)
      ensures history == old(history)[orderId := old(History(orderId)) + [event]]
      ensures emitted == old(emitted) + [event]
    {
      var sequence := if orderId in sequences then sequences[orderId] else 0;
      var buffer := if orderId in buffers then buffers[orderId] else [];
      event := StatusEvent(sequence + 1, orderId, status, previousStatus, at);
      assert Tail(buffer, sequence, History(orderId));
      TailOfNext(buffer, sequence, History(orderId), event);
      sequences := sequences[orderId := sequence + 1];
      buffer := buffer + [event];
      if |buffer| > BUFFER_SIZE { buffer := buffer[|buffer| - BUFFER_SIZE..]; }
      buffers := buffers[orderId := buffer];
      KeptWith(old(buffers), old(sequences), history, orderId, buffer, sequence + 1, History(orderId) + [event]);
      history := history[orderId := History(orderId) + [event]];
      emitted := emitted + [event];
    }

    function ReplaySince(orderId: string, lastEventId: nat): (missed: seq<StatusEvent>)
      requires Valid()
      reads this
      ensures missed == Missed(History(orderId), lastEventId)
    {
      Newer(if orderId in buffers then buffers[orderId] else [], lastEventId)
    }

    function LastEventId(orderId: string): (id: nat)
      requires Valid()
      reads this
      ensures id == |History(orderId)|
    {
      if orderId in sequences then sequences[orderId] else 0
    }
  }

  // ---------------------------------------------------------------- a client and its connections

  /** `sent`: written on the present connection; the client has read the first `read` of it. */
  datatype Client = Client(connected: bool, sent: seq<StatusEvent>, read: nat, lastEventId: nat, seen: seq<StatusEvent>)

  /** The bus and one client, as to one order. */
  datatype State = State(history: seq<StatusEvent>, client: Client)

  datatype Action =
    | Publish(event: StatusEvent)
    | Connect      // with the id of the last event seen, or 0
    | Receive
    | Disconnect   // what was written and not read is lost

  const START := State([], Client(false, [], 0, 0, []))

  predicate Enabled(s: State, a: Action) {
    match a
    case Publish(event) => event.id == |s.history| + 1
    case Connect => !s.client.connected
    case Receive => s.client.connected && s.client.read < |s.client.sent|
    case Disconnect => s.client.connected
  }

  function Exec(s: State, a: Action): State
    requires Enabled(s, a)
  {
    var c := s.client;
    match a
    case Publish(event) =>
      State(s.history + [event], if c.connected then c.(sent := c.sent + [event]) else c)
    case Connect =>
      s.(client := Client(true, Missed(s.history, c.lastEventId), 0, c.lastEventId, c.seen))
    case Receive =>
      var event := c.sent[c.read];
      s.(client := c.(read := c.read + 1, lastEventId := event.id, seen := c.seen + [event]))
    case Disconnect => s.(client := c.(connected := false, sent := [], read := 0))
  }

  predicate ValidRun(s: State, run: seq<Action>)
    decreases |run|
  {
    run == [] || (Enabled(s, run[0]) && ValidRun(Exec(s, run[0]), run[1..]))
  }

  function Run(s: State, run: seq<Action>): State
    requires ValidRun(s, run)
    decreases |run|
  {
    if run == [] then s else Run(Exec(s, run[0]), run[1..])
  }

  /** How many events the client has missed. */
  function Lag(s: State): int {
    |s.history| - s.client.lastEventId
  }

  /** The client never comes back more than a hundred events late. */
  predicate NeverTooLate(s: State, run: seq<Action>)
    requires ValidRun(s, run)
    decreases |run|
  {
    run == [] || ((run[0].Connect? ==> Lag(s) <= BUFFER_SIZE) && NeverTooLate(Exec(s, run[0]), run[1..]))
  }

  predicate InOrder(s: State) {
    && Numbered(s.history) && s.client.lastEventId <= |s.history|
    && s.client.seen == s.history[..s.client.lastEventId]
    && (s.client.connected ==>
          s.client.read <= |s.client.sent| && s.client.sent[s.client.read..] == s.history[s.client.lastEventId..])
  }

  lemma StepKeepsOrder(s: State, a: Action)
    requires InOrder(s) && Enabled(s, a) && (a.Connect? ==> Lag(s) <= BUFFER_SIZE)
    ensures InOrder(Exec(s, a))
  {
    var c, s' := s.client, Exec(s, a);
    match a
    case Publish(event) =>
      if c.connected {
        assert s'.client.sent[c.read..] == c.sent[c.read..] + [event];
        assert s'.history[c.lastEventId..] == s.history[c.lastEventId..] + [event];
      }
      assert s'.history[..c.lastEventId] == s.history[..c.lastEventId];
    case Connect =>
      ReplayIsComplete(s.history, c.lastEventId);
      assert s'.client.sent[0..] == s'.client.sent;
    case Receive =>
      assert c.sent[c.read] == c.sent[c.read..][0] == s.history[c.lastEventId];
      assert c.sent[c.read..][1..] == c.sent[c.read + 1..];
      assert s.history[c.lastEventId..][1..] == s.history[c.lastEventId + 1..];
      assert s.history[..c.lastEventId + 1] == s.history[..c.lastEventId] + [s.history[c.lastEventId]];
    case Disconnect =>
  }

  lemma {:induction false} RunKeepsOrder(s: State, run: seq<Action>)
    requires InOrder(s) && ValidRun(s, run) && NeverTooLate(s, run)
    ensures InOrder(Run(s, run))
    decreases |run|
  {
    if run != [] {
      StepKeepsOrder(s, run[0]);
      RunKeepsOrder(Exec(s, run[0]), run[1..]);
    }
  }

  /** A client that is never more than a hundred events late when it connects has, over all its
      connections, seen the events of its order once each, in order, without gaps; and while
      connected all it has not read yet is on its way. */
  lemma {:induction false} Resumption(run: seq<Action>)
    requires ValidRun(START, run) && NeverTooLate(START, run)
    ensures var s := Run(START, run);
      var c := s.client;
      && c.lastEventId <= |s.history| && c.seen == s.history[..c.lastEventId]
      && (c.connected ==> c.read <= |c.sent| && c.seen + c.sent[c.read..] == s.history)
  {
    RunKeepsOrder(START, run);
    var s := Run(START, run);
    assert s.history == s.history[..s.client.lastEventId] + s.history[s.client.lastEventId..];
  }

  /** A client that comes later than that and reads on has a gap it can never fill: the events
      between its last one and the oldest of the hundred. */
  lemma {:induction false} TooLateSkips(s: State)
    requires InOrder(s) && !s.client.connected && Lag(s) > BUFFER_SIZE
    ensures ValidRun(s, [Connect, Receive])
    ensures var after := Run(s, [Connect, Receive]);
      && after.client.seen == s.history[..s.client.lastEventId] + [s.history[|s.history| - BUFFER_SIZE]]
      && after.client.lastEventId > s.client.lastEventId + 1
      && !InOrder(after)
  {
    ReplayIsComplete(s.history, s.client.lastEventId);
    var s1 := Exec(s, Connect);
    assert [Connect, Receive][1..] == [Receive];
    assert Enabled(s1, Receive);
    var s2 := Exec(s1, Receive);
    assert [Receive][1..] == [];
    assert ValidRun(s2, []) && ValidRun(s1, [Receive]);
    assert s2.client.lastEventId == |s.history| - BUFFER_SIZE + 1;
    assert |s2.client.seen| == s.client.lastEventId + 1;
  }
}
