/** From the outbox to the warehouse: relays, the broker and consumers, any number of each,
    interleaved step by step, with crashes, lost confirms and redeliveries
    (src/outbox/relay.ts, src/messaging/topology.ts, src/messaging/consumer.ts,
    src/outbox/inbox.ts, src/messaging/effect.ts). */
module Delivery {
  import opened Wrappers
  import opened Decimal
  import opened Events
  import opened Checkout
  import opened Relay

  const DELIVERY_LIMIT := 5

  /** A relay transaction in progress: rows it holds, how far it got, whether the row at hand
      is published but not yet marked, and its uncommitted marks. */
  datatype Relaying = Relaying(batch: seq<OutboxRow>, at: nat, unmarked: bool, marks: set<nat>)

  datatype Place = Ready | Unacked(handler: nat) | Dead | Gone

  /** `requeues` counts how often the message came back unacknowledged. */
  datatype Message = Message(body: Json, place: Place, requeues: nat)

  /** How a consumer applies the effect: with the inbox table, or by its natural key alone. */
  datatype Mode = WithInbox(consumer: string) | NaturalKey

  datatype Pc = Parse | ClaimInbox | Effect | CommitEffect | Ack

  /** One run of the delivery handler. It may outlive the connection that delivered the
      message; then the broker redelivers while it is still at work. */
  datatype Handler = Handler(message: nat, mode: Mode, pc: Pc, event: Accepted, inserts: bool)

  datatype Picking = Picking(eventId: string, orderId: nat, quantity: int)

  /** `confirmed` remembers the outbox rows some publish of which the broker confirmed;
      `returned` are the messages no binding took. */
  datatype Net = Net(bound: bool, published: set<nat>, confirmed: set<nat>, relays: map<nat, Relaying>,
                     messages: map<nat, Message>, nextMessage: nat, returned: seq<Json>,
                     handlers: map<nat, Handler>, nextHandler: nat,
                     inbox: set<(string, string)>, picking: seq<Picking>)

  datatype PublishReply = Confirm | ConfirmLost | NotSent

  datatype Action =
    | BindQueue
    | PickBatch(r: nat, n: nat)
    | PublishRow(r: nat, reply: PublishReply)
    | MarkRow(r: nat)
    | CommitMarks(r: nat)
    | AbortRelay(r: nat)               // the hook threw, the process died, the database went away
    | PublishDirect(i: nat, now: string)  // checkout(): publish after COMMIT, without an outbox
    | PublishRaw(body: Json)           // a message nobody can read
    | Deliver(m: nat, mode: Mode)
    | HandlerStep(h: nat)
    | HandlerFail(h: nat)              // an exception before the ack, or the consumer died
    | ConnectionLost(m: nat)           // the broker takes the message back; the handler lives on

  // ---------------------------------------------------------------- steps

  function LockedRows(net: Net): set<nat> {
    set r, row | r in net.relays && row in net.relays[r].batch :: row.id
  }

  /** A publish with `mandatory`: no binding, and the message comes back instead. The broker
      confirms either way. */
  function Send(net: Net, body: Json): Net {
    if net.bound
    then net.(messages := net.messages[net.nextMessage := Message(body, Ready, 0)], nextMessage := net.nextMessage + 1)
    else net.(returned := net.returned + [body])
  }

  /** nack with requeue, a closed channel or a dead consumer. */
  function Requeue(m: Message): Message {
    m.(place := if m.requeues + 1 > DELIVERY_LIMIT then Dead else Ready, requeues := m.requeues + 1)
  }

  /** The message goes where `f` puts it if this handler is still the one to settle it. */
  function Settle(net: Net, h: nat, f: Message -> Message): Net
    requires h in net.handlers
  {
    var m := net.handlers[h].message;
    var closed := net.(handlers := net.handlers - {h});
    if m in net.messages && net.messages[m].place == Unacked(h)
    then closed.(messages := net.messages[m := f(net.messages[m])])
    else closed
  }

  function DirectEvent(db: Db, i: nat, now: string): Event
    requires i < |db.orders| && i < |db.items|
  {
    var order, item := db.orders[i], db.items[i];
    BuildOrderPlacedEvent(EventData(Text(order.id), Text(order.buyerId), Text(item.productId),
                                    item.quantity, order.totalCents, "UAH"), now)
  }

  predicate HasEffect(picking: seq<Picking>, eventId: string) {
    exists i :: 0 <= i < |picking| && picking[i].eventId == eventId
  }

  /** What Postgres takes for a bigint. */
  predicate IsNumber(text: string) {
    text != "" && AllDigits(text)
  }

  function RowFor(e: Accepted): Picking
    requires IsNumber(e.orderId)
  {
    Picking(e.eventId, Value(e.orderId), e.quantity)
  }

  /** Uncommitted rows of a handler: another INSERT of the same key waits for it. */
  predicate HoldsClaim(h: Handler, key: (string, string)) {
    h.mode.WithInbox? && h.pc in {Effect, CommitEffect} && key == (h.event.eventId, h.mode.consumer)
  }

  predicate HoldsInsert(h: Handler, eventId: string) {
    h.pc == CommitEffect && h.inserts && h.event.eventId == eventId
  }

  predicate ClaimBlocked(net: Net, h: nat, key: (string, string)) {
    exists g :: g in net.handlers && g != h && HoldsClaim(net.handlers[g], key)
  }

  predicate InsertBlocked(net: Net, h: nat, eventId: string) {
    exists g :: g in net.handlers && g != h && HoldsInsert(net.handlers[g], eventId)
  }

  predicate StepEnabled(net: Net, h: nat) {
    && h in net.handlers
    && net.handlers[h].message in net.messages
    && var handler := net.handlers[h];
       match handler.pc
       case ClaimInbox =>
         && handler.mode.WithInbox?
         && var key := (handler.event.eventId, handler.mode.consumer);
            key in net.inbox || !ClaimBlocked(net, h, key)
       case Effect =>
         && IsNumber(handler.event.orderId)  // anything else is an error of the statement
         && (HasEffect(net.picking, handler.event.eventId) || !InsertBlocked(net, h, handler.event.eventId))
       case CommitEffect => handler.mode.WithInbox? && IsNumber(handler.event.orderId)
       case _ => true
  }

  predicate Enabled(db: Db, net: Net, a: Action) {
    match a
    case BindQueue => true
    case PickBatch(r, n) => r !in net.relays
    case PublishRow(r, _) => r in net.relays && net.relays[r].at < |net.relays[r].batch| && !net.relays[r].unmarked
    case MarkRow(r) => r in net.relays && net.relays[r].at < |net.relays[r].batch| && net.relays[r].unmarked
    case CommitMarks(r) => r in net.relays && net.relays[r].at == |net.relays[r].batch|
    case AbortRelay(r) => r in net.relays
    case PublishDirect(i, _) => i < |db.orders| && i < |db.items|
    case PublishRaw(body) => ParseOrderPlaced(body).Failure?
    case Deliver(m, _) => m in net.messages && net.messages[m].place == Ready
    case HandlerStep(h) => StepEnabled(net, h)
    case HandlerFail(h) => h in net.handlers
    case ConnectionLost(m) => m in net.messages && net.messages[m].place.Unacked?
  }

  function RunHandler(net: Net, h: nat): Net
    requires StepEnabled(net, h)
  {
    var handler := net.handlers[h];
    var e := handler.event;
    match handler.pc
    case Parse =>
      (match ParseOrderPlaced(net.messages[handler.message].body)
       // reject(requeue = false): to the dead-letter queue
       case Failure(_) => Settle(net, h, (m: Message) => m.(place := Dead))
       case Success(event) =>
         net.(handlers := net.handlers[h := handler.(event := event,
                pc := if handler.mode.WithInbox? then ClaimInbox else Effect)]))
    case ClaimInbox =>
      var pc := if (e.eventId, handler.mode.consumer) in net.inbox then Ack else Effect;
      net.(handlers := net.handlers[h := handler.(pc := pc)])
    case Effect =>
      var inserts := !HasEffect(net.picking, e.eventId);
      if handler.mode.WithInbox?
      then net.(handlers := net.handlers[h := handler.(pc := CommitEffect, inserts := inserts)])
      else net.(handlers := net.handlers[h := handler.(pc := Ack)],
                picking := if inserts then net.picking + [RowFor(e)] else net.picking)
    case CommitEffect =>
      net.(handlers := net.handlers[h := handler.(pc := Ack)],
           inbox := net.inbox + {(e.eventId, handler.mode.consumer)},
           picking := if handler.inserts then net.picking + [RowFor(e)] else net.picking)
    case Ack => Settle(net, h, (m: Message) => m.(place := Gone))
  }

  /** Relay `r` goes on. */
  function Advance(net: Net, r: nat, relay: Relaying): Net {
    net.(relays := net.relays[r := relay])
  }

  function Skipped(relay: Relaying): Relaying {
    relay.(at := relay.at + 1)
  }

  function Marked(relay: Relaying): Relaying
    requires relay.at < |relay.batch|
  {
    relay.(at := relay.at + 1, unmarked := false, marks := relay.marks + {relay.batch[relay.at].id})
  }

  function PublishOne(net: Net, r: nat, reply: PublishReply): Net
    requires r in net.relays && net.relays[r].at < |net.relays[r].batch|
  {
    var relay := net.relays[r];
    var row := relay.batch[relay.at];
    match reply
    case Confirm => Advance(WithConfirmed(Send(net, ToJson(row.event)), row.id), r, relay.(unmarked := true))
    case ConfirmLost => Advance(Send(net, ToJson(row.event)), r, Skipped(relay))
    case NotSent => Advance(net, r, Skipped(relay))
  }

  function WithConfirmed(net: Net, id: nat): Net {
    net.(confirmed := net.confirmed + {id})
  }

  function HandOver(net: Net, m: nat, mode: Mode): Net
    requires m in net.messages
  {
    net.(messages := net.messages[m := net.messages[m].(place := Unacked(net.nextHandler))],
         handlers := net.handlers[net.nextHandler := Handler(m, mode, Parse, Accepted("", "", 0), false)],
         nextHandler := net.nextHandler + 1)
  }

  function Exec(db: Db, net: Net, a: Action): Net
    requires Enabled(db, net, a)
  {
    match a
    case BindQueue => net.(bound := true)
    case PickBatch(r, n) =>
      net.(relays := net.relays[r := Relaying(Pick(db.outbox, net.published, LockedRows(net), n), 0, false, {})])
    case PublishRow(r, reply) => PublishOne(net, r, reply)
    case MarkRow(r) => Advance(net, r, Marked(net.relays[r]))
    case CommitMarks(r) => net.(published := net.published + net.relays[r].marks, relays := net.relays - {r})
    case AbortRelay(r) => net.(relays := net.relays - {r})
    case PublishDirect(i, now) => Send(net, ToJson(DirectEvent(db, i, now)))
    case PublishRaw(body) => Send(net, body)
    case Deliver(m, mode) => HandOver(net, m, mode)
    case HandlerStep(h) => RunHandler(net, h)
    case HandlerFail(h) => Settle(net, h, Requeue)
    case ConnectionLost(m) => net.(messages := net.messages[m := Requeue(net.messages[m])])
  }

  function Initial(bound: bool): Net {
    Net(bound, {}, {}, map[], map[], 0, [], map[], 0, {}, [])
  }

  // ---------------------------------------------------------------- the invariant

  /** The event every consumer acts on for the order behind an item. */
  function AcceptedOf(item: Item): Accepted {
    Accepted(EventIdOf(Text(item.orderId)), Text(item.orderId), item.quantity)
  }

  ghost predicate Genuine(db: Db, e: Accepted) {
    exists i :: 0 <= i < |db.items| && e == AcceptedOf(db.items[i])
  }

  /** What the shop guarantees about the rows deliveries start from. */
  ghost predicate SourceOk(db: Db) {
    && |db.orders| == |db.items|
    && (forall i :: 0 <= i < |db.items| ==> db.items[i].orderId == db.orders[i].id && db.items[i].quantity > 0)
    && (forall i, j :: 0 <= i < j < |db.items| ==> db.items[i].orderId != db.items[j].orderId)
    && DistinctIds(db.outbox)
    && (forall j :: 0 <= j < |db.outbox| ==> RowGenuine(db, db.outbox[j]))
  }

  ghost predicate RowGenuine(db: Db, row: OutboxRow) {
    var parsed := ParseOrderPlaced(ToJson(row.event));
    parsed.Success? && Genuine(db, parsed.value)
  }

  ghost predicate MessageOk(db: Db, net: Net, m: Message) {
    var parsed := ParseOrderPlaced(m.body);
    && (parsed.Success? ==> Genuine(db, parsed.value))
    && (m.place == Dead ==> parsed.Failure? || m.requeues > DELIVERY_LIMIT)
    && (m.requeues > DELIVERY_LIMIT ==> m.place == Dead)
    && (m.place == Gone ==> parsed.Success? && HasEffect(net.picking, parsed.value.eventId))
    && (m.place.Unacked? ==> m.place.handler < net.nextHandler)
  }

  predicate HandlerOk(net: Net, h: Handler) {
    && h.message in net.messages
    && (h.pc != Parse ==> ParseOrderPlaced(net.messages[h.message].body) == Success(h.event))
    && (h.pc in {ClaimInbox, CommitEffect} ==> h.mode.WithInbox?)
    && (h.mode.WithInbox? && h.pc in {Effect, CommitEffect} ==> (h.event.eventId, h.mode.consumer) !in net.inbox)
    && (h.pc == CommitEffect ==> (h.inserts <==> !HasEffect(net.picking, h.event.eventId)))
    && (h.pc == Ack ==> HasEffect(net.picking, h.event.eventId))
  }

  /** No two handlers hold the same uncommitted inbox or picking row. */
  predicate HandlersApart(a: Handler, b: Handler) {
    && (a.mode.WithInbox? && a.pc in {Effect, CommitEffect} ==> !HoldsClaim(b, (a.event.eventId, a.mode.consumer)))
    && (a.pc == CommitEffect && a.inserts ==> !HoldsInsert(b, a.event.eventId))
  }

  ghost predicate HandlersOk(net: Net) {
    && (forall h :: h in net.handlers ==> h < net.nextHandler && HandlerOk(net, net.handlers[h]))
    && (forall g, h :: g in net.handlers && h in net.handlers && g != h ==>
          HandlersApart(net.handlers[g], net.handlers[h]))
  }

  ghost predicate MessagesOk(db: Db, net: Net) {
    forall m :: m in net.messages ==> m < net.nextMessage && MessageOk(db, net, net.messages[m])
  }

  ghost predicate PickingGenuine(db: Db, row: Picking) {
    exists i :: 0 <= i < |db.items| && row == RowFor(AcceptedOf(db.items[i]))
  }

  ghost predicate PickingOk(db: Db, net: Net) {
    && (forall i :: 0 <= i < |net.picking| ==> PickingGenuine(db, net.picking[i]))
    && (forall i, j :: 0 <= i < j < |net.picking| ==> net.picking[i].eventId != net.picking[j].eventId)
    && (forall key :: key in net.inbox ==> HasEffect(net.picking, key.0))
  }

  ghost predicate RelayOk(db: Db, net: Net, relay: Relaying) {
    && relay.at <= |relay.batch|
    && (forall row :: row in relay.batch ==> row in db.outbox && row.id !in net.published)
    && relay.marks <= net.confirmed && relay.marks <= IdsOf(relay.batch)
    && (relay.unmarked ==> relay.at < |relay.batch| && relay.batch[relay.at].id in net.confirmed)
  }

  /** No outbox row is in the hands of two relays. */
  ghost predicate RelaysOk(db: Db, net: Net) {
    && (forall r :: r in net.relays ==> RelayOk(db, net, net.relays[r]))
    && (forall q, r :: q in net.relays && r in net.relays && q != r ==>
          IdsOf(net.relays[q].batch) !! IdsOf(net.relays[r].batch))
  }

  /** The broker took the row's event, or handed it back for want of a binding. */
  ghost predicate Routed(net: Net, row: OutboxRow) {
    var body := ToJson(row.event);
    body in net.returned || exists m :: m in net.messages && net.messages[m].body == body
  }

  ghost predicate ConfirmedOk(db: Db, net: Net) {
    && net.published <= net.confirmed
    && (forall row :: row in db.outbox && row.id in net.confirmed ==> Routed(net, row))
    && (forall id :: id in net.confirmed ==> id in IdsOf(db.outbox))
  }

  ghost predicate Inv(db: Db, net: Net) {
    && SourceOk(db)
    && MessagesOk(db, net)
    && HandlersOk(net)
    && PickingOk(db, net)
    && RelaysOk(db, net)
    && ConfirmedOk(db, net)
  }
}
