/** The `order.placed` contract (src/messaging/contracts.ts) and the event written to the
    outbox (src/outbox/outbox.ts). */
module Events {
  import opened Wrappers
  import opened Decimal

  const ORDER_PLACED := "order.placed"
  const EVENT_PREFIX := "evt_order_placed_"

  /** A parsed JSON document, as a consumer receives it. */
  datatype Json =
    | Null
    | Bool(b: bool)
    | Number(n: real)
    | Str(s: string)
    | List(elements: seq<Json>)
    | Object(fields: map<string, Json>)

  datatype EventData = EventData(orderId: string, buyerId: string, productId: string,
                                 quantity: int, totalCents: int, currency: string)

  datatype Event = Event(eventId: string, typ: string, occurredAt: string, version: int, data: EventData)

  /** What a consumer goes on to use of an accepted message. */
  datatype Accepted = Accepted(eventId: string, orderId: string, quantity: int)

  datatype ParseError =
    NotAnObject | NoEventId | UnknownType | UnsupportedVersion | NoOrderId | BadQuantity

  function EventIdOf(orderId: string): string {
    EVENT_PREFIX + orderId
  }

  /** contracts.ts: the builder used by a publisher that runs after COMMIT. */
  function BuildOrderPlacedEvent(data: EventData, now: string): Event {
    Event(EventIdOf(data.orderId), ORDER_PLACED, now, 1, data)
  }

  /** outbox.ts: the builder used inside the business transaction. The currency defaults to
      "UAH" and no caller passes another one. */
  function ToOrderPlacedEvent(orderId: string, totalCents: int, buyerId: string, productId: string,
                              quantity: int, now: string): Event {
    Event(EVENT_PREFIX + orderId, ORDER_PLACED, now, 1,
          EventData(orderId, buyerId, productId, quantity, totalCents, "UAH"))
  }

  /** `JSON.parse(JSON.stringify(event))`. */
  function ToJson(e: Event): Json {
    Object(map[
      "eventId" := Str(e.eventId),
      "type" := Str(e.typ),
      "occurredAt" := Str(e.occurredAt),
      "version" := Number(e.version as real),
      "data" := Object(map[
        "orderId" := Str(e.data.orderId),
        "buyerId" := Str(e.data.buyerId),
        "productId" := Str(e.data.productId),
        "quantity" := Number(e.data.quantity as real),
        "totalCents" := Number(e.data.totalCents as real),
        "currency" := Str(e.data.currency)])])
  }

  /** Property access on any JSON value: `None` is `undefined`. */
  function Get(j: Json, name: string): Option<Json> {
    if j.Object? && name in j.fields then Some(j.fields[name]) else None
  }

  predicate IsPositiveInteger(x: real) {
    x.Floor as real == x && x > 0.0
  }

  /** contracts.ts: the validator at the consumer's door. Everything it does not check is
      passed through unread. */
  function ParseOrderPlaced(raw: Json): Result<Accepted, ParseError> {
    if !raw.Object? && !raw.List? then Failure(NotAnObject)
    else
      var eventId := Get(raw, "eventId");
      if eventId.None? || !eventId.value.Str? || |eventId.value.s| == 0 then Failure(NoEventId)
      else if Get(raw, "type") != Some(Str(ORDER_PLACED)) then Failure(UnknownType)
      else if Get(raw, "version") != Some(Number(1.0)) then Failure(UnsupportedVersion)
      else
        var data := Get(raw, "data");
        if data.None? then Failure(NoOrderId)
        else
          var orderId := Get(data.value, "orderId");
          if orderId.None? || !orderId.value.Str? then Failure(NoOrderId)
          else
            var quantity := Get(data.value, "quantity");
            if quantity.None? || !quantity.value.Number? || !IsPositiveInteger(quantity.value.n)
            then Failure(BadQuantity)
            else Success(Accepted(eventId.value.s, orderId.value.s, quantity.value.n.Floor))
  }

  /** The two builders describe one order by the same event exactly when the order is in the
      currency the outbox builder assumes. */
  lemma BuildersAgree(data: EventData, now: string)
    ensures ToOrderPlacedEvent(data.orderId, data.totalCents, data.buyerId, data.productId, data.quantity, now)
            == BuildOrderPlacedEvent(data, now)
            <==> data.currency == "UAH"
    // what a consumer acts on is the same in every currency
    ensures ParseOrderPlaced(ToJson(ToOrderPlacedEvent(data.orderId, data.totalCents, data.buyerId,
                                                      data.productId, data.quantity, now)))
            == ParseOrderPlaced(ToJson(BuildOrderPlacedEvent(data, now)))
  {
    BuiltEventParses(data, now);
    BuiltEventParses(data.(currency := "UAH"), now);
  }

  /** A built event is accepted exactly when it carries a positive quantity, and acceptance
      gives back the identity, order and quantity it was built from. */
  lemma BuiltEventParses(data: EventData, now: string)
    ensures ParseOrderPlaced(ToJson(BuildOrderPlacedEvent(data, now)))
            == if data.quantity > 0
               then Success(Accepted(EventIdOf(data.orderId), data.orderId, data.quantity))
               else Failure(BadQuantity)
  {
    var j := ToJson(BuildOrderPlacedEvent(data, now));
    assert Get(j, "eventId") == Some(Str(EVENT_PREFIX + data.orderId));
    assert |EVENT_PREFIX| > 0;
    assert (1 as real) == 1.0;
    var d := Get(j, "data").value;
    assert Get(d, "quantity") == Some(Number(data.quantity as real));
    assert (data.quantity as real).Floor == data.quantity;
  }

  /** Which member of the message carries what. */
  lemma JsonNames(e: Event)
    ensures var j := ToJson(e);
      && Get(j, "eventId") == Some(Str(e.eventId)) && Get(j, "type") == Some(Str(e.typ))
      && Get(j, "occurredAt") == Some(Str(e.occurredAt)) && Get(j, "version") == Some(Number(e.version as real))
      && Get(j, "data").Some?
      && var d := Get(j, "data").value;
         && Get(d, "orderId") == Some(Str(e.data.orderId)) && Get(d, "buyerId") == Some(Str(e.data.buyerId))
         && Get(d, "productId") == Some(Str(e.data.productId)) && Get(d, "currency") == Some(Str(e.data.currency))
         && Get(d, "quantity") == Some(Number(e.data.quantity as real))
         && Get(d, "totalCents") == Some(Number(e.data.totalCents as real))
  {
  }

  ghost predicate HasId(raw: Json) {
    exists id: string :: id != "" && Get(raw, "eventId") == Some(Str(id))
  }

  /** A message with the identity, type and version of the contract. */
  ghost predicate Identified(raw: Json) {
    && HasId(raw)
    && Get(raw, "type") == Some(Str("order.placed")) && Get(raw, "version") == Some(Number(1.0))
  }

  ghost predicate NamesOrder(raw: Json) {
    Get(raw, "data").Some? && exists id: string :: Get(Get(raw, "data").value, "orderId") == Some(Str(id))
  }

  predicate HoldsQuantity(raw: Json, n: int) {
    Get(raw, "data").Some? && Get(Get(raw, "data").value, "quantity") == Some(Number(n as real))
  }

  /** The whole contract of a message, whatever else it holds: accepted as `a` exactly if its members
      are those of `a`, the id not empty and the quantity a positive whole number. */
  lemma AcceptsExactly(raw: Json, a: Accepted)
    ensures ParseOrderPlaced(raw) == Success(a)
      <==> && Identified(raw) && NamesOrder(raw)
           && Get(raw, "eventId") == Some(Str(a.eventId))
           && Get(Get(raw, "data").value, "orderId") == Some(Str(a.orderId))
           && HoldsQuantity(raw, a.quantity) && a.quantity > 0
  {
    if NamesOrder(raw) {
      var quantity := Get(Get(raw, "data").value, "quantity");
      if quantity.Some? && quantity.value.Number? {
        assert quantity.value.n == a.quantity as real ==> quantity.value.n.Floor == a.quantity;
      }
    }
  }

  /** And it names the first thing that is wrong. */
  lemma RefusesForAReason(raw: Json)
    requires ParseOrderPlaced(raw).Failure?
    ensures match ParseOrderPlaced(raw).error
      case NotAnObject => !raw.Object? && !raw.List?
      case NoEventId => (raw.Object? || raw.List?) && !HasId(raw)
      case UnknownType => HasId(raw) && Get(raw, "type") != Some(Str("order.placed"))
      case UnsupportedVersion =>
        HasId(raw) && Get(raw, "type") == Some(Str("order.placed")) && Get(raw, "version") != Some(Number(1.0))
      case NoOrderId => Identified(raw) && !NamesOrder(raw)
      case BadQuantity =>
        Identified(raw) && NamesOrder(raw) && forall n: int :: n > 0 ==> !HoldsQuantity(raw, n)
  {
  }

  /** One fact, one id: events of different orders never share an id, events of one order
      always do. */
  lemma {:induction false} EventIdInjective(m: nat, n: nat)
    ensures EventIdOf(Text(m)) == EventIdOf(Text(n)) <==> m == n
  {
    var a, b := EventIdOf(Text(m)), EventIdOf(Text(n));
    assert a[|EVENT_PREFIX|..] == Text(m) && b[|EVENT_PREFIX|..] == Text(n);
    TextInjective(m, n);
  }
}
