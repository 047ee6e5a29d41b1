/** The in-memory order book of the HTTP service: creation behind an idempotency key, status
    changes, listing (src/orders/orders.service.ts). Calls do not overlap. */
module Orders {
  import opened Wrappers
  import opened Decimal
  import opened OrderEvents

  datatype Item = Item(productId: string, quantity: int)

  datatype Order = Order(id: string, buyerId: string, status: string, items: seq<Item>, totalCents: int,
                         currency: string, createdAt: string)

  datatype CreateOrderBody = CreateOrderBody(items: seq<Item>, currency: Option<string>)

  datatype Error = NotFound(message: string) | Unprocessable

  /** The record under an idempotency key: the hash of the body, and the place in the book of the
      order itself, which later status changes show through. */
  datatype IdempotencyRecord = IdempotencyRecord(hash: string, snapshot: nat)

  function OrderId(n: nat): string {
    "o_" + Text(n)
  }

  /** The sum over the items, or the first product that does not exist. `prices` is the catalogue. */
  function Total(prices: map<string, int>, items: seq<Item>): Result<int, string> {
    if items == [] then Success(0)
    else
      var rest := Total(prices, items[..|items| - 1]);
      var last := items[|items| - 1];
      if rest.Failure? then rest
      else if last.productId !in prices then Failure(last.productId)
      else Success(rest.value + prices[last.productId] * last.quantity)
  }

  /** The status of an order before its i-th event. */
  function StatusBefore(initial: string, history: seq<StatusEvent>, i: nat): string
    requires i <= |history|
  {
    if i == 0 then initial else history[i - 1].status
  }

  /** From `initial` through the events of an order to its present status: each event's previous
      status is the status before it. */
  predicate Chained(initial: string, history: seq<StatusEvent>, present: string) {
    && (forall i :: 0 <= i < |history| ==> history[i].previousStatus == StatusBefore(initial, history, i))
    && present == StatusBefore(initial, history, |history|)
  }

  /** Order `i` alone changed, as `event` tells. */
  predicate Changed(before: seq<Order>, i: nat, event: StatusEvent, after: seq<Order>) {
    && i < |before| && before[i].id == event.orderId && before[i].status == event.previousStatus
    && after == before[i := before[i].(status := event.status)]
  }

  lemma ChainGrows(initial: string, history: seq<StatusEvent>, present: string, event: StatusEvent)
    requires Chained(initial, history, present) && event.previousStatus == present
    ensures Chained(initial, history + [event], event.status)
  {
    var longer := history + [event];
    forall i | 0 <= i < |longer|
      ensures longer[i].previousStatus == StatusBefore(initial, longer, i)
    {
      assert StatusBefore(initial, longer, i) == StatusBefore(initial, history, i);
    }
  }

  lemma OrderIdsDiffer(m: nat, n: nat)
    ensures OrderId(m) == OrderId(n) <==> m == n
  {
    assert OrderId(m)[2..] == Text(m) && OrderId(n)[2..] == Text(n);
    TextInjective(m, n);
  }

  predicate Known(orders: seq<Order>, id: string) {
    exists i :: 0 <= i < |orders| && orders[i].id == id
  }

  /** o_1, o_2, ... */
  function FirstIds(n: nat): (ids: seq<string>)
    ensures |ids| == n
  {
    if n == 0 then [] else FirstIds(n - 1) + [OrderId(n)]
  }

  lemma {:induction false} FirstIdAt(n: nat, i: nat)
    requires i < n
    ensures FirstIds(n)[i] == OrderId(i + 1)
  {
    if i < n - 1 { FirstIdAt(n - 1, i); }
  }

  function IdsOf(orders: seq<Order>): seq<string> {
    seq(|orders|, i requires 0 <= i < |orders| => orders[i].id)
  }

  predicate NumberedIds(orders: seq<Order>) {
    IdsOf(orders) == FirstIds(|orders|)
  }

  predicate DistinctIds(orders: seq<Order>) {
    forall i, j :: 0 <= i < j < |orders| ==> orders[i].id != orders[j].id
  }

  lemma NumberedIdsAreDistinct(orders: seq<Order>)
    requires NumberedIds(orders)
    ensures DistinctIds(orders) && !Known(orders, OrderId(|orders| + 1))
  {
    var n := |orders|;
    forall i, j | 0 <= i < j < n ensures orders[i].id != orders[j].id {
      assert orders[i].id == IdsOf(orders)[i] && orders[j].id == IdsOf(orders)[j];
      FirstIdAt(n, i);
      FirstIdAt(n, j);
      OrderIdsDiffer(i + 1, j + 1);
    }
    forall i | 0 <= i < n ensures orders[i].id != OrderId(n + 1) {
      assert orders[i].id == IdsOf(orders)[i];
      FirstIdAt(n, i);
      OrderIdsDiffer(i + 1, n + 1);
    }
  }

  /** The book and the events agree; `initial` are the statuses with which orders entered. */
  ghost predicate Book(orders: seq<Order>, initial: seq<string>, history: map<string, seq<StatusEvent>>) {
    && |initial| == |orders|
    && (forall i :: 0 <= i < |orders| ==> Chained(initial[i], EventsOf(history, orders[i].id), orders[i].status))
    && (forall o :: o in history ==> Known(orders, o))
  }

  lemma BookAfterUpdate(orders: seq<Order>, initial: seq<string>, history: map<string, seq<StatusEvent>>,
                        i: nat, event: StatusEvent)
    requires Book(orders, initial, history) && DistinctIds(orders) && i < |orders| && orders[i].id == event.orderId
    requires event.previousStatus == orders[i].status
    ensures Book(orders[i := orders[i].(status := event.status)], initial,
                 history[event.orderId := EventsOf(history, event.orderId) + [event]])
  {
    var orders' := orders[i := orders[i].(status := event.status)];
    var history' := history[event.orderId := EventsOf(history, event.orderId) + [event]];
    ChainGrows(initial[i], EventsOf(history, event.orderId), orders[i].status, event);
    forall j | 0 <= j < |orders|
      ensures Chained(initial[j], EventsOf(history', orders'[j].id), orders'[j].status)
    {
      assert j != i ==> EventsOf(history', orders[j].id) == EventsOf(history, orders[j].id);
    }
    forall o | o in history' ensures Known(orders', o) {
      if o == event.orderId {
        assert orders'[i].id == o;
      } else {
        var k :| 0 <= k < |orders| && orders[k].id == o;
        assert orders'[k].id == o;
      }
    }
  }

  ghost predicate Sound(orders: seq<Order>, initial: seq<string>, history: map<string, seq<StatusEvent>>) {
    NumberedIds(orders) && Book(orders, initial, history)
  }

  predicate KeysPoint(idempotency: map<string, IdempotencyRecord>, orders: nat) {
    forall key :: key in idempotency ==> idempotency[key].snapshot < orders
  }

  function WithStatus(orders: seq<Order>, i: nat, status: string): seq<Order>
    requires i < |orders|
  {
    orders[i := orders[i].(status := status)]
  }

  function WithEvent(history: map<string, seq<StatusEvent>>, event: StatusEvent): map<string, seq<StatusEvent>> {
    history[event.orderId := EventsOf(history, event.orderId) + [event]]
  }

  lemma SoundAfterUpdate(orders: seq<Order>, initial: seq<string>, history: map<string, seq<StatusEvent>>,
                         i: nat, event: StatusEvent)
    requires Sound(orders, initial, history) && i < |orders| && orders[i].id == event.orderId
    requires event.previousStatus == orders[i].status
    ensures Sound(WithStatus(orders, i, event.status), initial, WithEvent(history, event))
    ensures Changed(orders, i, event, WithStatus(orders, i, event.status))
  {
    NumberedIdsAreDistinct(orders);
    BookAfterUpdate(orders, initial, history, i, event);
    assert IdsOf(WithStatus(orders, i, event.status)) == IdsOf(orders);
  }

  lemma BookAfterCreate(orders: seq<Order>, initial: seq<string>, history: map<string, seq<StatusEvent>>, order: Order)
    requires Book(orders, initial, history) && !Known(orders, order.id)
    ensures Book(orders + [order], initial + [order.status], history) && EventsOf(history, order.id) == []
  {
    var orders', initial' := orders + [order], initial + [order.status];
    forall o | o in history ensures Known(orders', o) {
      var k :| 0 <= k < |orders| && orders[k].id == o;
      assert orders'[k].id == o;
    }
    forall j | 0 <= j < |orders'|
      ensures Chained(initial'[j], EventsOf(history, orders'[j].id), orders'[j].status)
    {
      assert j < |orders| ==> orders'[j] == orders[j] && initial'[j] == initial[j];
    }
  }

  method SumItems(prices: map<string, int>, items: seq<Item>) returns (r: Result<int, string>)
    ensures r == Total(prices, items)
  {
    var total, n := 0, 0;
    while n < |items|
      invariant 0 <= n <= |items|
      invariant Total(prices, items[..n]) == Success(total)
    {
      var item := items[n];
      assert items[..n + 1][..n] == items[..n];
      if item.productId !in prices {
        TotalStops(prices, items, n + 1);
        return Failure(item.productId);
      }
      total := total + prices[item.productId] * item.quantity;
      n := n + 1;
    }
    assert items[..n] == items;
    return Success(total);
  }

  class OrdersService {
    const events: OrderEventsService
    var orders: seq<Order>
    var sequence: nat
    var idempotency: map<string, IdempotencyRecord>
    ghost var initial: seq<string>

    ghost predicate Valid()
      reads this, events
    {
      && events.Valid() && |orders| == sequence
      && Sound(orders, initial, events.history) && KeysPoint(idempotency, |orders|)
    }

    /** The book as it is at start: two orders, no events. */
    constructor (bus: OrderEventsService, first: Order, second: Order)
      requires bus.Valid() && bus.history == map[]
      requires first.id == OrderId(1) && second.id == OrderId(2)
      ensures Valid() && events == bus && orders == [first, second] && idempotency == map[]
      ensures initial == [first.status, second.status]
    {
      events := bus;
      orders, sequence, idempotency := [first, second], 2, map[];
      initial := [first.status, second.status];
      assert FirstIds(2) == FirstIds(1) + [OrderId(2)] && FirstIds(1) == FirstIds(0) + [OrderId(1)];
    }

    /** Where an order is in the book; ids are never used twice, so there is one place. */
    method Find(id: string) returns (at: Option<nat>)
      requires Valid()
      ensures at.None? <==> !Known(orders, id)
      ensures at.Some? ==> at.value < |orders| && orders[at.value].id == id
      ensures at.Some? ==> forall i :: 0 <= i < |orders| && orders[i].id == id ==> i == at.value
    {
      NumberedIdsAreDistinct(orders);
      var i := 0;
      while i < |orders|
        invariant 0 <= i <= |orders|
        invariant forall j :: 0 <= j < i ==> orders[j].id != id
      {
        if orders[i].id == id { return Some(i); }
        i := i + 1;
      }
      return None;
    }

    /** The status is applied and one event tells of it, from what to what, even when nothing
        changes; other orders and their events stay as they are. */
    method UpdateStatus(id: string, status: string, at: string) returns (r: Result<StatusEvent, Error>)
      requires Valid()
      modifies this`orders, events
      ensures Valid()
      ensures !old(Known(orders, id)) ==>
        r == Failure(NotFound("order not found: " + id)) && orders == old(orders) && events.history == old(events.history) && events.emitted == old(events.emitted)
      ensures old(Known(orders, id)) ==>
        && r.Success?
        && r.value == StatusEvent(|old(events.History(id))| + 1, id, status, r.value.previousStatus, at)
        && (exists i :: 0 <= i < |old(orders)| && Changed(old(orders), i, r.value, orders))
        && events.history == old(events.history)[id := old(events.History(id)) + [r.value]]
        && events.emitted == old(events.emitted) + [r.value]
    {
      var found := Find(id);
      if found.None? { return Failure(NotFound("order not found: " + id)); }
      var event := Apply(found.value, status, at);
      return Success(event);
    }

    method Apply(i: nat, status: string, at: string) returns (event: StatusEvent)
      requires Valid() && i < |orders|
      modifies this`orders, events
      ensures Valid()
      ensures event.id == |old(events.History(event.orderId))| + 1 && event.status == status && event.at == at
      ensures Changed(old(orders), i, event, orders)
      ensures events.history == old(events.history)[event.orderId := old(events.History(event.orderId)) + [event]]
      ensures events.emitted == old(events.emitted) + [event]
    {
      var id, previous := orders[i].id, orders[i].status;
      ghost var next := StatusEvent(|events.History(id)| + 1, id, status, previous, at);
      SoundAfterUpdate(orders, initial, events.history, i, next);
      orders := WithStatus(orders, i, status);
      event := events.Publish(id, status, previous, at);
      assert event == next && events.history == WithEvent(old(events.history), next);
    }

    /** A new key makes one order, with the next id and the catalogue's prices; a key seen before
        makes none: the same body gets the order it made, as it is now, another body is refused;
        a missing product leaves no trace, not even of the key. */
    method Create(key: string, hash: string, body: CreateOrderBody, buyerId: string,
                  prices: map<string, int>, defaultCurrency: string, now: string)
      returns (r: Result<(Order, bool), Error>)
      requires Valid()
      modifies this`orders, this`sequence, this`idempotency, this`initial
      ensures Valid()
      ensures key in old(idempotency) ==>
        && orders == old(orders) && idempotency == old(idempotency)
        && r == if old(idempotency)[key].hash == hash
                then Success((orders[idempotency[key].snapshot], true)) else Failure(Unprocessable)
      ensures key !in old(idempotency) && Total(prices, body.items).Failure? ==>
        && orders == old(orders) && idempotency == old(idempotency)
        && r == Failure(NotFound("product not found: " + Total(prices, body.items).error))
      ensures key !in old(idempotency) && Total(prices, body.items).Success? ==>
        && var order := Order("o_" + Text(|old(orders)| + 1), buyerId, "created", body.items, Total(prices, body.items).value,
                              if body.currency.Some? then body.currency.value else defaultCurrency, now);
        && r == Success((order, false)) && orders == old(orders) + [order]
        && idempotency == old(idempotency)[key := IdempotencyRecord(hash, |old(orders)|)]
        && events.History(order.id) == []
    {
      if key in idempotency {
        var seen := idempotency[key];
        if seen.hash == hash { return Success((orders[seen.snapshot], true)); }
        return Failure(Unprocessable);
      }

      var total := SumItems(prices, body.items);
      if total.Failure? { return Failure(NotFound("product not found: " + total.error)); }

      var currency := if body.currency.Some? then body.currency.value else defaultCurrency;
      sequence := sequence + 1;
      var order := Order(OrderId(sequence), buyerId, "created", body.items, total.value, currency, now);
      NumberedIdsAreDistinct(orders);
      BookAfterCreate(orders, initial, events.history, order);
      assert IdsOf(orders + [order]) == IdsOf(orders) + [order.id];
      orders := orders + [order];
      initial := initial + [order.status];
      idempotency := idempotency[key := IdempotencyRecord(hash, |orders| - 1)];
      return Success((order, false));
    }
  }

  /** A missing product decides the answer, whatever comes after it. */
  lemma {:induction false} TotalStops(prices: map<string, int>, items: seq<Item>, n: nat)
    requires n <= |items| && Total(prices, items[..n]).Failure?
    ensures Total(prices, items) == Total(prices, items[..n])
    decreases |items|
  {
    if n == |items| {
      assert items[..n] == items;
    } else {
      assert items[..|items| - 1][..n] == items[..n];
      TotalStops(prices, items[..|items| - 1], n);
    }
  }

  /** What the items of an order cost: each quantity times its price, added up. */
  lemma {:induction false} TotalOfOne(prices: map<string, int>, item: Item)
    ensures Total(prices, [item])
      == if item.productId in prices then Success(prices[item.productId] * item.quantity) else Failure(item.productId)
  {
    assert [item][..0] == [];
  }

  /** Two lists together cost what they cost apart; the first missing product of either is named. */
  lemma {:induction false} TotalOfBoth(prices: map<string, int>, a: seq<Item>, b: seq<Item>)
    ensures Total(prices, a + b)
      == match Total(prices, a)
         case Failure(missing) => Failure(missing)
         case Success(cost) =>
           match Total(prices, b)
           case Failure(missing) => Failure(missing)
           case Success(more) => Success(cost + more)
    decreases |b|
  {
    if b == [] {
      assert a + b == a;
    } else {
      var prefix := b[..|b| - 1];
      assert (a + b)[..|a + b| - 1] == a + prefix && (a + b)[|a + b| - 1] == b[|b| - 1];
      TotalOfBoth(prices, a, prefix);
    }
  }

  /** The same call again, right away: the same order, marked as a replay, and nothing new. */
  method CreateTwice(service: OrdersService, key: string, hash: string, body: CreateOrderBody, buyerId: string,
                     prices: map<string, int>, laterPrices: map<string, int>, currency: string, now: string, later: string)
    returns (first: Result<(Order, bool), Error>, again: Result<(Order, bool), Error>)
    requires service.Valid()
    modifies service
    ensures service.Valid()
    ensures first.Success? ==>
      again == Success((first.value.0, true)) && |service.orders| <= |old(service.orders)| + 1
  {
    first := service.Create(key, hash, body, buyerId, prices, currency, now);
    again := service.Create(key, hash, body, buyerId, laterPrices, currency, later);
  }
}
