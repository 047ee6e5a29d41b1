/** One `placeOrder` or `checkout` transaction run alone (src/checkout.ts,
    src/outbox/place-order.ts): what it reads, what it writes, why it fails.
    The concurrent model and the imperative one are both proved against this module. */
module Checkout {
  import opened Wrappers
  import opened Decimal
  import opened Events

  /** The largest value of a Postgres `integer` column or parameter. */
  const INT_MAX := 2147483647

  datatype Product = Product(priceCents: int, currency: string, stock: int)
  datatype Order = Order(id: nat, buyerId: nat, totalCents: int, currency: string)
  datatype Item = Item(orderId: nat, productId: nat, quantity: int, unitPriceCents: int)
  datatype Task = Task(id: nat, orderId: nat)
  datatype OutboxRow = OutboxRow(id: nat, createdAt: nat, aggregateId: string, event: Event)

  /** The committed tables; rows stand in commit order. A key maps to its order, or to NULL
      between the claim and the binding. */
  datatype Db = Db(products: map<nat, Product>, users: map<nat, int>,
                   orders: seq<Order>, items: seq<Item>, tasks: seq<Task>,
                   outbox: seq<OutboxRow>, keys: map<string, Option<nat>>)

  datatype Input = Input(buyerId: nat, productId: nat, quantity: real)

  /** What a transaction is handed from outside: identity values, its `now()`, the event time. */
  datatype Generated = Generated(orderId: nat, taskId: nat, outboxId: nat, createdAt: nat, occurredAt: string)

  /** A request: with an idempotency key for `placeOrder`, without one for `checkout`. */
  datatype Entry = Entry(key: Option<string>, input: Input, gen: Generated)

  datatype CheckoutResult = CheckoutResult(orderId: nat, taskId: nat, totalCents: int,
                                           stockLeft: int, balanceLeft: int)

  datatype Reply = Reply(orderId: nat, taskId: Option<nat>, totalCents: int, stockLeft: int,
                         balanceLeft: int, replay: bool, outboxId: Option<nat>)

  datatype Failure =
    OutOfStock | InsufficientFunds | NoSuchProduct | NoSuchBuyer | OutOfRange | KeyWithoutOrder

  // ---------------------------------------------------------------- the operation

  function CheckoutInTransaction(db: Db, input: Input, gen: Generated): Result<(Db, CheckoutResult), Failure> {
    if !IsPositiveInteger(input.quantity) then Failure(OutOfStock)
    else
      var q := input.quantity.Floor;
      if q > INT_MAX then Failure(OutOfRange)
      else if input.productId !in db.products then Failure(NoSuchProduct)
      else
        var product := db.products[input.productId];
        if product.stock < q then Failure(OutOfStock)
        else
          var total := product.priceCents * q;
          if total > INT_MAX then Failure(OutOfRange)
          else if input.buyerId !in db.users then Failure(NoSuchBuyer)
          else if db.users[input.buyerId] < total then Failure(InsufficientFunds)
          else
            var stockLeft, balanceLeft := product.stock - q, db.users[input.buyerId] - total;
            Success((db.(products := db.products[input.productId := product.(stock := stockLeft)],
                         users := db.users[input.buyerId := balanceLeft],
                         orders := db.orders + [Order(gen.orderId, input.buyerId, total, product.currency)],
                         items := db.items + [Item(gen.orderId, input.productId, q, product.priceCents)],
                         tasks := db.tasks + [Task(gen.taskId, gen.orderId)]),
                     CheckoutResult(gen.orderId, gen.taskId, total, stockLeft, balanceLeft)))
  }

  /** The event a transaction enqueues for the order it made. */
  function EventFor(orderId: nat, totalCents: int, input: Input, occurredAt: string): Event {
    ToOrderPlacedEvent(Text(orderId), totalCents, Text(input.buyerId), Text(input.productId),
                       input.quantity.Floor, occurredAt)
  }

  /** A transaction that creates an order: the checkout, and for a keyed request the outbox
      row and the key bound to the order. */
  function Transact(db: Db, e: Entry): Result<(Db, CheckoutResult), Failure> {
    match CheckoutInTransaction(db, e.input, e.gen)
    case Failure(f) => Failure(f)
    case Success((after, r)) =>
      if e.key.None? then Success((after, r))
      else
        var event := EventFor(r.orderId, r.totalCents, e.input, e.gen.occurredAt);
        Success((after.(outbox := after.outbox + [OutboxRow(e.gen.outboxId, e.gen.createdAt, event.data.orderId, event)],
                        keys := after.keys[e.key.value := Some(r.orderId)]), r))
  }

  function CreatedReply(r: CheckoutResult, outboxId: Option<nat>): Reply {
    Reply(r.orderId, Some(r.taskId), r.totalCents, r.stockLeft, r.balanceLeft, false, outboxId)
  }

  /** `placeOrder` alone: replay a known key, otherwise run the transaction; a failure leaves
      the tables as they were. */
  function PlaceOrder(db: Db, e: Entry): (Db, Result<Reply, Failure>)
    requires e.key.Some?
  {
    if e.key.value in db.keys then (db, ReplayOf(db, e.key.value))
    else match Transact(db, e)
      case Failure(f) => (db, Failure(f))
      case Success((after, r)) => (after, Success(CreatedReply(r, Some(e.gen.outboxId))))
  }

  // ---------------------------------------------------------------- what it comes to

  predicate WellFormedQuantity(input: Input) {
    IsPositiveInteger(input.quantity) && input.quantity.Floor <= INT_MAX
  }

  /** Why a request fails, read off the tables; a reason later in the list needs the earlier checks
      to have passed. */
  predicate FailsWith(db: Db, input: Input, f: Failure) {
    var whole := input.quantity.Floor as real == input.quantity && input.quantity > 0.0;
    var q := input.quantity.Floor;
    var fits := whole && q <= 2147483647;
    var sells := fits && input.productId in db.products && db.products[input.productId].stock >= q;
    match f
    case OutOfStock => !whole || (fits && input.productId in db.products && db.products[input.productId].stock < q)
    case OutOfRange => whole && (!fits || (sells && db.products[input.productId].priceCents * q > 2147483647))
    case NoSuchProduct => fits && input.productId !in db.products
    case NoSuchBuyer =>
      sells && db.products[input.productId].priceCents * q <= 2147483647 && input.buyerId !in db.users
    case InsufficientFunds =>
      && sells && db.products[input.productId].priceCents * q <= 2147483647 && input.buyerId in db.users
      && db.users[input.buyerId] < db.products[input.productId].priceCents * q
    case KeyWithoutOrder => false
  }

  /** A request fails with exactly the reason the tables give, and succeeds if they give none. */
  lemma RefusesExactly(db: Db, input: Input, gen: Generated, f: Failure)
    ensures CheckoutInTransaction(db, input, gen) == Failure(f) <==> FailsWith(db, input, f)
    ensures CheckoutInTransaction(db, input, gen).Failure? ==>
      FailsWith(db, input, CheckoutInTransaction(db, input, gen).error)
  {
  }

  /** The event tells of this order and this line of it. */
  predicate TellsOf(event: Event, order: Order, item: Item) {
    && event.eventId == "evt_order_placed_" + Text(order.id)
    && event.typ == "order.placed" && event.version == 1
    && event.data.orderId == Text(order.id) && event.data.orderId == Text(item.orderId)
    && event.data.buyerId == Text(order.buyerId)
    && event.data.productId == Text(item.productId)
    && event.data.quantity == item.quantity
    && event.data.totalCents == order.totalCents
    && event.data.currency == "UAH"
  }

  /** What a successful request wrote and answered, row by row. */
  ghost predicate Sells(db: Db, input: Input, after: Db, result: CheckoutResult) {
    var q := input.quantity.Floor;
    && input.productId in db.products && input.buyerId in db.users
    && input.productId in after.products && input.buyerId in after.users
    && |after.orders| == |db.orders| + 1 && |after.items| == |db.items| + 1 && |after.tasks| == |db.tasks| + 1
    && db.orders <= after.orders && db.items <= after.items && db.tasks <= after.tasks
    && (forall p :: p in db.products <==> p in after.products)
    && (forall p :: p in db.products && p != input.productId ==> after.products[p] == db.products[p])
    && (forall b :: b in db.users <==> b in after.users)
    && (forall b :: b in db.users && b != input.buyerId ==> after.users[b] == db.users[b])
    && var product, order := db.products[input.productId], after.orders[|db.orders|];
       var item, task := after.items[|db.items|], after.tasks[|db.tasks|];
       // the stock goes down by the quantity, the balance by the total
       && after.products[input.productId].stock + q == product.stock
       && after.products[input.productId].priceCents == product.priceCents
       && after.products[input.productId].currency == product.currency
       && after.users[input.buyerId] + order.totalCents == db.users[input.buyerId]
       && order.totalCents == item.unitPriceCents * item.quantity
       // who bought what
       && order.buyerId == input.buyerId && order.currency == product.currency
       && item.productId == input.productId && item.quantity == q && item.unitPriceCents == product.priceCents
       && item.orderId == order.id && task.orderId == order.id
       // and the answer says so
       && result.orderId == order.id && result.taskId == task.id && result.totalCents == order.totalCents
       && result.stockLeft == after.products[input.productId].stock
       && result.balanceLeft == after.users[input.buyerId]
  }

  lemma CheckoutSells(db: Db, input: Input, gen: Generated)
    requires CheckoutInTransaction(db, input, gen).Success?
    ensures var (after, result) := CheckoutInTransaction(db, input, gen).value;
      && Sells(db, input, after, result) && after.outbox == db.outbox && after.keys == db.keys
      && result.orderId == gen.orderId && result.taskId == gen.taskId
  {
  }

  /** A keyed request also leaves one outbox row that tells of its order, and its key bound to it. */
  ghost predicate Announces(db: Db, key: string, after: Db, now: nat, occurredAt: string, outboxId: Option<nat>) {
    && |after.orders| == |db.orders| + 1 && |after.items| == |db.items| + 1 && |after.outbox| == |db.outbox| + 1
    && db.outbox <= after.outbox
    && var order, item, row := after.orders[|db.orders|], after.items[|db.items|], after.outbox[|db.outbox|];
       && TellsOf(row.event, order, item) && row.event.occurredAt == occurredAt
       && row.aggregateId == Text(order.id) && row.createdAt == now && outboxId == Some(row.id)
       && key in after.keys && after.keys[key] == Some(order.id)
       && (forall k :: k in db.keys || k == key <==> k in after.keys)
       && (forall k :: k in db.keys && k != key ==> after.keys[k] == db.keys[k])
  }

  lemma TransactAnnounces(db: Db, e: Entry)
    requires Transact(db, e).Success?
    ensures var (after, result) := Transact(db, e).value;
      && Sells(db, e.input, after, result)
      && (e.key.Some? ==>
            Announces(db, e.key.value, after, e.gen.createdAt, e.gen.occurredAt, Some(e.gen.outboxId)))
      && (e.key.None? ==> after.outbox == db.outbox && after.keys == db.keys)
  {
    CheckoutSells(db, e.input, e.gen);
  }

  /** A created reply: its order was sold and announced. */
  ghost predicate Places(db: Db, key: string, input: Input, now: nat, occurredAt: string, after: Db, reply: Reply) {
    && !reply.replay && reply.taskId.Some?
    && Sells(db, input, after,
             CheckoutResult(reply.orderId, reply.taskId.value, reply.totalCents, reply.stockLeft, reply.balanceLeft))
    && Announces(db, key, after, now, occurredAt, reply.outboxId)
  }

  /** What a request with a new key does: it fails for the reason the tables give, or its order is
      sold and announced. */
  lemma PlaceOrderMeans(db: Db, key: string, input: Input, gen: Generated)
    requires key !in db.keys
    ensures var (after, spec) := PlaceOrder(db, Entry(Some(key), input, gen));
      match spec
      case Failure(f) => FailsWith(db, input, f) && after == db
      case Success(reply) => Places(db, key, input, gen.createdAt, gen.occurredAt, after, reply)
  {
    var e := Entry(Some(key), input, gen);
    if Transact(db, e).Success? {
      TransactAnnounces(db, e);
    } else {
      RefusesExactly(db, input, gen, Transact(db, e).error);
    }
  }

  // ---------------------------------------------------------------- the replay query

  /** `SELECT id … WHERE … ORDER BY id LIMIT 1`. */
  function LeastId<T>(rows: seq<T>, matches: T -> bool, id: T -> nat): (r: Option<nat>)
    ensures r.None? <==> forall i :: 0 <= i < |rows| ==> !matches(rows[i])
    ensures r.Some? ==> exists i :: 0 <= i < |rows| && matches(rows[i]) && id(rows[i]) == r.value
    ensures r.Some? ==> forall i :: 0 <= i < |rows| && matches(rows[i]) ==> r.value <= id(rows[i])
  {
    if rows == [] then None
    else
      var rest, last := LeastId(rows[..|rows| - 1], matches, id), rows[|rows| - 1];
      if matches(last) && (rest.None? || id(last) < rest.value) then Some(id(last)) else rest
  }

  /** The first row a filter keeps, in table order. */
  function Find<T>(rows: seq<T>, matches: T -> bool): (r: Option<T>)
    ensures r.None? <==> forall i :: 0 <= i < |rows| ==> !matches(rows[i])
    ensures r.Some? ==> matches(r.value) && exists i :: 0 <= i < |rows| && rows[i] == r.value
  {
    if rows == [] then None
    else if matches(rows[0]) then Some(rows[0]) else Find(rows[1..], matches)
  }

  function ReplayOf(db: Db, key: string): Result<Reply, Failure> {
    if key !in db.keys || db.keys[key].None? then Failure(KeyWithoutOrder)
    else
      var orderId := db.keys[key].value;
      var order := Find(db.orders, (o: Order) => o.id == orderId);
      if order.None? then Failure(KeyWithoutOrder)
      else
        var item := Find(db.items, (i: Item) => i.orderId == orderId && i.productId in db.products);
        Success(Reply(
          orderId,
          LeastId(db.tasks, (t: Task) => t.orderId == orderId, (t: Task) => t.id),
          order.value.totalCents,
          if item.Some? then db.products[item.value.productId].stock else 0,
          if order.value.buyerId in db.users then db.users[order.value.buyerId] else 0,
          true,
          LeastId(db.outbox, (r: OutboxRow) => r.aggregateId == Text(orderId), (r: OutboxRow) => r.id)))
  }

  predicate IsOrder(db: Db, i: int, orderId: nat) {
    0 <= i < |db.orders| && db.orders[i].id == orderId
  }

  predicate IsLine(db: Db, i: int, orderId: nat) {
    0 <= i < |db.items| && db.items[i].orderId == orderId && db.items[i].productId in db.products
  }

  predicate IsTask(db: Db, i: int, orderId: nat) {
    0 <= i < |db.tasks| && db.tasks[i].orderId == orderId
  }

  predicate IsRow(db: Db, i: int, orderId: nat) {
    0 <= i < |db.outbox| && db.outbox[i].aggregateId == Text(orderId)
  }

  ghost predicate LeastTask(db: Db, orderId: nat, id: Option<nat>) {
    && (id.None? ==> forall i :: !IsTask(db, i, orderId))
    && (id.Some? ==> exists i :: IsTask(db, i, orderId) && db.tasks[i].id == id.value)
    && (id.Some? ==> forall i :: IsTask(db, i, orderId) ==> id.value <= db.tasks[i].id)
  }

  ghost predicate LeastRow(db: Db, orderId: nat, id: Option<nat>) {
    && (id.None? ==> forall i :: !IsRow(db, i, orderId))
    && (id.Some? ==> exists i :: IsRow(db, i, orderId) && db.outbox[i].id == id.value)
    && (id.Some? ==> forall i :: IsRow(db, i, orderId) ==> id.value <= db.outbox[i].id)
  }

  /** What a replay reads, whatever the tables hold: an order with the id, the least task and outbox
      row that belong to it, the stock of a product on it and the balance of its buyer; 0 for what is
      not there. */
  ghost predicate ReadsOrder(db: Db, orderId: nat, reply: Reply) {
    && reply.replay && reply.orderId == orderId
    && (exists i :: IsOrder(db, i, orderId) && reply.totalCents == db.orders[i].totalCents
          && reply.balanceLeft == if db.orders[i].buyerId in db.users then db.users[db.orders[i].buyerId] else 0)
    && LeastTask(db, orderId, reply.taskId) && LeastRow(db, orderId, reply.outboxId)
    && ((exists i :: IsLine(db, i, orderId) && reply.stockLeft == db.products[db.items[i].productId].stock)
        || (reply.stockLeft == 0 && forall i :: !IsLine(db, i, orderId)))
  }

  lemma ReplayReads(db: Db, key: string)
    ensures ReplayOf(db, key).Success?
      <==> key in db.keys && db.keys[key].Some? && exists i :: IsOrder(db, i, db.keys[key].value)
    ensures ReplayOf(db, key).Success? ==> ReadsOrder(db, db.keys[key].value, ReplayOf(db, key).value)
  {
    if key in db.keys && db.keys[key].Some? {
      var orderId := db.keys[key].value;
      var order := Find(db.orders, (o: Order) => o.id == orderId);
      if order.Some? {
        var i :| 0 <= i < |db.orders| && db.orders[i] == order.value;
        assert IsOrder(db, i, orderId);
        LineRead(db, orderId);
        TaskRead(db, orderId);
        RowRead(db, orderId);
      } else {
        assert forall i :: !IsOrder(db, i, orderId);
      }
    }
  }

  lemma LineRead(db: Db, orderId: nat)
    ensures var item := Find(db.items, (i: Item) => i.orderId == orderId && i.productId in db.products);
      if item.None? then forall i :: !IsLine(db, i, orderId)
      else exists i :: IsLine(db, i, orderId) && db.items[i] == item.value
  {
    var item := Find(db.items, (i: Item) => i.orderId == orderId && i.productId in db.products);
    if item.Some? {
      var i :| 0 <= i < |db.items| && db.items[i] == item.value;
      assert IsLine(db, i, orderId);
    }
  }

  lemma TaskRead(db: Db, orderId: nat)
    ensures LeastTask(db, orderId, LeastId(db.tasks, (t: Task) => t.orderId == orderId, (t: Task) => t.id))
  {
    var task := LeastId(db.tasks, (t: Task) => t.orderId == orderId, (t: Task) => t.id);
    if task.Some? {
      var i :| 0 <= i < |db.tasks| && db.tasks[i].orderId == orderId && db.tasks[i].id == task.value;
      assert IsTask(db, i, orderId);
    }
  }

  lemma {:induction false} RowRead(db: Db, orderId: nat)
    ensures LeastRow(db, orderId,
                     LeastId(db.outbox, (r: OutboxRow) => r.aggregateId == Text(orderId), (r: OutboxRow) => r.id))
  {
    var row := LeastId(db.outbox, (r: OutboxRow) => r.aggregateId == Text(orderId), (r: OutboxRow) => r.id);
    if row.Some? {
      var i :| 0 <= i < |db.outbox| && db.outbox[i].aggregateId == Text(orderId) && db.outbox[i].id == row.value;
      assert IsRow(db, i, orderId);
    }
  }

  // ---------------------------------------------------------------- serial runs

  /** An empty shop: a catalogue, wallets, and no business rows. */
  predicate Start(db: Db) {
    && (forall p :: p in db.products ==> db.products[p].priceCents > 0 && db.products[p].stock >= 0)
    && (forall b :: b in db.users ==> db.users[b] >= 0)
    && db.orders == [] && db.items == [] && db.tasks == [] && db.outbox == [] && db.keys == map[]
  }

  /** The transactions of `log`, run alone one after another. */
  function Serial(db0: Db, log: seq<Entry>): Db {
    if log == [] then db0
    else
      var before := Serial(db0, log[..|log| - 1]);
      match Transact(before, log[|log| - 1])
      case Success((after, _)) => after
      case Failure(_) => before
  }

  /** Every transaction of `log`, run in turn, creates its order under a key nobody used. */
  predicate AllSucceed(db0: Db, log: seq<Entry>) {
    log == [] ||
    (var before, last := Serial(db0, log[..|log| - 1]), log[|log| - 1];
     && AllSucceed(db0, log[..|log| - 1])
     && Transact(before, last).Success?
     && (last.key.Some? ==> last.key.value !in before.keys))
  }

  /** Identity columns: no two transactions were given the same id. */
  predicate FreshIds(log: seq<Entry>) {
    forall i, j :: 0 <= i < j < |log| ==>
      && log[i].gen.orderId != log[j].gen.orderId
      && log[i].gen.taskId != log[j].gen.taskId
      && (log[i].key.Some? && log[j].key.Some? ==> log[i].gen.outboxId != log[j].gen.outboxId)
  }

  // ---------------------------------------------------------------- the ledger

  function Sold(items: seq<Item>, product: nat): int {
    if items == [] then 0
    else
      var last := items[|items| - 1];
      Sold(items[..|items| - 1], product) + if last.productId == product then last.quantity else 0
  }

  function Spent(orders: seq<Order>, buyer: nat): int {
    if orders == [] then 0
    else
      var last := orders[|orders| - 1];
      Spent(orders[..|orders| - 1], buyer) + if last.buyerId == buyer then last.totalCents else 0
  }

  predicate Servable(db0: Db, e: Entry) {
    && IsPositiveInteger(e.input.quantity)
    && e.input.productId in db0.products
    && e.input.buyerId in db0.users
  }

  function TotalOf(db0: Db, e: Entry): int
    requires Servable(db0, e)
  {
    db0.products[e.input.productId].priceCents * e.input.quantity.Floor
  }

  /** The rows one transaction leaves, read off the request and the catalogue alone. */
  predicate RowsOf(db0: Db, e: Entry, order: Order, item: Item, task: Task) {
    && Servable(db0, e)
    && var p := db0.products[e.input.productId];
       && order == Order(e.gen.orderId, e.input.buyerId, TotalOf(db0, e), p.currency)
       && item == Item(e.gen.orderId, e.input.productId, e.input.quantity.Floor, p.priceCents)
       && task == Task(e.gen.taskId, e.gen.orderId)
  }

  predicate OutboxOf(db0: Db, e: Entry, row: OutboxRow) {
    && Servable(db0, e)
    && row == OutboxRow(e.gen.outboxId, e.gen.createdAt, Text(e.gen.orderId),
                        EventFor(e.gen.orderId, TotalOf(db0, e), e.input, e.gen.occurredAt))
  }

  predicate KeyAt(log: seq<Entry>, i: int, key: string) {
    0 <= i < |log| && log[i].key == Some(key)
  }

  /** How many of the first requests carried a key: the place of the next outbox row. */
  function Keyed(log: seq<Entry>): nat {
    if log == [] then 0
    else Keyed(log[..|log| - 1]) + if log[|log| - 1].key.Some? then 1 else 0
  }

  /** What the tables hold after `log`: row i belongs to transaction i, keyed transactions
      and outbox rows and keys correspond one to one, and nothing was created or destroyed. */
  ghost predicate Ledger(db0: Db, log: seq<Entry>, db: Db) {
    && RowsKept(db0, log, db)
    && OutboxKept(db0, log, db)
    && KeysKept(log, db)
    && StockKept(db0, db)
    && BalancesKept(db0, db)
  }

  /** Orders, items and tasks, one each per transaction. */
  ghost predicate RowsKept(db0: Db, log: seq<Entry>, db: Db) {
    && |db.orders| == |log| && |db.items| == |log| && |db.tasks| == |log|
    && (forall i :: 0 <= i < |log| ==> RowsOf(db0, log[i], db.orders[i], db.items[i], db.tasks[i]))
  }

  /** Outbox rows, one per keyed transaction and no others. */
  ghost predicate OutboxKept(db0: Db, log: seq<Entry>, db: Db) {
    && |db.outbox| == Keyed(log)
    && (forall i :: 0 <= i < |log| && log[i].key.Some? ==>
          0 <= Keyed(log[..i]) < |db.outbox| && OutboxOf(db0, log[i], db.outbox[Keyed(log[..i])]))
    && (forall j :: 0 <= j < |db.outbox| ==> HasSource(log, j))
  }

  /** Keys, one per keyed transaction, each bound to the order of that transaction. */
  ghost predicate KeysKept(log: seq<Entry>, db: Db) {
    && (forall k :: k in db.keys ==> exists i :: KeyAt(log, i, k))
    && (forall i :: 0 <= i < |log| && log[i].key.Some? ==>
          log[i].key.value in db.keys && db.keys[log[i].key.value] == Some(log[i].gen.orderId))
    && (forall i, j :: 0 <= i < j < |log| && log[i].key.Some? ==> log[i].key != log[j].key)
  }

  ghost predicate StockKept(db0: Db, db: Db) {
    && db.products.Keys == db0.products.Keys
    && (forall p :: p in db0.products ==> ProductConserved(db0, db, p))
  }

  ghost predicate BalancesKept(db0: Db, db: Db) {
    && db.users.Keys == db0.users.Keys
    && (forall b :: b in db0.users ==> BuyerConserved(db0, db, b))
  }

  /** Transaction i is keyed and its outbox row stands at j. */
  ghost predicate SourceAt(log: seq<Entry>, i: int, j: int) {
    0 <= i < |log| && log[i].key.Some? && Keyed(log[..i]) == j
  }

  ghost predicate HasSource(log: seq<Entry>, j: int) {
    exists i :: SourceAt(log, i, j)
  }

  ghost predicate ProductConserved(db0: Db, db: Db, p: nat)
    requires p in db0.products
  {
    && p in db.products
    && db.products[p].priceCents == db0.products[p].priceCents
    && db.products[p].currency == db0.products[p].currency
    && db.products[p].stock >= 0
    && db.products[p].stock + Sold(db.items, p) == db0.products[p].stock
  }

  ghost predicate BuyerConserved(db0: Db, db: Db, b: nat)
    requires b in db0.users
  {
    && b in db.users
    && db.users[b] >= 0
    && db.users[b] + Spent(db.orders, b) == db0.users[b]
  }

  // ---------------------------------------------------------------- theorems about serial runs

  lemma TotalIsNatural(price: int, quantity: int)
    requires price > 0 && quantity > 0
    ensures price * quantity >= 0
  {
  }

  lemma PrefixOfPush<T>(xs: seq<T>, x: T)
    ensures (xs + [x])[..|xs|] == xs
    ensures forall i :: 0 <= i <= |xs| ==> (xs + [x])[..i] == xs[..i]
  {
  }

  /** One more transaction keeps the ledger. */
  lemma TransactKeepsLedger(db0: Db, log: seq<Entry>, db: Db, e: Entry)
    requires Start(db0) && Ledger(db0, log, db)
    requires Transact(db, e).Success? && (e.key.Some? ==> e.key.value !in db.keys)
    ensures Ledger(db0, log + [e], Transact(db, e).value.0)
  {
    assert ProductConserved(db0, db, e.input.productId);
    TransactKeepsRows(db0, log, db, e);
    TransactKeepsOutbox(db0, log, db, e);
    TransactKeepsKeys(log, db, e);
    TransactKeepsStock(db0, db, e);
    TransactKeepsBalances(db0, db, e);
  }

  lemma TransactKeepsRows(db0: Db, log: seq<Entry>, db: Db, e: Entry)
    requires RowsKept(db0, log, db) && StockKept(db0, db) && BalancesKept(db0, db)
    requires Transact(db, e).Success?
    ensures RowsKept(db0, log + [e], Transact(db, e).value.0)
  {
    var log', db' := log + [e], Transact(db, e).value.0;
    assert ProductConserved(db0, db, e.input.productId);
    forall i | 0 <= i < |log'|
      ensures RowsOf(db0, log'[i], db'.orders[i], db'.items[i], db'.tasks[i])
    {
      assert i < |log| ==> RowsOf(db0, log[i], db.orders[i], db.items[i], db.tasks[i]);
    }
  }

  lemma TransactKeepsOutbox(db0: Db, log: seq<Entry>, db: Db, e: Entry)
    requires OutboxKept(db0, log, db) && StockKept(db0, db) && BalancesKept(db0, db)
    requires Transact(db, e).Success?
    ensures OutboxKept(db0, log + [e], Transact(db, e).value.0)
  {
    var log', db' := log + [e], Transact(db, e).value.0;
    PrefixOfPush(log, e);
    assert ProductConserved(db0, db, e.input.productId);
    forall i | 0 <= i < |log'| && log'[i].key.Some?
      ensures 0 <= Keyed(log'[..i]) < |db'.outbox| && OutboxOf(db0, log'[i], db'.outbox[Keyed(log'[..i])])
    {
      assert log'[..i] == log[..i];
    }
    forall j | 0 <= j < |db'.outbox|
      ensures HasSource(log', j)
    {
      if j < |db.outbox| {
        assert HasSource(log, j);
        var i :| SourceAt(log, i, j);
        assert log'[..i] == log[..i];
        assert SourceAt(log', i, j);
      } else {
        assert SourceAt(log', |log|, j);
      }
    }
  }

  lemma TransactKeepsKeys(log: seq<Entry>, db: Db, e: Entry)
    requires KeysKept(log, db)
    requires Transact(db, e).Success? && (e.key.Some? ==> e.key.value !in db.keys)
    ensures KeysKept(log + [e], Transact(db, e).value.0)
  {
    var log', db' := log + [e], Transact(db, e).value.0;
    forall k | k in db'.keys
      ensures exists i :: KeyAt(log', i, k)
    {
      if k in db.keys {
        var i :| KeyAt(log, i, k);
        assert KeyAt(log', i, k);
      } else {
        assert KeyAt(log', |log|, k);
      }
    }
  }

  lemma TransactKeepsStock(db0: Db, db: Db, e: Entry)
    requires StockKept(db0, db) && Transact(db, e).Success?
    ensures StockKept(db0, Transact(db, e).value.0)
  {
    var db' := Transact(db, e).value.0;
    PrefixOfPush(db.items, db'.items[|db.items|]);
    forall p | p in db0.products
      ensures ProductConserved(db0, db', p)
    {
      assert ProductConserved(db0, db, p);
    }
  }

  lemma TransactKeepsBalances(db0: Db, db: Db, e: Entry)
    requires BalancesKept(db0, db) && Transact(db, e).Success?
    ensures BalancesKept(db0, Transact(db, e).value.0)
  {
    var db' := Transact(db, e).value.0;
    PrefixOfPush(db.orders, db'.orders[|db.orders|]);
    forall b | b in db0.users
      ensures BuyerConserved(db0, db', b)
    {
      assert BuyerConserved(db0, db, b);
    }
  }

  lemma StartLedger(db0: Db)
    requires Start(db0)
    ensures Ledger(db0, [], db0)
  {
    forall p | p in db0.products ensures ProductConserved(db0, db0, p) {}
    forall b | b in db0.users ensures BuyerConserved(db0, db0, b) {}
  }

  lemma {:induction false} SerialUnfolds(db0: Db, log: seq<Entry>)
    requires log != [] && AllSucceed(db0, log)
    ensures var before, last := Serial(db0, log[..|log| - 1]), log[|log| - 1];
      && AllSucceed(db0, log[..|log| - 1])
      && Transact(before, last).Success?
      && (last.key.Some? ==> last.key.value !in before.keys)
      && Serial(db0, log) == Transact(before, last).value.0
  {
  }

  lemma LedgerExtends(db0: Db, log: seq<Entry>, db: Db, e: Entry, log': seq<Entry>, db': Db)
    requires Start(db0) && Ledger(db0, log, db)
    requires Transact(db, e).Success? && (e.key.Some? ==> e.key.value !in db.keys)
    requires log' == log + [e] && db' == Transact(db, e).value.0
    ensures Ledger(db0, log', db')
  {
    TransactKeepsLedger(db0, log, db, e);
  }

  /** Conservation, over every serial run: per product, initial stock = stock + quantities
      ordered; per buyer, initial balance = balance + totals; nothing negative; orders, items
      and tasks one to one with transactions; outbox rows and keys one to one with the keyed
      ones. */
  lemma {:induction false} SerialKeepsLedger(db0: Db, log: seq<Entry>)
    requires Start(db0) && AllSucceed(db0, log)
    ensures Ledger(db0, log, Serial(db0, log))
  {
    if log == [] {
      StartLedger(db0);
    } else {
      var prefix, last := log[..|log| - 1], log[|log| - 1];
      SerialUnfolds(db0, log);
      SerialKeepsLedger(db0, prefix);
      LedgerExtends(db0, prefix, Serial(db0, prefix), last, log, Serial(db0, log));
    }
  }

  /** Replaying the key of transaction i, at any later time: the original order, total, task
      and outbox row; the stock and the balance as they are now. */
  lemma ReplayGivesTheOriginal(db0: Db, log: seq<Entry>, db: Db, i: nat)
    requires Ledger(db0, log, db) && FreshIds(log)
    requires i < |log| && log[i].key.Some?
    ensures Servable(db0, log[i])
    ensures log[i].input.productId in db.products && log[i].input.buyerId in db.users
    ensures ReplayOf(db, log[i].key.value) ==
            Success(Reply(log[i].gen.orderId, Some(log[i].gen.taskId), TotalOf(db0, log[i]),
                          db.products[log[i].input.productId].stock, db.users[log[i].input.buyerId],
                          true, Some(log[i].gen.outboxId)))
  {
    var e := log[i];
    assert RowsOf(db0, e, db.orders[i], db.items[i], db.tasks[i]);
    FoundOrder(db0, log, db, i);
    FoundItem(db0, log, db, i);
    FoundTask(db0, log, db, i);
    FoundOutboxRow(db0, log, db, i);
  }

  lemma FoundOrder(db0: Db, log: seq<Entry>, db: Db, i: nat)
    requires RowsKept(db0, log, db) && FreshIds(log) && i < |log|
    ensures Find(db.orders, (o: Order) => o.id == log[i].gen.orderId) == Some(db.orders[i])
  {
    var found := Find(db.orders, (o: Order) => o.id == log[i].gen.orderId);
    assert RowsOf(db0, log[i], db.orders[i], db.items[i], db.tasks[i]);
    var n :| 0 <= n < |log| && db.orders[n] == found.value;
    assert RowsOf(db0, log[n], db.orders[n], db.items[n], db.tasks[n]);
  }

  lemma FoundItem(db0: Db, log: seq<Entry>, db: Db, i: nat)
    requires RowsKept(db0, log, db) && StockKept(db0, db) && FreshIds(log) && i < |log|
    ensures Find(db.items, (it: Item) => it.orderId == log[i].gen.orderId && it.productId in db.products)
            == Some(db.items[i])
  {
    var found := Find(db.items, (it: Item) => it.orderId == log[i].gen.orderId && it.productId in db.products);
    assert RowsOf(db0, log[i], db.orders[i], db.items[i], db.tasks[i]);
    var n :| 0 <= n < |log| && db.items[n] == found.value;
    assert RowsOf(db0, log[n], db.orders[n], db.items[n], db.tasks[n]);
  }

  lemma FoundTask(db0: Db, log: seq<Entry>, db: Db, i: nat)
    requires RowsKept(db0, log, db) && FreshIds(log) && i < |log|
    ensures LeastId(db.tasks, (t: Task) => t.orderId == log[i].gen.orderId, (t: Task) => t.id)
            == Some(log[i].gen.taskId)
  {
    var found := LeastId(db.tasks, (t: Task) => t.orderId == log[i].gen.orderId, (t: Task) => t.id);
    assert RowsOf(db0, log[i], db.orders[i], db.items[i], db.tasks[i]);
    var n :| 0 <= n < |log| && db.tasks[n].orderId == log[i].gen.orderId && db.tasks[n].id == found.value;
    assert RowsOf(db0, log[n], db.orders[n], db.items[n], db.tasks[n]);
  }

  lemma FoundOutboxRow(db0: Db, log: seq<Entry>, db: Db, i: nat)
    requires OutboxKept(db0, log, db) && FreshIds(log) && i < |log| && log[i].key.Some?
    ensures LeastId(db.outbox, (r: OutboxRow) => r.aggregateId == Text(log[i].gen.orderId), (r: OutboxRow) => r.id)
            == Some(log[i].gen.outboxId)
  {
    var id := log[i].gen.orderId;
    var found := LeastId(db.outbox, (r: OutboxRow) => r.aggregateId == Text(id), (r: OutboxRow) => r.id);
    assert OutboxOf(db0, log[i], db.outbox[Keyed(log[..i])]);
    var n :| 0 <= n < |db.outbox| && db.outbox[n].aggregateId == Text(id) && db.outbox[n].id == found.value;
    assert HasSource(log, n);
    var m :| SourceAt(log, m, n);
    assert OutboxOf(db0, log[m], db.outbox[n]);
    TextInjective(log[m].gen.orderId, id);
  }
}
