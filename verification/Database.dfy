/** `placeOrder` and `checkoutInTransaction` as they run: one statement after another on the
    tables of one database, with COMMIT or ROLLBACK at the end
    (src/outbox/place-order.ts, src/checkout.ts). */
module Database {
  import opened Wrappers
  import opened Events
  import opened Checkout

  datatype StockRow = StockRow(priceCents: int, currency: string, stockLeft: int)

  /** Why `placeOrder` throws. */
  datatype Thrown = Business(failure: Failure) | HookThrew

  class Connection {
    var products: map<nat, Product>
    var users: map<nat, int>
    var orders: seq<Order>
    var items: seq<Item>
    var tasks: seq<Task>
    var outbox: seq<OutboxRow>
    var keys: map<string, Option<nat>>
    var nextOrder: nat
    var nextTask: nat
    var nextOutbox: nat

    ghost function Tables(): Db
      reads this
    {
      Db(products, users, orders, items, tasks, outbox, keys)
    }

    /** The identity values and times the next transaction is given. */
    ghost function NextIds(now: nat, occurredAt: string): Generated
      reads this
    {
      Generated(nextOrder, nextTask, nextOutbox, now, occurredAt)
    }

    constructor (products: map<nat, Product>, users: map<nat, int>)
      ensures Tables() == Db(products, users, [], [], [], [], map[])
    {
      this.products, this.users := products, users;
      orders, items, tasks, outbox, keys := [], [], [], [], map[];
      nextOrder, nextTask, nextOutbox := 0, 0, 0;
    }

    /** INSERT INTO idempotency_keys … ON CONFLICT DO NOTHING RETURNING "key". */
    method ClaimKey(key: string) returns (claimed: bool)
      modifies this`keys
      ensures claimed <==> key !in old(keys)
      ensures keys == if claimed then old(keys)[key := None] else old(keys)
    {
      claimed := key !in keys;
      if claimed { keys := keys[key := None]; }
    }

    /** UPDATE products SET stock = stock - n WHERE id = … AND stock >= n RETURNING …. */
    method DecrementStock(productId: nat, quantity: int) returns (row: Option<StockRow>)
      modifies this`products
      ensures row.Some? <==> productId in old(products) && old(products)[productId].stock >= quantity
      ensures row.None? ==> products == old(products)
      ensures row.Some? ==>
        var product := old(products)[productId];
        && row.value == StockRow(product.priceCents, product.currency, product.stock - quantity)
        && products == old(products)[productId := product.(stock := product.stock - quantity)]
    {
      if productId in products && products[productId].stock >= quantity {
        var product := products[productId];
        products := products[productId := product.(stock := product.stock - quantity)];
        row := Some(StockRow(product.priceCents, product.currency, product.stock - quantity));
      } else {
        row := None;
      }
    }

    /** UPDATE users SET balance_cents = balance_cents - n WHERE … AND balance_cents >= n. */
    method Debit(buyerId: nat, total: int) returns (balanceLeft: Option<int>)
      modifies this`users
      ensures balanceLeft.Some? <==> buyerId in old(users) && old(users)[buyerId] >= total
      ensures balanceLeft.None? ==> users == old(users)
      ensures balanceLeft.Some? ==>
        && balanceLeft.value == old(users)[buyerId] - total
        && users == old(users)[buyerId := balanceLeft.value]
    {
      if buyerId in users && users[buyerId] >= total {
        users := users[buyerId := users[buyerId] - total];
        balanceLeft := Some(users[buyerId]);
      } else {
        balanceLeft := None;
      }
    }

    /** The body of the operation; the caller owns the transaction. On success it leaves what
        the specification says; on failure whatever it wrote is for the caller to roll back. */
    method CheckoutInTransaction(input: Input, ghost now: nat, ghost occurredAt: string)
      returns (r: Result<CheckoutResult, Failure>)
      modifies this`products, this`users, this`orders, this`items, this`tasks, this`nextOrder, this`nextTask
      ensures match Checkout.CheckoutInTransaction(old(Tables()), input, old(NextIds(now, occurredAt)))
        case Success((after, result)) => r == Success(result) && Tables() == after
        case Failure(f) => r == Failure(f)
      ensures r.Failure? ==> FailsWith(old(Tables()), input, r.error)
      ensures r.Success? ==> Sells(old(Tables()), input, Tables(), r.value)
      ensures nextOrder >= old(nextOrder) && nextTask >= old(nextTask)
      ensures r.Success? ==> nextOrder == old(nextOrder) + 1 && nextTask == old(nextTask) + 1
    {
      r := Statements(input, now, occurredAt);
      ghost var gen := old(NextIds(now, occurredAt));
      if r.Success? {
        CheckoutSells(old(Tables()), input, gen);
      } else {
        RefusesExactly(old(Tables()), input, gen, r.error);
      }
    }

    method Statements(input: Input, ghost now: nat, ghost occurredAt: string)
      returns (r: Result<CheckoutResult, Failure>)
      modifies this`products, this`users, this`orders, this`items, this`tasks, this`nextOrder, this`nextTask
      ensures match Checkout.CheckoutInTransaction(old(Tables()), input, old(NextIds(now, occurredAt)))
        case Success((after, result)) => r == Success(result) && Tables() == after
        case Failure(f) => r == Failure(f)
      ensures nextOrder >= old(nextOrder) && nextTask >= old(nextTask)
      ensures r.Success? ==> nextOrder == old(nextOrder) + 1 && nextTask == old(nextTask) + 1
    {
      if !IsPositiveInteger(input.quantity) {
        return Failure(OutOfStock);
      }
      var quantity := input.quantity.Floor;
      if quantity > INT_MAX {
        return Failure(OutOfRange);
      }

      var row := DecrementStock(input.productId, quantity);
      if row.None? {
        return Failure(if input.productId in products then OutOfStock else NoSuchProduct);
      }

      var totalCents := row.value.priceCents * quantity;
      if totalCents > INT_MAX {
        return Failure(OutOfRange);
      }
      var balanceLeft := Debit(input.buyerId, totalCents);
      if balanceLeft.None? {
        return Failure(if input.buyerId in users then InsufficientFunds else NoSuchBuyer);
      }

      var orderId := nextOrder;
      nextOrder := nextOrder + 1;
      orders := orders + [Order(orderId, input.buyerId, totalCents, row.value.currency)];
      items := items + [Item(orderId, input.productId, quantity, row.value.priceCents)];

      var taskId := nextTask;
      nextTask := nextTask + 1;
      tasks := tasks + [Task(taskId, orderId)];

      return Success(CheckoutResult(orderId, taskId, totalCents, row.value.stockLeft, balanceLeft.value));
    }

    /** The whole request, in one transaction. Sequences are not transactional: a rolled-back
        request may leave a gap in the identity values, and nothing else. */
    method PlaceOrder(key: string, input: Input, now: nat, occurredAt: string, hookThrows: bool)
      returns (r: Result<Reply, Thrown>)
      modifies this
      ensures var (after, spec) :=
          Checkout.PlaceOrder(old(Tables()), Entry(Some(key), input, old(NextIds(now, occurredAt))));
        match spec
        case Failure(f) => r == Failure(Business(f)) && Tables() == old(Tables())
        case Success(reply) =>
          if hookThrows && !reply.replay
          then r == Failure(HookThrew) && Tables() == old(Tables())
          else r == Success(reply) && Tables() == after
      ensures key in old(keys) ==>
        && Tables() == old(Tables())
        && match r
           case Failure(thrown) => thrown == Business(KeyWithoutOrder)
           case Success(reply) => old(keys)[key].Some? && ReadsOrder(old(Tables()), old(keys)[key].value, reply)
      ensures key !in old(keys) ==>
        match r
        case Failure(Business(f)) => FailsWith(old(Tables()), input, f)
        case Failure(HookThrew) => hookThrows
        case Success(reply) => Places(old(Tables()), key, input, now, occurredAt, Tables(), reply)
      ensures nextOrder >= old(nextOrder) && nextTask >= old(nextTask) && nextOutbox >= old(nextOutbox)
      ensures r.Success? && !r.value.replay ==>
        nextOrder > old(nextOrder) && nextTask > old(nextTask) && nextOutbox > old(nextOutbox)
    {
      r := Transaction(key, input, now, occurredAt, hookThrows);
      if key !in old(keys) {
        PlaceOrderMeans(old(Tables()), key, input, old(NextIds(now, occurredAt)));
      } else {
        ReplayReads(old(Tables()), key);
      }
    }

    method Transaction(key: string, input: Input, now: nat, occurredAt: string, hookThrows: bool)
      returns (r: Result<Reply, Thrown>)
      modifies this
      ensures var (after, spec) :=
          Checkout.PlaceOrder(old(Tables()), Entry(Some(key), input, old(NextIds(now, occurredAt))));
        match spec
        case Failure(f) => r == Failure(Business(f)) && Tables() == old(Tables())
        case Success(reply) =>
          if hookThrows && !reply.replay
          then r == Failure(HookThrew) && Tables() == old(Tables())
          else r == Success(reply) && Tables() == after
      ensures nextOrder >= old(nextOrder) && nextTask >= old(nextTask) && nextOutbox >= old(nextOutbox)
      ensures r.Success? && !r.value.replay ==>
        nextOrder > old(nextOrder) && nextTask > old(nextTask) && nextOutbox > old(nextOutbox)
    {
      // BEGIN
      var products0, users0, orders0, items0, tasks0, outbox0, keys0 :=
        products, users, orders, items, tasks, outbox, keys;

      r := Body(key, input, now, occurredAt, hookThrows);

      if r.Failure? {
        // ROLLBACK
        products, users, orders, items, tasks, outbox, keys :=
          products0, users0, orders0, items0, tasks0, outbox0, keys0;
      }
    }

    method Body(key: string, input: Input, now: nat, occurredAt: string, hookThrows: bool)
      returns (r: Result<Reply, Thrown>)
      modifies this
      ensures var (after, spec) :=
          Checkout.PlaceOrder(old(Tables()), Entry(Some(key), input, old(NextIds(now, occurredAt))));
        match spec
        case Failure(f) => r == Failure(Business(f))
        case Success(reply) =>
          if hookThrows && !reply.replay then r == Failure(HookThrew)
          else r == Success(reply) && Tables() == after
      ensures nextOrder >= old(nextOrder) && nextTask >= old(nextTask) && nextOutbox >= old(nextOutbox)
      ensures r.Success? && !r.value.replay ==>
        nextOrder > old(nextOrder) && nextTask > old(nextTask) && nextOutbox > old(nextOutbox)
    {
      var claimed := ClaimKey(key);
      if !claimed {
        r := Replayed(key);
        return;
      }

      ClaimDoesNotMatter(old(Tables()), key, input, old(NextIds(now, occurredAt)));
      r := PlaceNew(key, input, now, occurredAt, hookThrows);
    }

    /** The rest of the transaction once the key is claimed. */
    method PlaceNew(key: string, input: Input, now: nat, occurredAt: string, hookThrows: bool)
      returns (r: Result<Reply, Thrown>)
      requires key in keys
      modifies this
      ensures match Checkout.CheckoutInTransaction(old(Tables()), input, old(NextIds(now, occurredAt)))
        case Failure(f) => r == Failure(Business(f))
        case Success((after, result)) =>
          if hookThrows then r == Failure(HookThrew)
          else
            var event := EventFor(result.orderId, result.totalCents, input, occurredAt);
            && r == Success(CreatedReply(result, Some(old(nextOutbox))))
            && Tables() == after.(outbox := after.outbox + [OutboxRow(old(nextOutbox), now, event.data.orderId, event)],
                                  keys := after.keys[key := Some(result.orderId)])
      ensures nextOrder >= old(nextOrder) && nextTask >= old(nextTask) && nextOutbox >= old(nextOutbox)
      ensures r.Success? ==>
        nextOrder > old(nextOrder) && nextTask > old(nextTask) && nextOutbox > old(nextOutbox)
    {
      var result := CheckoutInTransaction(input, now, occurredAt);
      if result.Failure? {
        return Failure(Business(result.error));
      }
      var outboxId := EnqueueEvent(result.value, input, now, occurredAt);
      if hookThrows {
        return Failure(HookThrew);
      }
      BindKey(key, result.value.orderId);
      return Success(CreatedReply(result.value, Some(outboxId)));
    }

    /** The answer under a key that is taken; only reads. */
    method Replayed(key: string) returns (r: Result<Reply, Thrown>)
      ensures match ReplayOf(Tables(), key)
        case Success(reply) => r == Success(reply)
        case Failure(f) => r == Failure(Business(f))
      ensures r.Success? ==> r.value.replay
    {
      var replayed := ReplayOf(Db(products, users, orders, items, tasks, outbox, keys), key);
      return match replayed case Success(reply) => Success(reply) case Failure(f) => Failure(Business(f));
    }

    /** INSERT INTO outbox … RETURNING id. */
    method EnqueueEvent(result: CheckoutResult, input: Input, now: nat, occurredAt: string) returns (outboxId: nat)
      modifies this`outbox, this`nextOutbox
      ensures outboxId == old(nextOutbox) && nextOutbox == old(nextOutbox) + 1
      ensures var event := EventFor(result.orderId, result.totalCents, input, occurredAt);
        outbox == old(outbox) + [OutboxRow(outboxId, now, event.data.orderId, event)]
    {
      var event := EventFor(result.orderId, result.totalCents, input, occurredAt);
      outboxId := nextOutbox;
      nextOutbox := nextOutbox + 1;
      outbox := outbox + [OutboxRow(outboxId, now, event.data.orderId, event)];
    }

    /** UPDATE idempotency_keys SET order_id = … WHERE "key" = …. */
    method BindKey(key: string, orderId: nat)
      modifies this`keys
      ensures keys == if key in old(keys) then old(keys)[key := Some(orderId)] else old(keys)
    {
      if key in keys { keys := keys[key := Some(orderId)]; }
    }
  }

  /** The uncommitted claim is invisible to the checkout that follows it. */
  lemma ClaimDoesNotMatter(db: Db, key: string, input: Input, gen: Generated)
    ensures var claimed := db.(keys := db.keys[key := None]);
      match Checkout.CheckoutInTransaction(db, input, gen)
      case Failure(f) => Checkout.CheckoutInTransaction(claimed, input, gen) == Failure(f)
      case Success((after, r)) =>
        Checkout.CheckoutInTransaction(claimed, input, gen) == Success((after.(keys := claimed.keys), r))
  {
  }
}
