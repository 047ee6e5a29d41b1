/** The whole pipeline: the interleaved transactions of module Shop together with the relays,
    broker and consumers of module Delivery, in any order of steps. */
module Pipeline {
  import opened Wrappers
  import opened Decimal
  import opened Events
  import opened Checkout
  import opened Relay
  import Shop
  import D = Delivery
  import DS = DeliverySafety

  datatype State = State(shop: Shop.State, net: D.Net)

  datatype Action = InShop(sale: Shop.Action) | InDelivery(move: D.Action)

  predicate Enabled(s: State, a: Action) {
    match a
    case InShop(sale) => Shop.Enabled(s.shop, sale)
    case InDelivery(move) => D.Enabled(s.shop.db, s.net, move)
  }

  function Exec(s: State, a: Action): State
    requires Enabled(s, a)
  {
    match a
    case InShop(sale) => s.(shop := Shop.Exec(s.shop, sale))
    case InDelivery(move) => s.(net := D.Exec(s.shop.db, s.net, move))
  }

  predicate ValidRun(s: State, run: seq<Action>)
    decreases |run|
  {
    run == [] || (Enabled(s, run[0]) && ValidRun(Exec(s, run[0]), run[1..]))
  }

  function Run(s: State, run: seq<Action>): State
    requires ValidRun(s, run)
    decreases |run|
  {
    if run == [] then s else Run(Exec(s, run[0]), run[1..])
  }

  function Initial(db0: Db, bound: bool): State {
    State(Shop.Initial(db0), D.Initial(bound))
  }

  /** A run of the pipeline from an empty shop, with or without the binding in place. */
  predicate Starts(db0: Db, bound: bool, run: seq<Action>) {
    Start(db0) && ValidRun(Initial(db0, bound), run)
  }

  function After(db0: Db, bound: bool, run: seq<Action>): State
    requires Starts(db0, bound, run)
  {
    Run(Initial(db0, bound), run)
  }

  ghost predicate Inv(db0: Db, s: State) {
    Shop.Inv(db0, s.shop) && D.Inv(s.shop.db, s.net)
  }

  // ---------------------------------------------------------------- the shop feeds the deliveries

  lemma OutboxSource(db0: Db, log: seq<Entry>, db: Db, j: nat) returns (i: nat)
    requires OutboxKept(db0, log, db) && j < |db.outbox|
    ensures SourceAt(log, i, j) && OutboxOf(db0, log[i], db.outbox[j])
  {
    assert HasSource(log, j);
    i :| SourceAt(log, i, j);
  }

  lemma LedgerRowIsGenuine(db0: Db, log: seq<Entry>, db: Db, j: nat)
    requires RowsKept(db0, log, db) && OutboxKept(db0, log, db) && j < |db.outbox|
    ensures D.RowGenuine(db, db.outbox[j])
    ensures ParseOrderPlaced(ToJson(db.outbox[j].event)).value.eventId == db.outbox[j].event.eventId
  {
    var i := OutboxSource(db0, log, db, j);
    var e, row := log[i], db.outbox[j];
    assert RowsOf(db0, e, db.orders[i], db.items[i], db.tasks[i]);
    var data := row.event.data;
    BuildersAgree(data, row.event.occurredAt);
    assert row.event == BuildOrderPlacedEvent(data, row.event.occurredAt);
    BuiltEventParses(data, row.event.occurredAt);
    assert ParseOrderPlaced(ToJson(row.event)).value == D.AcceptedOf(db.items[i]);
  }

  lemma OutboxIdsDistinct(db0: Db, log: seq<Entry>, db: Db)
    requires OutboxKept(db0, log, db) && FreshIds(log)
    ensures DistinctIds(db.outbox)
  {
    forall j, k | 0 <= j < k < |db.outbox|
      ensures db.outbox[j].id != db.outbox[k].id
    {
      var m := OutboxSource(db0, log, db, j);
      var n := OutboxSource(db0, log, db, k);
      assert m != n;
      if m < n { assert log[m].gen.outboxId != log[n].gen.outboxId; }
      else { assert log[n].gen.outboxId != log[m].gen.outboxId; }
    }
  }

  lemma LedgerIsASource(db0: Db, log: seq<Entry>, db: Db)
    requires Ledger(db0, log, db) && FreshIds(log)
    ensures D.SourceOk(db)
  {
    OutboxIdsDistinct(db0, log, db);
    forall j | 0 <= j < |db.outbox| ensures D.RowGenuine(db, db.outbox[j]) {
      LedgerRowIsGenuine(db0, log, db, j);
    }
    forall i | 0 <= i < |db.items|
      ensures db.items[i].orderId == db.orders[i].id == log[i].gen.orderId && db.items[i].quantity > 0
    {
      assert RowsOf(db0, log[i], db.orders[i], db.items[i], db.tasks[i]);
    }
  }

  lemma ShopStepExtends(s: Shop.State, a: Shop.Action)
    requires Shop.Enabled(s, a)
    ensures DS.Extends(s.db, Shop.Exec(s, a).db)
  {
  }

  // ---------------------------------------------------------------- every run

  lemma InitialInv(db0: Db, bound: bool)
    requires Start(db0)
    ensures Inv(db0, Initial(db0, bound))
  {
    Shop.InitialInv(db0);
    LedgerIsASource(db0, [], db0);
    DS.InitialInv(db0, bound);
  }

  lemma StepKeepsInv(db0: Db, s: State, a: Action)
    requires Inv(db0, s) && Enabled(s, a)
    ensures Inv(db0, Exec(s, a))
  {
    match a {
      case InShop(sale) =>
        Shop.StepKeepsInv(db0, s.shop, sale);
        var shop' := Shop.Exec(s.shop, sale);
        LedgerIsASource(db0, shop'.log, shop'.db);
        ShopStepExtends(s.shop, sale);
        DS.ShopCommitKeepsInv(s.shop.db, shop'.db, s.net);
      case InDelivery(move) =>
        DS.StepKeepsInv(s.shop.db, s.net, move);
    }
  }

  lemma {:induction false} RunKeepsInv(db0: Db, s: State, run: seq<Action>)
    requires Inv(db0, s) && ValidRun(s, run)
    ensures Inv(db0, Run(s, run))
    decreases |run|
  {
    if run != [] {
      StepKeepsInv(db0, s, run[0]);
      RunKeepsInv(db0, Exec(s, run[0]), run[1..]);
    }
  }

  lemma Reached(db0: Db, bound: bool, run: seq<Action>)
    requires Starts(db0, bound, run)
    ensures Inv(db0, After(db0, bound, run))
  {
    InitialInv(db0, bound);
    RunKeepsInv(db0, Initial(db0, bound), run);
  }

  // ---------------------------------------------------------------- theorems

  /** Exactly one effect: whatever is crashed, lost, published twice or redelivered, an order
      has at most one picking row, every row belongs to a committed order, and it carries that
      order's quantity. */
  lemma ExactlyOnceEffect(db0: Db, bound: bool, run: seq<Action>)
    requires Starts(db0, bound, run)
    ensures var s := After(db0, bound, run);
      var db, picking := s.shop.db, s.net.picking;
      && (forall i, j :: 0 <= i < j < |picking| ==> picking[i].orderId != picking[j].orderId)
      && (forall i :: 0 <= i < |picking| ==> BelongsToOrder(db, picking[i]))
  {
    Reached(db0, bound, run);
    var s := After(db0, bound, run);
    var db, picking := s.shop.db, s.net.picking;
    forall i | 0 <= i < |picking|
      ensures BelongsToOrder(db, picking[i]) && picking[i].eventId == EventIdOf(Text(picking[i].orderId))
    {
      PickingBelongs(db, picking[i]);
    }
    forall i, j | 0 <= i < j < |picking|
      ensures picking[i].orderId != picking[j].orderId
    {
      EventIdInjective(picking[i].orderId, picking[j].orderId);
    }
  }

  /** A picking row is the order line of exactly one committed order. */
  ghost predicate BelongsToOrder(db: Db, row: D.Picking) {
    exists k :: 0 <= k < |db.orders| && k < |db.items|
      && db.orders[k].id == row.orderId == db.items[k].orderId && db.items[k].quantity == row.quantity
  }

  lemma PickingBelongs(db: Db, row: D.Picking)
    requires D.SourceOk(db) && D.PickingGenuine(db, row)
    ensures BelongsToOrder(db, row) && row.eventId == EventIdOf(Text(row.orderId))
  {
    var k :| 0 <= k < |db.items| && row == D.RowFor(D.AcceptedOf(db.items[k]));
    ValueOfText(db.items[k].orderId);
    assert db.orders[k].id == row.orderId;
  }

  /** Where an event may be: still to be published, in the queue, with a consumer, in the
      dead-letter queue, or applied. */
  ghost predicate Tracked(net: D.Net, row: OutboxRow) {
    || row.id !in net.published
    || D.HasEffect(net.picking, row.event.eventId)
    || exists m :: m in net.messages && net.messages[m].body == ToJson(row.event) && net.messages[m].place != D.Gone
  }

  /** The general form of no loss: an event that is nowhere was handed back by the broker for
      want of a binding. */
  lemma LossOnlyWithoutBinding(db0: Db, s: State, j: nat)
    requires Inv(db0, s) && j < |s.shop.db.outbox|
    ensures Tracked(s.net, s.shop.db.outbox[j]) || ToJson(s.shop.db.outbox[j].event) in s.net.returned
  {
    var row, net := s.shop.db.outbox[j], s.net;
    var body := ToJson(row.event);
    if row.id in net.published && body !in net.returned {
      assert row in s.shop.db.outbox;
      assert D.Routed(net, row);
      var m :| m in net.messages && net.messages[m].body == body;
      assert D.MessageOk(s.shop.db, net, net.messages[m]);
      LedgerRowIsGenuine(db0, s.shop.log, s.shop.db, j);
    }
  }

  /** The order of transaction i has its own outbox row, telling of it. */
  ghost predicate Announced(db: Db, i: nat)
    requires i < |db.orders|
  {
    var id := Text(db.orders[i].id);
    exists row :: row in db.outbox && row.aggregateId == id && row.event.eventId == EventIdOf(id)
  }

  lemma KeyedOrderIsAnnounced(db0: Db, log: seq<Entry>, db: Db, i: nat)
    requires RowsKept(db0, log, db) && OutboxKept(db0, log, db) && i < |log| && log[i].key.Some?
    ensures Announced(db, i)
  {
    var row := db.outbox[Keyed(log[..i])];
    assert OutboxOf(db0, log[i], row);
    assert RowsOf(db0, log[i], db.orders[i], db.items[i], db.tasks[i]);
    assert row in db.outbox;
  }

  /** No loss, with the binding in place: every order `placeOrder` committed has its outbox row,
      and at every moment its event is unpublished, queued, in a consumer's hands, dead-lettered
      or applied. */
  lemma NoLoss(db0: Db, run: seq<Action>)
    requires Starts(db0, true, run)
    ensures var s := After(db0, true, run);
      && s.net.returned == []
      && (forall j :: 0 <= j < |s.shop.db.outbox| ==> Tracked(s.net, s.shop.db.outbox[j]))
      && |s.shop.log| == |s.shop.db.orders|
      && (forall i :: 0 <= i < |s.shop.log| && s.shop.log[i].key.Some? ==> Announced(s.shop.db, i))
  {
    Reached(db0, true, run);
    var s := After(db0, true, run);
    StaysBound(Initial(db0, true), run);
    forall j | 0 <= j < |s.shop.db.outbox| ensures Tracked(s.net, s.shop.db.outbox[j]) {
      LossOnlyWithoutBinding(db0, s, j);
    }
    forall i | 0 <= i < |s.shop.log| && s.shop.log[i].key.Some? ensures Announced(s.shop.db, i) {
      KeyedOrderIsAnnounced(db0, s.shop.log, s.shop.db, i);
    }
  }

  lemma {:induction false} StaysBound(s: State, run: seq<Action>)
    requires s.net.bound && s.net.returned == [] && ValidRun(s, run)
    ensures Run(s, run).net.bound && Run(s, run).net.returned == []
    decreases |run|
  {
    if run != [] {
      BoundStep(s, run[0]);
      StaysBound(Exec(s, run[0]), run[1..]);
    }
  }

  lemma BoundStep(s: State, a: Action)
    requires s.net.bound && s.net.returned == [] && Enabled(s, a)
    ensures Exec(s, a).net.bound && Exec(s, a).net.returned == []
  {
    match a
    case InShop(_) =>
    case InDelivery(move) => BoundMove(s.shop.db, s.net, move);
  }

  lemma BoundMove(db: Db, net: D.Net, a: D.Action)
    requires net.bound && net.returned == [] && D.Enabled(db, net, a)
    ensures D.Exec(db, net, a).bound && D.Exec(db, net, a).returned == []
  {
    match a
    case PublishRow(r, _) => BoundSend(net, ToJson(net.relays[r].batch[net.relays[r].at].event));
    case PublishDirect(i, now) => BoundSend(net, ToJson(D.DirectEvent(db, i, now)));
    case PublishRaw(body) => BoundSend(net, body);
    case HandlerStep(h) => BoundHandler(net, h);
    case _ =>
  }

  lemma BoundSend(net: D.Net, body: Json)
    requires net.bound
    ensures D.Send(net, body).bound && D.Send(net, body).returned == net.returned
  {
  }

  lemma BoundHandler(net: D.Net, h: nat)
    requires D.StepEnabled(net, h)
    ensures D.RunHandler(net, h).bound == net.bound && D.RunHandler(net, h).returned == net.returned
  {
  }

  // ---------------------------------------------------------------- without the binding

  /** Somebody can pay for one piece of something in stock. */
  predicate CanServe(db0: Db) {
    exists p, b :: p in db0.products && b in db0.users && CanBuy(db0, b, p)
  }

  predicate CanBuy(db0: Db, b: nat, p: nat)
    requires p in db0.products && b in db0.users
  {
    db0.products[p].stock >= 1 && db0.products[p].priceCents <= INT_MAX && db0.users[b] >= db0.products[p].priceCents
  }

  ghost predicate LosesAt(db0: Db, bound: bool, run: seq<Action>, j: nat) {
    && Starts(db0, bound, run)
    && j < |After(db0, bound, run).shop.db.outbox|
    && !Tracked(After(db0, bound, run).net, After(db0, bound, run).shop.db.outbox[j])
  }

  /** In no run is an event of the outbox ever nowhere. */
  ghost predicate NeverLoses(db0: Db, bound: bool) {
    forall run, j :: !LosesAt(db0, bound, run, j)
  }

  /** No run loses an event if and only if the binding is in place, or nothing can be sold. */
  lemma NoLossExactlyWithBinding(db0: Db, bound: bool)
    requires Start(db0)
    ensures NeverLoses(db0, bound) <==> bound || !CanServe(db0)
  {
    if bound {
      forall run, j ensures !LosesAt(db0, true, run, j) {
        if Starts(db0, true, run) { NoLoss(db0, run); }
      }
    } else if !CanServe(db0) {
      forall run, j ensures !LosesAt(db0, false, run, j) {
        if Starts(db0, false, run) { NothingSold(db0, run); }
      }
    } else {
      var p, b :| p in db0.products && b in db0.users && CanBuy(db0, b, p);
      var run := LosingRun(db0, b, p);
      assert LosesAt(db0, false, run, 0);
    }
  }

  lemma NothingSold(db0: Db, run: seq<Action>)
    requires Starts(db0, false, run) && !CanServe(db0)
    ensures After(db0, false, run).shop.db.outbox == []
  {
    Reached(db0, false, run);
    var s := After(db0, false, run).shop;
    if s.log != [] {
      FirstOrderWasServable(db0, s.log);
    }
  }

  lemma {:induction false} FirstOrderWasServable(db0: Db, log: seq<Entry>)
    requires Start(db0) && AllSucceed(db0, log) && log != []
    ensures CanServe(db0)
  {
    if |log| > 1 {
      FirstOrderWasServable(db0, log[..|log| - 1]);
    } else {
      assert Serial(db0, log[..0]) == db0;
      var input := log[0].input;
      OnePieceCostsNoMore(db0.products[input.productId].priceCents, input.quantity.Floor);
      assert CanBuy(db0, input.buyerId, input.productId);
    }
  }

  lemma OnePieceCostsNoMore(price: int, quantity: int)
    requires price > 0 && quantity > 0
    ensures price <= price * quantity
  {
  }

  /** A run, one step longer. */
  lemma Snoc(db0: Db, bound: bool, run: seq<Action>, a: Action)
    requires Starts(db0, bound, run) && Enabled(After(db0, bound, run), a)
    ensures Starts(db0, bound, run + [a]) && After(db0, bound, run + [a]) == Exec(After(db0, bound, run), a)
  {
    SnocFrom(Initial(db0, bound), run, a);
  }

  lemma {:induction false} SnocFrom(s: State, run: seq<Action>, a: Action)
    requires ValidRun(s, run) && Enabled(Run(s, run), a)
    ensures ValidRun(s, run + [a]) && Run(s, run + [a]) == Exec(Run(s, run), a)
    decreases |run|
  {
    if run == [] {
      assert [a][1..] == [];
      assert Run(s, [a]) == Run(Exec(s, a), [a][1..]);
    } else {
      assert (run + [a])[0] == run[0] && (run + [a])[1..] == run[1..] + [a];
      SnocFrom(Exec(s, run[0]), run[1..], a);
    }
  }

  /** A keyed order of one piece is under way, alone, before anything was ever committed. */
  predicate Selling(db0: Db, s: State, b: nat, p: nat, pc: Shop.Pc) {
    && s.net == D.Initial(false) && s.shop.db == db0
    && s.shop.txs.Keys == {0}
    && var tx := s.shop.txs[0];
       tx.pc == pc && tx.key.Some? && tx.input == Input(b, p, 1.0)
  }

  function Following(pc: Shop.Pc): Shop.Pc {
    match pc
    case Claim => Shop.Decrement
    case Decrement => Shop.Debit
    case Debit => Shop.InsertOrder
    case InsertOrder => Shop.InsertItem
    case InsertItem => Shop.InsertTask
    case InsertTask => Shop.Enqueue
    case Enqueue => Shop.AfterEnqueue
    case AfterEnqueue => Shop.Bind
    case _ => Shop.Commit
  }

  lemma NobodyElse(s: Shop.State)
    requires s.txs.Keys == {0}
    ensures !Shop.Blocked(s, 0)
  {
  }

  lemma SaleStep(db0: Db, s: State, b: nat, p: nat, pc: Shop.Pc)
    requires Start(db0) && p in db0.products && b in db0.users && CanBuy(db0, b, p)
    requires Selling(db0, s, b, p, pc) && Shop.Consistent(db0, s.shop.txs[0]) && pc !in {Shop.Replay, Shop.StockLookup, Shop.BalanceLookup, Shop.Commit}
    ensures Enabled(s, InShop(Shop.Statement(0, "")))
    ensures Selling(db0, Exec(s, InShop(Shop.Statement(0, ""))), b, p, Following(pc))
  {
    var tx := s.shop.txs[0];
    NobodyElse(s.shop);
    assert tx.Quantity() == 1;
  }

  lemma Sell(db0: Db, run: seq<Action>, b: nat, p: nat, pc: Shop.Pc) returns (sold: seq<Action>)
    requires Starts(db0, false, run) && p in db0.products && b in db0.users && CanBuy(db0, b, p)
    requires Selling(db0, After(db0, false, run), b, p, pc)
    requires pc !in {Shop.Replay, Shop.StockLookup, Shop.BalanceLookup}
    ensures Starts(db0, false, sold) && Selling(db0, After(db0, false, sold), b, p, Shop.Commit)
    decreases 9 - Shop.Stage(pc)
  {
    if pc == Shop.Commit {
      sold := run;
    } else {
      var longer := SellOn(db0, run, b, p, pc);
      sold := Sell(db0, longer, b, p, Following(pc));
    }
  }

  lemma SaleIsConsistent(db0: Db, run: seq<Action>, b: nat, p: nat, pc: Shop.Pc)
    requires Starts(db0, false, run) && Selling(db0, After(db0, false, run), b, p, pc)
    ensures Shop.Consistent(db0, After(db0, false, run).shop.txs[0])
  {
    Reached(db0, false, run);
  }

  lemma SellOn(db0: Db, run: seq<Action>, b: nat, p: nat, pc: Shop.Pc) returns (longer: seq<Action>)
    requires Starts(db0, false, run) && p in db0.products && b in db0.users && CanBuy(db0, b, p)
    requires Selling(db0, After(db0, false, run), b, p, pc)
    requires pc !in {Shop.Replay, Shop.StockLookup, Shop.BalanceLookup, Shop.Commit}
    ensures Starts(db0, false, longer) && Selling(db0, After(db0, false, longer), b, p, Following(pc))
  {
    SaleIsConsistent(db0, run, b, p, pc);
    SaleStep(db0, After(db0, false, run), b, p, pc);
    Snoc(db0, false, run, InShop(Shop.Statement(0, "")));
    longer := run + [InShop(Shop.Statement(0, ""))];
  }

  /** One order is committed, and nothing was delivered yet. */
  lemma OneOrder(db0: Db, b: nat, p: nat) returns (run: seq<Action>)
    requires Start(db0) && p in db0.products && b in db0.users && CanBuy(db0, b, p)
    ensures Starts(db0, false, run)
    ensures var s := After(db0, false, run); s.net == D.Initial(false) && |s.shop.db.outbox| == 1
  {
    var begin := InShop(Shop.Begin(0, Some("key"), Input(b, p, 1.0), 0));
    BeginStep(db0, Initial(db0, false), b, p);
    Snoc(db0, false, [], begin);
    var selling := Sell(db0, [] + [begin], b, p, Shop.Claim);
    SaleIsConsistent(db0, selling, b, p, Shop.Commit);
    CommitStep(db0, After(db0, false, selling), b, p);
    run := selling + [InShop(Shop.Statement(0, ""))];
    Snoc(db0, false, selling, InShop(Shop.Statement(0, "")));
  }

  lemma BeginStep(db0: Db, s: State, b: nat, p: nat)
    requires s == Initial(db0, false)
    ensures var begin := InShop(Shop.Begin(0, Some("key"), Input(b, p, 1.0), 0));
      Enabled(s, begin) && Selling(db0, Exec(s, begin), b, p, Shop.Claim)
  {
  }

  lemma CommitStep(db0: Db, s: State, b: nat, p: nat)
    requires Selling(db0, s, b, p, Shop.Commit) && Shop.Consistent(db0, s.shop.txs[0]) && db0.outbox == []
    ensures Enabled(s, InShop(Shop.Statement(0, "")))
    ensures var s' := Exec(s, InShop(Shop.Statement(0, ""))); s'.net == s.net && |s'.shop.db.outbox| == 1
  {
    NobodyElse(s.shop);
  }

  /** A relay picks the one row, publishes, gets its confirm, marks and commits; the broker had
      nowhere to put the message. */
  lemma LosingRun(db0: Db, b: nat, p: nat) returns (run: seq<Action>)
    requires Start(db0) && p in db0.products && b in db0.users && CanBuy(db0, b, p)
    ensures LosesAt(db0, false, run, 0)
  {
    var sold := OneOrder(db0, b, p);
    var db := After(db0, false, sold).shop.db;
    PickOfOne(db.outbox[0]);
    assert db.outbox == [db.outbox[0]];
    LostWithoutBinding(db, 1);
    var pick, publish := InDelivery(D.PickBatch(0, 1)), InDelivery(D.PublishRow(0, D.Confirm));
    var mark, commit := InDelivery(D.MarkRow(0)), InDelivery(D.CommitMarks(0));
    Snoc(db0, false, sold, pick);
    Snoc(db0, false, sold + [pick], publish);
    Snoc(db0, false, sold + [pick] + [publish], mark);
    Snoc(db0, false, sold + [pick] + [publish] + [mark], commit);
    run := sold + [pick] + [publish] + [mark] + [commit];
  }

  /** The steps of a relay that picks one row, whatever the tables. */
  lemma LostWithoutBinding(db: Db, n: nat)
    requires |Pick(db.outbox, {}, {}, n)| == 1
    ensures var row := Pick(db.outbox, {}, {}, n)[0];
      var net := D.Initial(false);
      var picked := D.Exec(db, net, D.PickBatch(0, n));
      D.Enabled(db, picked, D.PublishRow(0, D.Confirm)) &&
      var confirmed := D.Exec(db, picked, D.PublishRow(0, D.Confirm));
      D.Enabled(db, confirmed, D.MarkRow(0)) &&
      var marked := D.Exec(db, confirmed, D.MarkRow(0));
      D.Enabled(db, marked, D.CommitMarks(0)) &&
      var done := D.Exec(db, marked, D.CommitMarks(0));
      !Tracked(done, row) && ToJson(row.event) in done.returned
  {
    var net := D.Initial(false);
    assert D.LockedRows(net) == {};
  }

  lemma PickOfOne(row: OutboxRow)
    ensures Pick([row], {}, {}, 1) == [row]
  {
    assert Ordered([row]) == Insert(row, []);
  }

  /** An acknowledged message has had its effect, and a readable one reaches the dead-letter queue
      only by coming back more often than the delivery limit allows. The event of a committed
      order is always readable. */
  lemma AckAndDeadLetter(db0: Db, bound: bool, run: seq<Action>, m: nat)
    requires Starts(db0, bound, run) && m in After(db0, bound, run).net.messages
    ensures var net := After(db0, bound, run).net;
      var message := net.messages[m];
      var parsed := ParseOrderPlaced(message.body);
      && (message.place == D.Gone ==> parsed.Success? && D.HasEffect(net.picking, parsed.value.eventId))
      && (message.place == D.Dead && parsed.Success? ==> message.requeues > 5)
      && (message.requeues > 5 ==> message.place == D.Dead)
      && (parsed.Success? ==> D.Genuine(After(db0, bound, run).shop.db, parsed.value))
    ensures var (db, message) := (After(db0, bound, run).shop.db, After(db0, bound, run).net.messages[m]);
      forall j :: 0 <= j < |db.outbox| && message.body == ToJson(db.outbox[j].event) ==>
        && ParseOrderPlaced(message.body).Success?
        && (message.place == D.Dead <==> message.requeues > 5)
  {
    Reached(db0, bound, run);
    var s := After(db0, bound, run);
    assert D.MessageOk(s.shop.db, s.net, s.net.messages[m]);
    forall j | 0 <= j < |s.shop.db.outbox| ensures ParseOrderPlaced(ToJson(s.shop.db.outbox[j].event)).Success? {
      assert D.RowGenuine(s.shop.db, s.shop.db.outbox[j]);
    }
  }

  /** A mark in the inbox means the effect is there: the two were committed together. */
  lemma InboxMeansEffect(db0: Db, bound: bool, run: seq<Action>, eventId: string, consumer: string)
    requires Starts(db0, bound, run) && (eventId, consumer) in After(db0, bound, run).net.inbox
    ensures D.HasEffect(After(db0, bound, run).net.picking, eventId)
  {
    Reached(db0, bound, run);
    assert (eventId, consumer).0 == eventId;
  }

  /** A committed `published_at` means a confirmed publish of that row; two relays never hold
      the same row; and no relay holds a row already published. */
  lemma RelaySafety(db0: Db, bound: bool, run: seq<Action>)
    requires Starts(db0, bound, run)
    ensures var net := After(db0, bound, run).net;
      && net.published <= net.confirmed
      && (forall q, r :: q in net.relays && r in net.relays && q != r ==>
            IdsOf(net.relays[q].batch) !! IdsOf(net.relays[r].batch))
      && (forall r, row :: r in net.relays && row in net.relays[r].batch ==>
            row in After(db0, bound, run).shop.db.outbox && row.id !in net.published)
  {
    Reached(db0, bound, run);
    var s := After(db0, bound, run);
    forall r, row | r in s.net.relays && row in s.net.relays[r].batch
      ensures row in s.shop.db.outbox && row.id !in s.net.published
    {
      assert D.RelayOk(s.shop.db, s.net, s.net.relays[r]);
    }
  }

  /** Which currency an event names: the order is in the currency of its product in the catalogue,
      the builder says UAH regardless, so they agree exactly when the product is sold in UAH. */
  lemma EventCurrency(db0: Db, bound: bool, run: seq<Action>, i: nat, j: nat)
    requires Starts(db0, bound, run)
    requires var s := After(db0, bound, run).shop; SourceAt(s.log, i, j)
    ensures var db := After(db0, bound, run).shop.db;
      && j < |db.outbox| && i < |db.orders|
      && var productId := After(db0, bound, run).shop.log[i].input.productId;
      && productId in db0.products
      && (db.outbox[j].event.data.currency == db.orders[i].currency <==> db0.products[productId].currency == "UAH")
      && db.outbox[j].event.data.totalCents == db.orders[i].totalCents
      && db.outbox[j].event.data.orderId == Text(db.orders[i].id)
  {
    Reached(db0, bound, run);
    var s := After(db0, bound, run).shop;
    assert OutboxOf(db0, s.log[i], s.db.outbox[j]);
    assert RowsOf(db0, s.log[i], s.db.orders[i], s.db.items[i], s.db.tasks[i]);
  }

  /** In every reachable state each outbox row tells of the order and the line of its transaction:
      who bought which product, how many, for how much, and when; and so does the message made of
      it, member by member. */
  lemma EventTellsOfItsOrder(db0: Db, bound: bool, run: seq<Action>, i: nat, j: nat)
    requires Starts(db0, bound, run)
    requires var s := After(db0, bound, run).shop; SourceAt(s.log, i, j)
    ensures var s := After(db0, bound, run).shop;
      && j < |s.db.outbox| && i < |s.db.orders| && i < |s.db.items|
      && var row, order, item := s.db.outbox[j], s.db.orders[i], s.db.items[i];
         && TellsOf(row.event, order, item) && row.aggregateId == Text(order.id)
         && row.id == s.log[i].gen.outboxId && row.createdAt == s.log[i].gen.createdAt
         && row.event.occurredAt == s.log[i].gen.occurredAt
         && MessageTellsOf(ToJson(row.event), order, item)
  {
    Reached(db0, bound, run);
    var s := After(db0, bound, run).shop;
    assert OutboxOf(db0, s.log[i], s.db.outbox[j]);
    assert RowsOf(db0, s.log[i], s.db.orders[i], s.db.items[i], s.db.tasks[i]);
    TellingMessage(s.db.outbox[j].event, s.db.orders[i], s.db.items[i]);
  }

  /** What a consumer finds in a message about an order. */
  predicate MessageTellsOf(message: Json, order: Order, item: Item) {
    && Get(message, "eventId") == Some(Str("evt_order_placed_" + Text(order.id)))
    && Get(message, "data").Some?
    && var data := Get(message, "data").value;
       && Get(data, "orderId") == Some(Str(Text(order.id)))
       && Get(data, "buyerId") == Some(Str(Text(order.buyerId)))
       && Get(data, "productId") == Some(Str(Text(item.productId)))
       && Get(data, "quantity") == Some(Number(item.quantity as real))
       && Get(data, "totalCents") == Some(Number(order.totalCents as real))
  }

  lemma TellingMessage(event: Event, order: Order, item: Item)
    requires TellsOf(event, order, item)
    ensures MessageTellsOf(ToJson(event), order, item)
  {
    JsonNames(event);
  }

  /** The event `checkout` publishes after its commit tells of its order too. */
  lemma DirectEventTellsOfItsOrder(db0: Db, bound: bool, run: seq<Action>, i: nat, now: string)
    requires Starts(db0, bound, run)
    requires i < |After(db0, bound, run).shop.db.orders| && i < |After(db0, bound, run).shop.db.items|
    ensures var db := After(db0, bound, run).shop.db;
      && TellsOf(D.DirectEvent(db, i, now), db.orders[i], db.items[i])
      && D.DirectEvent(db, i, now).occurredAt == now
      && MessageTellsOf(ToJson(D.DirectEvent(db, i, now)), db.orders[i], db.items[i])
  {
    Reached(db0, bound, run);
    var s := After(db0, bound, run).shop;
    assert RowsOf(db0, s.log[i], s.db.orders[i], s.db.items[i], s.db.tasks[i]);
    TellingMessage(D.DirectEvent(s.db, i, now), s.db.orders[i], s.db.items[i]);
  }
}
