/** Any number of `placeOrder` and `checkout` transactions interleaved statement by statement
    under READ COMMITTED, with Postgres row locks: a conditional UPDATE whose committed row
    fails the WHERE does not wait, one that waited re-checks the WHERE when it gets the row,
    and `ON CONFLICT DO NOTHING` waits for the other claimer. */
module Shop {
  import opened Wrappers
  import opened Decimal
  import opened Events
  import opened Checkout

  /** The statement a transaction runs next. */
  datatype Pc =
    | Claim           // INSERT INTO idempotency_keys ... ON CONFLICT DO NOTHING
    | Replay          // replayOf
    | Decrement       // UPDATE products ... WHERE stock >= $2
    | StockLookup     // SELECT stock, after zero updated rows
    | Debit           // UPDATE users ... WHERE balance_cents >= $2
    | BalanceLookup   // SELECT balance_cents, after zero updated rows
    | InsertOrder | InsertItem | InsertTask
    | Enqueue         // INSERT INTO outbox
    | AfterEnqueue    // the hook; it may throw
    | Bind            // UPDATE idempotency_keys SET order_id
    | Commit

  /** An open transaction and its uncommitted writes. */
  datatype Tx = Tx(key: Option<string>, input: Input, createdAt: nat, pc: Pc, waiting: bool,
                   stockLeft: int, unitPrice: int, currency: string, balanceLeft: int,
                   orderId: nat, taskId: nat, outboxId: nat, occurredAt: string)
  {
    function Quantity(): int { input.quantity.Floor }
    function Total(): int { unitPrice * Quantity() }
    function Gen(): Generated { Generated(orderId, taskId, outboxId, createdAt, occurredAt) }
    function AsEntry(): Entry { Entry(key, input, Gen()) }
  }

  /** How a request ended. `Lost` is a crash, a hook that threw or a dropped connection:
      anything that rolls the transaction back without a business reason. */
  datatype Outcome = Created(reply: Reply) | Replayed(reply: Reply) | Refused(failure: Failure) | Lost

  datatype Answer = Answer(key: Option<string>, input: Input, outcome: Outcome)

  /** `log` lists the committed transactions in commit order, `answers` how requests ended. */
  datatype State = State(db: Db, txs: map<nat, Tx>, nextOrder: nat, nextTask: nat, nextOutbox: nat,
                         log: seq<Entry>, answers: seq<Answer>)

  datatype Action =
    | Begin(t: nat, key: Option<string>, input: Input, now: nat)
    | Statement(t: nat, occurredAt: string)
    | Abort(t: nat)

  // ---------------------------------------------------------------- locks

  datatype Resource = KeyRow(key: string) | ProductRow(product: nat) | BuyerRow(buyer: nat)

  /** Progress through the statements that take locks. */
  function Stage(pc: Pc): nat {
    match pc
    case Claim | Replay => 0
    case Decrement | StockLookup => 1
    case Debit | BalanceLookup => 2
    case InsertOrder => 3
    case InsertItem => 4
    case InsertTask => 5
    case Enqueue => 6
    case AfterEnqueue => 7
    case Bind => 8
    case Commit => 9
  }

  /** Row locks are kept from the statement that wrote the row to the end of the transaction. */
  predicate Holds(tx: Tx, r: Resource) {
    match r
    case KeyRow(k) => tx.key == Some(k) && Stage(tx.pc) >= 1
    case ProductRow(p) => tx.input.productId == p && Stage(tx.pc) >= 2
    case BuyerRow(b) => tx.input.buyerId == b && Stage(tx.pc) >= 3
  }

  predicate HeldByOther(s: State, t: nat, r: Resource) {
    exists u :: u in s.txs && u != t && Holds(s.txs[u], r)
  }

  predicate StockSuffices(db: Db, input: Input) {
    input.productId in db.products && db.products[input.productId].stock >= input.quantity.Floor
  }

  predicate BalanceSuffices(db: Db, buyer: nat, total: int) {
    buyer in db.users && db.users[buyer] >= total
  }

  /** The row the next statement needs and may have to wait for. */
  function Wanted(s: State, t: nat): Option<Resource>
    requires t in s.txs
  {
    var tx := s.txs[t];
    match tx.pc
    case Claim =>
      if tx.key.Some? && tx.key.value !in s.db.keys then Some(KeyRow(tx.key.value)) else None
    case Decrement =>
      if WellFormedQuantity(tx.input) && (tx.waiting || StockSuffices(s.db, tx.input))
      then Some(ProductRow(tx.input.productId)) else None
    case Debit =>
      if tx.Total() <= INT_MAX && (tx.waiting || BalanceSuffices(s.db, tx.input.buyerId, tx.Total()))
      then Some(BuyerRow(tx.input.buyerId)) else None
    case _ => None
  }

  /** The next statement cannot finish now: another transaction holds the row it needs. */
  predicate Blocked(s: State, t: nat)
    requires t in s.txs
  {
    Wanted(s, t).Some? && HeldByOther(s, t, Wanted(s, t).value)
  }

  // ---------------------------------------------------------------- steps

  predicate Enabled(s: State, a: Action) {
    match a
    case Begin(t, _, _, _) => t !in s.txs
    case Statement(t, _) => t in s.txs && !(Blocked(s, t) && s.txs[t].waiting)
    case Abort(t) => t in s.txs
  }

  function NewTx(key: Option<string>, input: Input, now: nat): Tx {
    Tx(key, input, now, if key.Some? then Claim else Decrement, false, 0, 0, "", 0, 0, 0, 0, "")
  }

  /** The transaction is over: its locks are released and its request is answered. */
  function Finish(s: State, t: nat, outcome: Outcome): State
    requires t in s.txs
  {
    s.(txs := s.txs - {t}, answers := s.answers + [Answer(s.txs[t].key, s.txs[t].input, outcome)])
  }

  /** COMMIT makes the write set of the transaction visible. */
  function Publish(db: Db, tx: Tx): Db
    requires tx.input.productId in db.products
  {
    var orderId := Text(tx.orderId);
    db.(products := db.products[tx.input.productId := db.products[tx.input.productId].(stock := tx.stockLeft)],
        users := db.users[tx.input.buyerId := tx.balanceLeft],
        orders := db.orders + [Order(tx.orderId, tx.input.buyerId, tx.Total(), tx.currency)],
        items := db.items + [Item(tx.orderId, tx.input.productId, tx.Quantity(), tx.unitPrice)],
        tasks := db.tasks + [Task(tx.taskId, tx.orderId)],
        outbox := if tx.key.None? then db.outbox
                  else db.outbox + [OutboxRow(tx.outboxId, tx.createdAt, orderId,
                                              EventFor(tx.orderId, tx.Total(), tx.input, tx.occurredAt))],
        keys := if tx.key.None? then db.keys else db.keys[tx.key.value := Some(tx.orderId)])
  }

  function ReplyOf(tx: Tx): Reply {
    Reply(tx.orderId, Some(tx.taskId), tx.Total(), tx.stockLeft, tx.balanceLeft, false,
          if tx.key.None? then None else Some(tx.outboxId))
  }

  datatype Next = Continue(tx: Tx) | Stop(outcome: Outcome)

  /** What the next statement of `tx` does, the row it wants being free. */
  function NextOf(s: State, tx: Tx, occurredAt: string): Next {
    var db, go := s.db, tx.(waiting := false);
    match tx.pc
    case Claim =>
      Continue(go.(pc := if tx.key.Some? && tx.key.value in db.keys then Replay else Decrement))
    case Replay =>
      (match ReplayOf(db, if tx.key.Some? then tx.key.value else "")
       case Success(reply) => Stop(Replayed(reply))
       case Failure(f) => Stop(Refused(f)))
    case Decrement =>
      if !IsPositiveInteger(tx.input.quantity) then Stop(Refused(OutOfStock))
      else if !WellFormedQuantity(tx.input) then Stop(Refused(OutOfRange))
      else if !StockSuffices(db, tx.input) then Continue(go.(pc := StockLookup))
      else
        var product := db.products[tx.input.productId];
        Continue(go.(pc := Debit, stockLeft := product.stock - tx.Quantity(),
                     unitPrice := product.priceCents, currency := product.currency))
    case StockLookup =>
      Stop(Refused(if tx.input.productId in db.products then OutOfStock else NoSuchProduct))
    case Debit =>
      if tx.Total() > INT_MAX then Stop(Refused(OutOfRange))
      else if !BalanceSuffices(db, tx.input.buyerId, tx.Total()) then Continue(go.(pc := BalanceLookup))
      else Continue(go.(pc := InsertOrder, balanceLeft := db.users[tx.input.buyerId] - tx.Total()))
    case BalanceLookup =>
      Stop(Refused(if tx.input.buyerId in db.users then InsufficientFunds else NoSuchBuyer))
    case InsertOrder => Continue(go.(pc := InsertItem, orderId := s.nextOrder))
    case InsertItem => Continue(go.(pc := InsertTask))
    case InsertTask =>
      Continue(go.(pc := if tx.key.Some? then Enqueue else Commit, taskId := s.nextTask))
    case Enqueue =>
      Continue(go.(pc := AfterEnqueue, outboxId := s.nextOutbox, occurredAt := occurredAt))
    case AfterEnqueue => Continue(go.(pc := Bind))
    case Bind => Continue(go.(pc := Commit))
    case Commit => Stop(Created(ReplyOf(tx)))
  }

  function RunStatement(s: State, t: nat, occurredAt: string): State
    requires t in s.txs
  {
    var tx := s.txs[t];
    match NextOf(s, tx, occurredAt)
    case Continue(tx') =>
      // a sequence moves on at once, whether or not the transaction commits
      s.(txs := s.txs[t := tx'],
         nextOrder := s.nextOrder + if tx.pc == InsertOrder then 1 else 0,
         nextTask := s.nextTask + if tx.pc == InsertTask then 1 else 0,
         nextOutbox := s.nextOutbox + if tx.pc == Enqueue then 1 else 0)
    case Stop(outcome) =>
      var closed := Finish(s, t, outcome);
      if tx.pc == Commit && tx.input.productId in s.db.products
      then closed.(db := Publish(s.db, tx), log := s.log + [tx.AsEntry()])
      else closed
  }

  function Exec(s: State, a: Action): State
    requires Enabled(s, a)
  {
    match a
    case Begin(t, key, input, now) => s.(txs := s.txs[t := NewTx(key, input, now)])
    case Statement(t, occurredAt) =>
      if Blocked(s, t) then s.(txs := s.txs[t := s.txs[t].(waiting := true)])
      else RunStatement(s, t, occurredAt)
    case Abort(t) => Finish(s, t, Lost)
  }

  predicate ValidRun(s: State, run: seq<Action>)
    decreases |run|
  {
    run == [] || (Enabled(s, run[0]) && ValidRun(Exec(s, run[0]), run[1..]))
  }

  function Run(s: State, run: seq<Action>): State
    requires ValidRun(s, run)
    decreases |run|
  {
    if run == [] then s else Run(Exec(s, run[0]), run[1..])
  }

  function Initial(db0: Db): State {
    State(db0, map[], 0, 0, 0, [], [])
  }

  // ---------------------------------------------------------------- the invariant

  /** What a transaction knows about the committed tables while it holds its locks. */
  predicate Consistent(db: Db, tx: Tx) {
    && (tx.key.None? ==> tx.pc !in {Claim, Replay, Enqueue, AfterEnqueue, Bind})
    && (tx.key.Some? && Stage(tx.pc) >= 1 ==> tx.key.value !in db.keys)
    && (tx.pc == Replay ==> tx.key.value in db.keys)
    && (tx.pc == StockLookup ==> WellFormedQuantity(tx.input) && !StockSuffices(db, tx.input))
    && (Stage(tx.pc) >= 2 ==>
          && WellFormedQuantity(tx.input) && StockSuffices(db, tx.input)
          && var product := db.products[tx.input.productId];
             && tx.unitPrice == product.priceCents
             && tx.currency == product.currency
             && tx.stockLeft == product.stock - tx.Quantity())
    && (tx.pc == BalanceLookup ==> tx.Total() <= INT_MAX && !BalanceSuffices(db, tx.input.buyerId, tx.Total()))
    && (Stage(tx.pc) >= 3 ==>
          && tx.Total() <= INT_MAX
          && BalanceSuffices(db, tx.input.buyerId, tx.Total())
          && tx.balanceLeft == db.users[tx.input.buyerId] - tx.Total())
  }

  /** No row is locked by two transactions. */
  predicate LocksExclusive(txs: map<nat, Tx>) {
    forall t, u :: t in txs && u in txs && t != u ==> Compatible(txs[t], txs[u])
  }

  predicate Compatible(a: Tx, b: Tx) {
    && (a.key.Some? && Stage(a.pc) >= 1 ==> !Holds(b, KeyRow(a.key.value)))
    && (Stage(a.pc) >= 2 ==> !Holds(b, ProductRow(a.input.productId)))
    && (Stage(a.pc) >= 3 ==> !Holds(b, BuyerRow(a.input.buyerId)))
  }

  /** Identity values are below their sequence and owned by one transaction. */
  predicate IdsFresh(s: State) {
    && FreshIds(s.log)
    && (forall i :: 0 <= i < |s.log| ==>
          && s.log[i].gen.orderId < s.nextOrder
          && s.log[i].gen.taskId < s.nextTask
          && (s.log[i].key.Some? ==> s.log[i].gen.outboxId < s.nextOutbox))
    && (forall t :: t in s.txs ==> IdsBelow(s, s.txs[t]))
    && (forall t, i :: t in s.txs && 0 <= i < |s.log| ==> IdsApart(s.txs[t], s.log[i].gen, s.log[i].key))
    && (forall t, u :: t in s.txs && u in s.txs && t != u ==> IdsDistinct(s.txs[t], s.txs[u]))
  }

  predicate IdsBelow(s: State, tx: Tx) {
    && (Stage(tx.pc) >= 4 ==> tx.orderId < s.nextOrder)
    && (Stage(tx.pc) >= 6 ==> tx.taskId < s.nextTask)
    && (Stage(tx.pc) >= 7 && tx.key.Some? ==> tx.outboxId < s.nextOutbox)
  }

  predicate IdsApart(tx: Tx, gen: Generated, key: Option<string>) {
    && (Stage(tx.pc) >= 4 ==> tx.orderId != gen.orderId)
    && (Stage(tx.pc) >= 6 ==> tx.taskId != gen.taskId)
    && (Stage(tx.pc) >= 7 && tx.key.Some? && key.Some? ==> tx.outboxId != gen.outboxId)
  }

  predicate IdsDistinct(a: Tx, b: Tx) {
    && (Stage(a.pc) >= 4 && Stage(b.pc) >= 4 ==> a.orderId != b.orderId)
    && (Stage(a.pc) >= 6 && Stage(b.pc) >= 6 ==> a.taskId != b.taskId)
    && (Stage(a.pc) >= 7 && Stage(b.pc) >= 7 && a.key.Some? && b.key.Some? ==> a.outboxId != b.outboxId)
  }

  /** A refusal states a fact about the committed tables, and it is still true. */
  predicate Justified(db: Db, input: Input, f: Failure) {
    match f
    case OutOfStock =>
      !IsPositiveInteger(input.quantity) ||
      (input.productId in db.products && db.products[input.productId].stock < input.quantity.Floor)
    case NoSuchProduct => WellFormedQuantity(input) && input.productId !in db.products
    case InsufficientFunds =>
      && input.productId in db.products && input.buyerId in db.users
      && db.users[input.buyerId] < db.products[input.productId].priceCents * input.quantity.Floor
    case NoSuchBuyer => input.productId in db.products && input.buyerId !in db.users
    case OutOfRange =>
      input.quantity.Floor > INT_MAX ||
      (input.productId in db.products &&
       db.products[input.productId].priceCents * input.quantity.Floor > INT_MAX)
    case KeyWithoutOrder => false
  }

  /** The creations answered so far, in commit order. */
  function Creations(answers: seq<Answer>): seq<Answer> {
    if answers == [] then []
    else
      var last := answers[|answers| - 1];
      Creations(answers[..|answers| - 1]) + if last.outcome.Created? then [last] else []
  }

  /** A reply names the order, total, task and outbox row of transaction `e`. */
  predicate Names(db0: Db, e: Entry, reply: Reply) {
    && Servable(db0, e)
    && reply.orderId == e.gen.orderId
    && reply.totalCents == TotalOf(db0, e)
    && reply.taskId == Some(e.gen.taskId)
    && reply.outboxId == if e.key.Some? then Some(e.gen.outboxId) else None
  }

  ghost predicate AnswerSound(db0: Db, log: seq<Entry>, db: Db, a: Answer) {
    match a.outcome
    case Created(reply) => true
    case Replayed(reply) => a.key.Some? && exists i :: KeyAt(log, i, a.key.value) && Names(db0, log[i], reply)
    case Refused(f) => Justified(db, a.input, f)
    case Lost => true
  }

  ghost predicate AnswersSound(db0: Db, s: State) {
    && (forall n :: 0 <= n < |s.answers| ==> AnswerSound(db0, s.log, s.db, s.answers[n]))
    && |Creations(s.answers)| == |s.log|
    && (forall i :: 0 <= i < |s.log| ==>
          var a := Creations(s.answers)[i];
          && a.key == s.log[i].key && a.input == s.log[i].input
          && a.outcome.Created? && Names(db0, s.log[i], a.outcome.reply))
  }

  ghost predicate Inv(db0: Db, s: State) {
    && Start(db0)
    && AllSucceed(db0, s.log)
    && s.db == Serial(db0, s.log)
    && Ledger(db0, s.log, s.db)
    && (forall t :: t in s.txs ==> Consistent(s.db, s.txs[t]))
    && LocksExclusive(s.txs)
    && IdsFresh(s)
    && AnswersSound(db0, s)
  }

  // ---------------------------------------------------------------- preservation

  /** What one step may do to the transactions without touching the tables. */
  ghost predicate Quiet(s: State, s': State) {
    s'.db == s.db && s'.log == s.log
  }

  lemma InitialInv(db0: Db)
    requires Start(db0)
    ensures Inv(db0, Initial(db0))
  {
    StartLedger(db0);
  }

  /** The transaction at `Commit` writes exactly what it would have written alone, now. */
  lemma CommitIsSerial(db: Db, tx: Tx)
    requires tx.pc == Commit && Consistent(db, tx)
    ensures Transact(db, tx.AsEntry()).Success?
    ensures Publish(db, tx) == Transact(db, tx.AsEntry()).value.0
    ensures tx.key.Some? ==> tx.key.value !in db.keys
  {
  }

  // -- locks

  /** A statement locks at most the row it wanted, and keeps the request. */
  lemma StatementLocks(s: State, t: nat, occurredAt: string)
    requires t in s.txs && NextOf(s, s.txs[t], occurredAt).Continue?
    ensures var tx, tx' := s.txs[t], NextOf(s, s.txs[t], occurredAt).tx;
      && tx'.key == tx.key && tx'.input == tx.input
      && (forall r :: Holds(tx', r) ==> Holds(tx, r) || Wanted(s, t) == Some(r))
  {
  }

  lemma StatementKeepsLocks(s: State, t: nat, occurredAt: string)
    requires t in s.txs && !Blocked(s, t) && LocksExclusive(s.txs)
    ensures LocksExclusive(RunStatement(s, t, occurredAt).txs)
  {
    var next := NextOf(s, s.txs[t], occurredAt);
    if next.Continue? {
      StatementLocks(s, t, occurredAt);
      forall u | u in s.txs && u != t
        ensures Compatible(next.tx, s.txs[u]) && Compatible(s.txs[u], next.tx)
      {
        LocksStayApart(s, t, next.tx, u);
      }
    }
  }

  lemma LocksStayApart(s: State, t: nat, tx': Tx, u: nat)
    requires t in s.txs && u in s.txs && t != u && !Blocked(s, t) && LocksExclusive(s.txs)
    requires forall r :: Holds(tx', r) ==> Holds(s.txs[t], r) || Wanted(s, t) == Some(r)
    ensures Compatible(tx', s.txs[u]) && Compatible(s.txs[u], tx')
  {
    var other := s.txs[u];
    assert Compatible(s.txs[t], other) && Compatible(other, s.txs[t]);
    forall r | Holds(tx', r)
      ensures !Holds(other, r)
    {
    }
    ApartIsCompatible(tx', other);
  }

  lemma ApartIsCompatible(a: Tx, b: Tx)
    requires forall r :: Holds(a, r) ==> !Holds(b, r)
    ensures Compatible(a, b) && Compatible(b, a)
  {
    if a.key.Some? { assert Holds(a, KeyRow(a.key.value)) ==> !Holds(b, KeyRow(a.key.value)); }
    if b.key.Some? { assert Holds(a, KeyRow(b.key.value)) ==> !Holds(b, KeyRow(b.key.value)); }
    assert Holds(a, ProductRow(a.input.productId)) ==> !Holds(b, ProductRow(a.input.productId));
    assert Holds(a, BuyerRow(a.input.buyerId)) ==> !Holds(b, BuyerRow(a.input.buyerId));
    assert Holds(a, ProductRow(b.input.productId)) ==> !Holds(b, ProductRow(b.input.productId));
    assert Holds(a, BuyerRow(b.input.buyerId)) ==> !Holds(b, BuyerRow(b.input.buyerId));
  }

  // -- what transactions know

  lemma StatementKeepsConsistent(s: State, t: nat, occurredAt: string)
    requires t in s.txs && !Blocked(s, t) && Consistent(s.db, s.txs[t])
    requires NextOf(s, s.txs[t], occurredAt).Continue?
    ensures Consistent(s.db, NextOf(s, s.txs[t], occurredAt).tx)
  {
  }

  /** A commit changes nothing another transaction relies on. */
  lemma CommitKeepsConsistent(db: Db, tx: Tx, other: Tx)
    requires tx.pc == Commit && Consistent(db, tx) && Consistent(db, other) && Compatible(tx, other)
    requires tx.unitPrice > 0
    ensures Consistent(Publish(db, tx), other)
  {
    TotalIsNatural(tx.unitPrice, tx.Quantity());
    assert !Holds(other, ProductRow(tx.input.productId));
    assert !Holds(other, BuyerRow(tx.input.buyerId));
  }

  // -- identity values

  /** A transaction keeps the identity values it has and takes new ones off the sequences. */
  predicate TakesIds(s: State, s': State, tx: Tx, tx': Tx) {
    && tx'.key == tx.key
    && s.nextOrder <= s'.nextOrder && s.nextTask <= s'.nextTask && s.nextOutbox <= s'.nextOutbox
    && (Stage(tx'.pc) >= 4 ==>
          (Stage(tx.pc) >= 4 && tx'.orderId == tx.orderId) || s.nextOrder == tx'.orderId < s'.nextOrder)
    && (Stage(tx'.pc) >= 6 ==>
          (Stage(tx.pc) >= 6 && tx'.taskId == tx.taskId) || s.nextTask == tx'.taskId < s'.nextTask)
    && (Stage(tx'.pc) >= 7 && tx.key.Some? ==>
          (Stage(tx.pc) >= 7 && tx'.outboxId == tx.outboxId) || s.nextOutbox == tx'.outboxId < s'.nextOutbox)
  }

  lemma StatementTakesIds(s: State, t: nat, occurredAt: string)
    requires t in s.txs && NextOf(s, s.txs[t], occurredAt).Continue?
    ensures var s' := RunStatement(s, t, occurredAt);
      && s'.log == s.log && s'.txs == s.txs[t := s'.txs[t]]
      && TakesIds(s, s', s.txs[t], s'.txs[t])
  {
  }

  lemma TakingKeepsIds(s: State, s': State, t: nat)
    requires t in s.txs && t in s'.txs && IdsFresh(s)
    requires s'.log == s.log && s'.txs == s.txs[t := s'.txs[t]] && TakesIds(s, s', s.txs[t], s'.txs[t])
    ensures IdsFresh(s')
  {
    var tx, tx' := s.txs[t], s'.txs[t];
    assert IdsBelow(s, tx);
    forall u | u in s'.txs
      ensures IdsBelow(s', s'.txs[u])
    {
      assert u in s.txs && IdsBelow(s, s.txs[u]);
    }
    forall u, i | u in s'.txs && 0 <= i < |s.log|
      ensures IdsApart(s'.txs[u], s.log[i].gen, s.log[i].key)
    {
      assert u in s.txs && IdsApart(s.txs[u], s.log[i].gen, s.log[i].key);
    }
    forall u | u in s.txs && u != t
      ensures IdsDistinct(tx', s.txs[u]) && IdsDistinct(s.txs[u], tx')
    {
      assert IdsBelow(s, s.txs[u]) && IdsDistinct(tx, s.txs[u]);
    }
    forall u, v | u in s'.txs && v in s'.txs && u != v
      ensures IdsDistinct(s'.txs[u], s'.txs[v])
    {
      if u != t && v != t { assert IdsDistinct(s.txs[u], s.txs[v]); }
    }
  }

  lemma StatementKeepsIds(s: State, t: nat, occurredAt: string)
    requires t in s.txs && IdsFresh(s) && NextOf(s, s.txs[t], occurredAt).Continue?
    ensures IdsFresh(RunStatement(s, t, occurredAt))
  {
    StatementTakesIds(s, t, occurredAt);
    TakingKeepsIds(s, RunStatement(s, t, occurredAt), t);
  }

  lemma CommitKeepsIds(s: State, t: nat, s': State)
    requires t in s.txs && s.txs[t].pc == Commit && IdsFresh(s)
    requires s'.txs == s.txs - {t} && s'.log == s.log + [s.txs[t].AsEntry()]
    requires s'.nextOrder == s.nextOrder && s'.nextTask == s.nextTask && s'.nextOutbox == s.nextOutbox
    ensures IdsFresh(s')
  {
    var tx := s.txs[t];
    assert IdsBelow(s, tx);
    forall u | u in s'.txs ensures IdsBelow(s', s'.txs[u]) {
      assert IdsBelow(s, s.txs[u]);
    }
    forall i | 0 <= i < |s.log|
      ensures IdsApart(tx, s.log[i].gen, s.log[i].key)
    {
    }
    forall u, i | u in s'.txs && 0 <= i < |s'.log|
      ensures IdsApart(s'.txs[u], s'.log[i].gen, s'.log[i].key)
    {
      assert IdsDistinct(s.txs[u], tx);
      if i < |s.log| { assert IdsApart(s.txs[u], s.log[i].gen, s.log[i].key); }
    }
    forall u, v | u in s'.txs && v in s'.txs && u != v
      ensures IdsDistinct(s'.txs[u], s'.txs[v])
    {
      assert IdsDistinct(s.txs[u], s.txs[v]);
    }
  }

  lemma FewerKeepsIds(s: State, s': State)
    requires IdsFresh(s) && s'.log == s.log
    requires s'.nextOrder == s.nextOrder && s'.nextTask == s.nextTask && s'.nextOutbox == s.nextOutbox
    requires forall u :: u in s'.txs ==> Stage(s'.txs[u].pc) <= 1 || (u in s.txs && s.txs[u] == s'.txs[u])
    ensures IdsFresh(s')
  {
    forall u | u in s'.txs ensures IdsBelow(s', s'.txs[u]) {
      assert Stage(s'.txs[u].pc) > 1 ==> IdsBelow(s, s.txs[u]);
    }
    forall u, i | u in s'.txs && 0 <= i < |s'.log|
      ensures IdsApart(s'.txs[u], s'.log[i].gen, s'.log[i].key)
    {
      assert Stage(s'.txs[u].pc) > 1 ==> IdsApart(s.txs[u], s.log[i].gen, s.log[i].key);
    }
    forall u, v | u in s'.txs && v in s'.txs && u != v
      ensures IdsDistinct(s'.txs[u], s'.txs[v])
    {
      assert Stage(s'.txs[u].pc) > 1 && Stage(s'.txs[v].pc) > 1 ==> IdsDistinct(s.txs[u], s.txs[v]);
    }
  }

  // -- answers

  /** Why a statement that ends the request without an order is right to do so. */
  lemma RefusalIsJustified(db0: Db, s: State, t: nat, occurredAt: string)
    requires t in s.txs && !Blocked(s, t) && Inv(db0, s) && s.txs[t].pc != Commit
    requires NextOf(s, s.txs[t], occurredAt).Stop?
    ensures var tx := s.txs[t];
      AnswerSound(db0, s.log, s.db, Answer(tx.key, tx.input, NextOf(s, tx, occurredAt).outcome))
    ensures !NextOf(s, s.txs[t], occurredAt).outcome.Created?
  {
    var tx := s.txs[t];
    assert Consistent(s.db, tx);
    if tx.pc == Replay { ReplayIsSound(db0, s.log, s.db, tx.key.value); }
  }

  /** A key in the table has its order, and the replay names it. */
  lemma ReplayIsSound(db0: Db, log: seq<Entry>, db: Db, key: string)
    requires Ledger(db0, log, db) && FreshIds(log) && key in db.keys
    ensures ReplayOf(db, key).Success?
    ensures exists i :: KeyAt(log, i, key) && Names(db0, log[i], ReplayOf(db, key).value)
  {
    var i :| KeyAt(log, i, key);
    ReplayGivesTheOriginal(db0, log, db, i);
    assert Names(db0, log[i], ReplayOf(db, key).value);
  }

  lemma AnswerStaysSound(db0: Db, log: seq<Entry>, db: Db, e: Entry, db': Db, a: Answer)
    requires AnswerSound(db0, log, db, a)
    requires Start(db0) && StockKept(db0, db)
    requires Transact(db, e).Success? && db' == Transact(db, e).value.0
    ensures AnswerSound(db0, log + [e], db', a)
  {
    assert ProductConserved(db0, db, e.input.productId);
    TotalIsNatural(db.products[e.input.productId].priceCents, e.input.quantity.Floor);
    if a.outcome.Replayed? {
      var i :| KeyAt(log, i, a.key.value) && Names(db0, log[i], a.outcome.reply);
      assert KeyAt(log + [e], i, a.key.value);
      assert (log + [e])[i] == log[i];
    }
  }

  lemma PushAnswer(db0: Db, s: State, s': State, a: Answer)
    requires AnswersSound(db0, s) && s'.db == s.db && s'.log == s.log && s'.answers == s.answers + [a]
    requires !a.outcome.Created? && AnswerSound(db0, s.log, s.db, a)
    ensures AnswersSound(db0, s')
  {
    PrefixOfPush(s.answers, a);
  }

  /** A commit answers its own request; what was answered before stays true. */
  lemma PushCreated(db0: Db, s: State, s': State, e: Entry, a: Answer)
    requires AnswersSound(db0, s) && Start(db0) && StockKept(db0, s.db)
    requires Transact(s.db, e).Success? && s'.db == Transact(s.db, e).value.0
    requires s'.log == s.log + [e] && s'.answers == s.answers + [a]
    requires a.key == e.key && a.input == e.input && a.outcome.Created? && Names(db0, e, a.outcome.reply)
    ensures AnswersSound(db0, s')
  {
    PrefixOfPush(s.answers, a);
    forall n | 0 <= n < |s'.answers|
      ensures AnswerSound(db0, s'.log, s'.db, s'.answers[n])
    {
      if n < |s.answers| {
        AnswerStaysSound(db0, s.log, s.db, e, s'.db, s.answers[n]);
      }
    }
  }

  lemma CommitKeepsAnswers(db0: Db, s: State, t: nat, occurredAt: string)
    requires Inv(db0, s) && t in s.txs && s.txs[t].pc == Commit
    ensures AnswersSound(db0, RunStatement(s, t, occurredAt))
  {
    var s', tx := RunStatement(s, t, occurredAt), s.txs[t];
    assert Consistent(s.db, tx);
    CommitIsSerial(s.db, tx);
    assert ProductConserved(db0, s.db, tx.input.productId);
    assert Names(db0, tx.AsEntry(), ReplyOf(tx));
    PushCreated(db0, s, s', tx.AsEntry(), Answer(tx.key, tx.input, Created(ReplyOf(tx))));
  }

  // -- one step

  lemma {:induction false} LogGrows(db0: Db, log: seq<Entry>, e: Entry)
    requires AllSucceed(db0, log)
    requires Transact(Serial(db0, log), e).Success?
    requires e.key.Some? ==> e.key.value !in Serial(db0, log).keys
    ensures AllSucceed(db0, log + [e])
    ensures Serial(db0, log + [e]) == Transact(Serial(db0, log), e).value.0
  {
    PrefixOfPush(log, e);
  }

  /** The tables and the log grow together. */
  lemma {:induction false} CommitKeepsBooks(db0: Db, s: State, tx: Tx, db': Db)
    requires Start(db0) && AllSucceed(db0, s.log) && s.db == Serial(db0, s.log) && Ledger(db0, s.log, s.db)
    requires tx.pc == Commit && Consistent(s.db, tx) && db' == Publish(s.db, tx)
    ensures var log' := s.log + [tx.AsEntry()];
      AllSucceed(db0, log') && db' == Serial(db0, log') && Ledger(db0, log', db')
  {
    CommitIsSerial(s.db, tx);
    LogGrows(db0, s.log, tx.AsEntry());
    LedgerExtends(db0, s.log, s.db, tx.AsEntry(), s.log + [tx.AsEntry()], db');
  }

  lemma CommitKeepsOthers(s: State, t: nat, db': Db)
    requires t in s.txs && s.txs[t].pc == Commit && LocksExclusive(s.txs)
    requires forall u :: u in s.txs ==> Consistent(s.db, s.txs[u])
    requires s.txs[t].input.productId in s.db.products && s.txs[t].unitPrice > 0
    requires db' == Publish(s.db, s.txs[t])
    ensures forall u :: u in s.txs && u != t ==> Consistent(db', s.txs[u])
  {
    forall u | u in s.txs && u != t ensures Consistent(db', s.txs[u]) {
      assert Compatible(s.txs[t], s.txs[u]);
      CommitKeepsConsistent(s.db, s.txs[t], s.txs[u]);
    }
  }

  lemma CommitKeepsInv(db0: Db, s: State, t: nat, occurredAt: string)
    requires Inv(db0, s) && t in s.txs && s.txs[t].pc == Commit
    ensures Inv(db0, RunStatement(s, t, occurredAt))
  {
    var s', tx := RunStatement(s, t, occurredAt), s.txs[t];
    assert Consistent(s.db, tx);
    assert s'.db == Publish(s.db, tx) && s'.log == s.log + [tx.AsEntry()] && s'.txs == s.txs - {t};
    assert ProductConserved(db0, s.db, tx.input.productId);
    CommitKeepsBooks(db0, s, tx, s'.db);
    CommitKeepsIds(s, t, s');
    CommitKeepsAnswers(db0, s, t, occurredAt);
    CommitKeepsOthers(s, t, s'.db);
    FewerKeepLocks(s.txs, t);
  }

  lemma FewerKeepLocks(txs: map<nat, Tx>, t: nat)
    requires LocksExclusive(txs)
    ensures LocksExclusive(txs - {t})
  {
  }

  /** A step that leaves tables and log alone. */
  lemma Reassemble(db0: Db, s: State, s': State)
    requires Inv(db0, s) && Quiet(s, s')
    requires forall u :: u in s'.txs ==> Consistent(s'.db, s'.txs[u])
    requires LocksExclusive(s'.txs) && IdsFresh(s') && AnswersSound(db0, s')
    ensures Inv(db0, s')
  {
  }

  lemma SameAnswers(db0: Db, s: State, s': State)
    requires AnswersSound(db0, s) && Quiet(s, s') && s'.answers == s.answers
    ensures AnswersSound(db0, s')
  {
  }

  lemma StatementGoesOn(db0: Db, s: State, t: nat, occurredAt: string)
    requires Inv(db0, s) && t in s.txs && !Blocked(s, t)
    requires NextOf(s, s.txs[t], occurredAt).Continue?
    ensures Inv(db0, RunStatement(s, t, occurredAt))
  {
    var s' := RunStatement(s, t, occurredAt);
    StatementKeepsLocks(s, t, occurredAt);
    StatementKeepsConsistent(s, t, occurredAt);
    StatementKeepsIds(s, t, occurredAt);
    SameAnswers(db0, s, s');
    Reassemble(db0, s, s');
  }

  lemma StatementRefuses(db0: Db, s: State, t: nat, occurredAt: string)
    requires Inv(db0, s) && t in s.txs && !Blocked(s, t) && s.txs[t].pc != Commit
    requires NextOf(s, s.txs[t], occurredAt).Stop?
    ensures Inv(db0, RunStatement(s, t, occurredAt))
  {
    var s', tx := RunStatement(s, t, occurredAt), s.txs[t];
    RefusalIsJustified(db0, s, t, occurredAt);
    PushAnswer(db0, s, s', Answer(tx.key, tx.input, NextOf(s, tx, occurredAt).outcome));
    FewerKeepsIds(s, s');
    FewerKeepLocks(s.txs, t);
    Reassemble(db0, s, s');
  }

  lemma StatementKeepsInv(db0: Db, s: State, t: nat, occurredAt: string)
    requires Inv(db0, s) && t in s.txs && !Blocked(s, t)
    ensures Inv(db0, RunStatement(s, t, occurredAt))
  {
    if s.txs[t].pc == Commit {
      CommitKeepsInv(db0, s, t, occurredAt);
    } else if NextOf(s, s.txs[t], occurredAt).Continue? {
      StatementGoesOn(db0, s, t, occurredAt);
    } else {
      StatementRefuses(db0, s, t, occurredAt);
    }
  }

  lemma WaitKeepsIds(s: State, t: nat)
    requires IdsFresh(s) && t in s.txs
    ensures IdsFresh(s.(txs := s.txs[t := s.txs[t].(waiting := true)]))
  {
    var s' := s.(txs := s.txs[t := s.txs[t].(waiting := true)]);
    forall u | u in s'.txs ensures IdsBelow(s', s'.txs[u]) {
      assert IdsBelow(s, s.txs[u]);
    }
    forall u, i | u in s'.txs && 0 <= i < |s'.log|
      ensures IdsApart(s'.txs[u], s'.log[i].gen, s'.log[i].key)
    {
      assert IdsApart(s.txs[u], s.log[i].gen, s.log[i].key);
    }
    forall u, v | u in s'.txs && v in s'.txs && u != v
      ensures IdsDistinct(s'.txs[u], s'.txs[v])
    {
      assert IdsDistinct(s.txs[u], s.txs[v]);
    }
  }

  lemma WaitKeepsLocks(s: State, t: nat)
    requires LocksExclusive(s.txs) && t in s.txs
    ensures LocksExclusive(s.txs[t := s.txs[t].(waiting := true)])
  {
    var txs' := s.txs[t := s.txs[t].(waiting := true)];
    forall u, v | u in txs' && v in txs' && u != v
      ensures Compatible(txs'[u], txs'[v])
    {
      assert Compatible(s.txs[u], s.txs[v]);
    }
  }

  lemma WaitKeepsInv(db0: Db, s: State, t: nat)
    requires Inv(db0, s) && t in s.txs
    ensures Inv(db0, s.(txs := s.txs[t := s.txs[t].(waiting := true)]))
  {
    var s' := s.(txs := s.txs[t := s.txs[t].(waiting := true)]);
    WaitKeepsIds(s, t);
    WaitKeepsLocks(s, t);
    forall u | u in s'.txs ensures Consistent(s'.db, s'.txs[u]) {
      assert Consistent(s.db, s.txs[u]);
    }
    SameAnswers(db0, s, s');
    Reassemble(db0, s, s');
  }

  lemma BeginKeepsLocks(s: State, t: nat, tx: Tx)
    requires LocksExclusive(s.txs) && t !in s.txs && Stage(tx.pc) <= 1 && (tx.key.Some? ==> Stage(tx.pc) == 0)
    ensures LocksExclusive(s.txs[t := tx])
  {
    var txs' := s.txs[t := tx];
    forall u, v | u in txs' && v in txs' && u != v
      ensures Compatible(txs'[u], txs'[v])
    {
      if u != t && v != t { assert Compatible(s.txs[u], s.txs[v]); }
    }
  }

  lemma BeginKeepsInv(db0: Db, s: State, t: nat, tx: Tx)
    requires Inv(db0, s) && t !in s.txs
    requires tx.pc == if tx.key.Some? then Claim else Decrement
    ensures Inv(db0, s.(txs := s.txs[t := tx]))
  {
    var s' := s.(txs := s.txs[t := tx]);
    BeginKeepsLocks(s, t, tx);
    forall u | u in s'.txs ensures Consistent(s'.db, s'.txs[u]) {
      if u != t { assert Consistent(s.db, s.txs[u]); }
    }
    FewerKeepsIds(s, s');
    SameAnswers(db0, s, s');
    Reassemble(db0, s, s');
  }

  lemma AbortKeepsInv(db0: Db, s: State, t: nat)
    requires Inv(db0, s) && t in s.txs
    ensures Inv(db0, Finish(s, t, Lost))
  {
    var s' := Finish(s, t, Lost);
    PushAnswer(db0, s, s', Answer(s.txs[t].key, s.txs[t].input, Lost));
    FewerKeepsIds(s, s');
    FewerKeepLocks(s.txs, t);
    Reassemble(db0, s, s');
  }

  /** Every step keeps the invariant. */
  lemma StepKeepsInv(db0: Db, s: State, a: Action)
    requires Inv(db0, s) && Enabled(s, a)
    ensures Inv(db0, Exec(s, a))
  {
    match a {
      case Begin(t, key, input, now) =>
        BeginKeepsInv(db0, s, t, NewTx(key, input, now));
      case Statement(t, occurredAt) =>
        if Blocked(s, t) { WaitKeepsInv(db0, s, t); } else { StatementKeepsInv(db0, s, t, occurredAt); }
      case Abort(t) =>
        AbortKeepsInv(db0, s, t);
    }
  }

  lemma {:induction false} RunKeepsInv(db0: Db, s: State, run: seq<Action>)
    requires Inv(db0, s) && ValidRun(s, run)
    ensures Inv(db0, Run(s, run))
    decreases |run|
  {
    if run != [] {
      StepKeepsInv(db0, s, run[0]);
      RunKeepsInv(db0, Exec(s, run[0]), run[1..]);
    }
  }
}
