/** What holds after every run of the interleaved transactions of module Shop. */
module ShopTheorems {
  import opened Wrappers
  import opened Checkout
  import opened Shop

  /** The state any schedule of the shop reaches. */
  function After(db0: Db, run: seq<Action>): State
    requires ValidRun(Initial(db0), run)
  {
    Run(Initial(db0), run)
  }

  lemma {:induction false} Reached(db0: Db, run: seq<Action>)
    requires Start(db0) && ValidRun(Initial(db0), run)
    ensures Inv(db0, After(db0, run))
  {
    InitialInv(db0);
    RunKeepsInv(db0, Initial(db0), run);
  }

  // ---------------------------------------------------------------- serializability

  /** `a` is the answer transaction i of `log` gets when the log is run one at a time. */
  ghost predicate AnsweredAlone(db0: Db, log: seq<Entry>, i: nat, a: Answer)
    requires i < |log|
  {
    var alone := Transact(Serial(db0, log[..i]), log[i]);
    && alone.Success? && a.key == log[i].key && a.input == log[i].input
    && a.outcome == Created(CreatedReply(alone.value.1, if a.key.Some? then Some(log[i].gen.outboxId) else None))
  }

  ghost predicate AllAnsweredAlone(db0: Db, s: State) {
    && |Creations(s.answers)| == |s.log|
    && forall i :: 0 <= i < |s.log| ==> AnsweredAlone(db0, s.log, i, Creations(s.answers)[i])
  }

  lemma CommitReply(db: Db, tx: Tx)
    requires tx.pc == Commit && Consistent(db, tx) && Transact(db, tx.AsEntry()).Success?
    ensures ReplyOf(tx) == CreatedReply(Transact(db, tx.AsEntry()).value.1,
                                        if tx.key.Some? then Some(tx.outboxId) else None)
  {
  }

  lemma AnsweredInLonger(db0: Db, log: seq<Entry>, e: Entry, i: nat, a: Answer)
    requires i < |log| && AnsweredAlone(db0, log, i, a)
    ensures AnsweredAlone(db0, log + [e], i, a)
  {
    PrefixOfPush(log, e);
    assert (log + [e])[i] == log[i];
  }

  lemma PushReply(db0: Db, s: State, s': State, e: Entry, a: Answer)
    requires AllAnsweredAlone(db0, s) && s'.log == s.log + [e] && s'.answers == s.answers + [a]
    requires a.outcome.Created? && AnsweredAlone(db0, s.log + [e], |s.log|, a)
    ensures AllAnsweredAlone(db0, s')
  {
    PrefixOfPush(s.answers, a);
    assert Creations(s'.answers) == Creations(s.answers) + [a];
    forall i | 0 <= i < |s'.log| ensures AnsweredAlone(db0, s'.log, i, Creations(s'.answers)[i]) {
      if i < |s.log| { AnsweredInLonger(db0, s.log, e, i, Creations(s.answers)[i]); }
    }
  }

  lemma {:induction false} CommitAnswersAlone(db0: Db, log: seq<Entry>, db: Db, tx: Tx)
    requires db == Serial(db0, log) && tx.pc == Commit && Consistent(db, tx)
    ensures AnsweredAlone(db0, log + [tx.AsEntry()], |log|, Answer(tx.key, tx.input, Created(ReplyOf(tx))))
  {
    CommitIsSerial(db, tx);
    CommitReply(db, tx);
    PrefixOfPush(log, tx.AsEntry());
  }

  /** What a commit adds to the log and to the answers. */
  lemma CommitPushes(s: State, t: nat, occurredAt: string)
    requires t in s.txs && s.txs[t].pc == Commit && s.txs[t].input.productId in s.db.products
    ensures var s', tx := RunStatement(s, t, occurredAt), s.txs[t];
      && s'.log == s.log + [tx.AsEntry()]
      && s'.answers == s.answers + [Answer(tx.key, tx.input, Created(ReplyOf(tx)))]
  {
  }

  lemma CommitKeepsReplies(db0: Db, s: State, t: nat, occurredAt: string)
    requires Inv(db0, s) && AllAnsweredAlone(db0, s) && t in s.txs && s.txs[t].pc == Commit
    ensures AllAnsweredAlone(db0, RunStatement(s, t, occurredAt))
  {
    var tx := s.txs[t];
    assert Consistent(s.db, tx);
    CommitAnswersAlone(db0, s.log, s.db, tx);
    CommitPushes(s, t, occurredAt);
    PushReply(db0, s, RunStatement(s, t, occurredAt), tx.AsEntry(), Answer(tx.key, tx.input, Created(ReplyOf(tx))));
  }

  /** Only a commit adds to the log or to the creations. */
  lemma OthersCreateNothing(s: State, a: Action)
    requires Enabled(s, a) && (a.Statement? && !Blocked(s, a.t) ==> s.txs[a.t].pc != Commit)
    ensures Exec(s, a).log == s.log && Creations(Exec(s, a).answers) == Creations(s.answers)
  {
    var answers' := Exec(s, a).answers;
    if answers' != s.answers {
      var last := answers'[|s.answers|];
      PrefixOfPush(s.answers, last);
      assert answers' == s.answers + [last] && !last.outcome.Created?;
    }
  }

  lemma OthersKeepReplies(db0: Db, s: State, a: Action)
    requires AllAnsweredAlone(db0, s) && Enabled(s, a)
    requires a.Statement? && !Blocked(s, a.t) ==> s.txs[a.t].pc != Commit
    ensures AllAnsweredAlone(db0, Exec(s, a))
  {
    OthersCreateNothing(s, a);
  }

  lemma {:induction false} RunKeepsReplies(db0: Db, s: State, run: seq<Action>)
    requires Inv(db0, s) && AllAnsweredAlone(db0, s) && ValidRun(s, run)
    ensures AllAnsweredAlone(db0, Run(s, run))
    decreases |run|
  {
    if run != [] {
      var a := run[0];
      StepKeepsInv(db0, s, a);
      if a.Statement? && !Blocked(s, a.t) && s.txs[a.t].pc == Commit {
        CommitKeepsReplies(db0, s, a.t, a.occurredAt);
      } else {
        OthersKeepReplies(db0, s, a);
      }
      RunKeepsReplies(db0, Exec(s, a), run[1..]);
    }
  }

  /** Any interleaving leaves the tables that the committed transactions leave when they run alone,
      one at a time, in commit order, with the identity values they were given; each of them
      succeeds alone too, under a key nobody used before, and gets the very answer its request
      got, stock and balance left included. */
  lemma {:induction false} Serializable(db0: Db, run: seq<Action>)
    requires Start(db0) && ValidRun(Initial(db0), run)
    ensures var s := After(db0, run);
      && AllSucceed(db0, s.log) && FreshIds(s.log) && s.db == Serial(db0, s.log)
      && |Creations(s.answers)| == |s.log|
      && forall i :: 0 <= i < |s.log| ==> AnsweredAlone(db0, s.log, i, Creations(s.answers)[i])
  {
    Reached(db0, run);
    InitialInv(db0);
    RunKeepsReplies(db0, Initial(db0), run);
  }

  /** Conservation in every committed state, read off the tables. */
  lemma {:induction false} Conservation(db0: Db, run: seq<Action>)
    requires Start(db0) && ValidRun(Initial(db0), run)
    ensures var db := After(db0, run).db;
      && (forall p :: p in db0.products ==>
            && p in db.products && db.products[p].stock >= 0
            && db0.products[p].stock == db.products[p].stock + Sold(db.items, p))
      && (forall b :: b in db0.users ==>
            && b in db.users && db.users[b] >= 0
            && db0.users[b] == db.users[b] + Spent(db.orders, b))
      && |db.orders| == |db.items| == |db.tasks|
      && (forall i :: 0 <= i < |db.orders| ==>
            && db.items[i].orderId == db.orders[i].id == db.tasks[i].orderId
            && db.items[i].quantity > 0
            && db.orders[i].totalCents == db.items[i].unitPriceCents * db.items[i].quantity)
      && (forall i, j :: 0 <= i < j < |db.orders| ==>
            db.orders[i].id != db.orders[j].id && db.tasks[i].id != db.tasks[j].id)
      && |db.outbox| == |db.keys| <= |db.orders|
  {
    Reached(db0, run);
    var s := After(db0, run);
    forall p | p in db0.products ensures ProductConserved(db0, s.db, p) {}
    forall b | b in db0.users ensures BuyerConserved(db0, s.db, b) {}
    forall i | 0 <= i < |s.log|
      ensures RowsOf(db0, s.log[i], s.db.orders[i], s.db.items[i], s.db.tasks[i])
    {
    }
    forall k
      ensures k in s.db.keys.Keys <==> KeyUsed(s.log, k)
    {
      if i :| KeyAt(s.log, i, k) { assert s.log[i].key.value == k; }
    }
    KeysCounted(s.log, s.db.keys.Keys);
    assert |s.db.keys| == |s.db.keys.Keys|;
  }

  ghost predicate KeyUsed(log: seq<Entry>, key: string) {
    exists i :: KeyAt(log, i, key)
  }

  lemma {:induction false} KeysCounted(log: seq<Entry>, keys: set<string>)
    requires forall k :: k in keys <==> KeyUsed(log, k)
    requires forall i, j :: 0 <= i < j < |log| && log[i].key.Some? ==> log[i].key != log[j].key
    ensures |keys| == Keyed(log) <= |log|
  {
    if log == [] {
      assert forall k :: k in keys <==> KeyUsed(log, k);
      assert keys == {};
    } else {
      var prefix, last := log[..|log| - 1], log[|log| - 1];
      var fewer := if last.key.Some? then keys - {last.key.value} else keys;
      forall k
        ensures k in fewer <==> KeyUsed(prefix, k)
      {
        KeyUsedBefore(log, k);
      }
      KeysCounted(prefix, fewer);
      if last.key.Some? {
        assert KeyAt(log, |log| - 1, last.key.value);
        assert KeyUsed(log, last.key.value);
        assert keys == fewer + {last.key.value};
      }
    }
  }

  lemma KeyUsedBefore(log: seq<Entry>, key: string)
    requires log != []
    requires forall i, j :: 0 <= i < j < |log| && log[i].key.Some? ==> log[i].key != log[j].key
    ensures KeyUsed(log[..|log| - 1], key) <==> KeyUsed(log, key) && log[|log| - 1].key != Some(key)
  {
    var prefix := log[..|log| - 1];
    if i :| KeyAt(log, i, key) {
      assert i < |prefix| ==> KeyAt(prefix, i, key);
    }
    if i :| KeyAt(prefix, i, key) {
      assert KeyAt(log, i, key);
    }
  }

  // ---------------------------------------------------------------- idempotency keys

  /** The place of answer n among the creations. */
  lemma {:induction false} CreationPlace(answers: seq<Answer>, n: nat)
    requires n < |answers| && answers[n].outcome.Created?
    ensures |Creations(answers[..n])| < |Creations(answers)|
    ensures Creations(answers)[|Creations(answers[..n])|] == answers[n]
    decreases |answers|
  {
    var prefix := answers[..|answers| - 1];
    if n < |prefix| {
      CreationPlace(prefix, n);
      assert prefix[..n] == answers[..n];
    }
  }

  lemma {:induction false} CreationsGrow(answers: seq<Answer>, m: nat, n: nat)
    requires m < n <= |answers| && answers[m].outcome.Created?
    ensures |Creations(answers[..m])| < |Creations(answers[..n])|
  {
    CreationPlace(answers[..n], m);
    assert answers[..n][..m] == answers[..m];
  }

  lemma {:induction false} CreationSource(answers: seq<Answer>, i: nat) returns (n: nat)
    requires i < |Creations(answers)|
    ensures n < |answers| && answers[n] == Creations(answers)[i] && answers[n].outcome.Created?
    decreases |answers|
  {
    var prefix := answers[..|answers| - 1];
    if i < |Creations(prefix)| {
      n := CreationSource(prefix, i);
    } else {
      n := |answers| - 1;
    }
  }

  predicate Served(a: Answer, key: string) {
    a.key == Some(key) && (a.outcome.Created? || a.outcome.Replayed?)
  }

  /** The transaction behind an answer that carries an order. */
  lemma ServedBy(db0: Db, s: State, n: nat, key: string) returns (i: nat)
    requires Inv(db0, s) && n < |s.answers| && Served(s.answers[n], key)
    ensures KeyAt(s.log, i, key) && Names(db0, s.log[i], s.answers[n].outcome.reply)
  {
    var a := s.answers[n];
    assert AnswerSound(db0, s.log, s.db, a);
    if a.outcome.Created? {
      CreationPlace(s.answers, n);
      i := |Creations(s.answers[..n])|;
    } else {
      i :| KeyAt(s.log, i, key) && Names(db0, s.log[i], a.outcome.reply);
    }
  }

  /** One order per key, over all runs and any number of racing requests: a committed key is
      bound to one order and never to NULL; everyone served under a key is told the same
      order, total, task and outbox row; exactly one of them created it; and nobody is told
      that the key has no order. */
  lemma {:induction false} OneOrderPerKey(db0: Db, run: seq<Action>, key: string)
    requires Start(db0) && ValidRun(Initial(db0), run)
    ensures var s := After(db0, run);
      key in s.db.keys ==>
        && s.db.keys[key].Some?
        && exists i :: 0 <= i < |s.db.orders| && s.db.orders[i].id == s.db.keys[key].value
    ensures var answers := After(db0, run).answers;
      forall m, n :: 0 <= m < |answers| && 0 <= n < |answers| && Served(answers[m], key) && Served(answers[n], key) ==>
        && answers[m].outcome.reply.orderId == answers[n].outcome.reply.orderId
        && answers[m].outcome.reply.totalCents == answers[n].outcome.reply.totalCents
        && answers[m].outcome.reply.taskId == answers[n].outcome.reply.taskId
        && answers[m].outcome.reply.outboxId == answers[n].outcome.reply.outboxId
        && (answers[m].outcome.Created? && answers[n].outcome.Created? ==> m == n)
    ensures var answers := After(db0, run).answers;
      (exists n :: 0 <= n < |answers| && Served(answers[n], key)) ==>
      (exists n :: 0 <= n < |answers| && Served(answers[n], key) && answers[n].outcome.Created?)
    ensures var answers := After(db0, run).answers;
      forall n :: 0 <= n < |answers| ==> answers[n].outcome != Refused(KeyWithoutOrder)
  {
    Reached(db0, run);
    var s := After(db0, run);
    if key in s.db.keys { KeyIsBound(db0, s.log, s.db, key); }
    forall m, n | 0 <= m < |s.answers| && 0 <= n < |s.answers| && Served(s.answers[m], key) && Served(s.answers[n], key)
      ensures SameOrder(s.answers[m], s.answers[n])
      ensures s.answers[m].outcome.Created? && s.answers[n].outcome.Created? ==> m == n
    {
      ServedAlike(db0, s, m, n, key);
    }
    if n :| 0 <= n < |s.answers| && Served(s.answers[n], key) { SomebodyCreated(db0, s, n, key); }
    forall n | 0 <= n < |s.answers|
      ensures s.answers[n].outcome != Refused(KeyWithoutOrder)
    {
      assert AnswerSound(db0, s.log, s.db, s.answers[n]);
    }
  }

  lemma KeyIsBound(db0: Db, log: seq<Entry>, db: Db, key: string)
    requires Ledger(db0, log, db) && key in db.keys
    ensures db.keys[key].Some? && exists i :: 0 <= i < |db.orders| && db.orders[i].id == db.keys[key].value
  {
    var i :| KeyAt(log, i, key);
    assert RowsOf(db0, log[i], db.orders[i], db.items[i], db.tasks[i]);
  }

  /** Two answers that tell of the same order. */
  predicate SameOrder(a: Answer, b: Answer)
    requires (a.outcome.Created? || a.outcome.Replayed?) && (b.outcome.Created? || b.outcome.Replayed?)
  {
    && a.outcome.reply.orderId == b.outcome.reply.orderId
    && a.outcome.reply.totalCents == b.outcome.reply.totalCents
    && a.outcome.reply.taskId == b.outcome.reply.taskId
    && a.outcome.reply.outboxId == b.outcome.reply.outboxId
  }

  lemma ServedAlike(db0: Db, s: State, m: nat, n: nat, key: string)
    requires Inv(db0, s) && m < |s.answers| && n < |s.answers| && Served(s.answers[m], key) && Served(s.answers[n], key)
    ensures SameOrder(s.answers[m], s.answers[n])
    ensures s.answers[m].outcome.Created? && s.answers[n].outcome.Created? ==> m == n
  {
    var i := ServedBy(db0, s, m, key);
    var j := ServedBy(db0, s, n, key);
    assert i == j;
    if s.answers[m].outcome.Created? && s.answers[n].outcome.Created? && m != n {
      OneCreation(db0, s, if m < n then m else n, if m < n then n else m);
    }
  }

  lemma SomebodyCreated(db0: Db, s: State, n: nat, key: string)
    requires Inv(db0, s) && n < |s.answers| && Served(s.answers[n], key)
    ensures exists c :: 0 <= c < |s.answers| && Served(s.answers[c], key) && s.answers[c].outcome.Created?
  {
    var i := ServedBy(db0, s, n, key);
    var c := CreationSource(s.answers, i);
    assert Served(s.answers[c], key);
  }

  lemma OneCreation(db0: Db, s: State, m: nat, n: nat)
    requires Inv(db0, s) && m < n < |s.answers|
    requires s.answers[m].outcome.Created? && s.answers[n].outcome.Created? && s.answers[m].key.Some?
    ensures s.answers[m].key != s.answers[n].key
  {
    CreationPlace(s.answers, m);
    CreationPlace(s.answers, n);
    CreationsGrow(s.answers, m, n);
  }

  /** Step `a` ends transaction t, and not by a commit: it is refused, or lost. */
  predicate RollsBack(s: State, a: Action, t: nat)
    requires Enabled(s, a)
  {
    t in s.txs && t !in Exec(s, a).txs && Exec(s, a).log == s.log
  }

  lemma RollbackLeavesTheTables(s: State, a: Action, t: nat)
    requires Enabled(s, a) && RollsBack(s, a, t)
    ensures Exec(s, a).db == s.db && Exec(s, a).txs == s.txs - {t}
    ensures exists outcome :: Exec(s, a).answers == s.answers + [Answer(s.txs[t].key, s.txs[t].input, outcome)]
    ensures a == Abort(t) || (a.Statement? && a.t == t)
  {
  }

  /** A request that rolls back, because it was refused for whatever reason or because it was lost,
      leaves the tables alone and its key unclaimed and unlocked: the next request with the same
      key gets past the claim. */
  lemma RollbackFreesTheKey(db0: Db, s: State, a: Action, t: nat, u: nat, input: Input, now: nat)
    requires Inv(db0, s) && Enabled(s, a) && RollsBack(s, a, t)
    requires s.txs[t].key.Some? && Stage(s.txs[t].pc) >= 1
    requires u !in Exec(s, a).txs
    ensures var key := s.txs[t].key;
      var retry := Exec(Exec(s, a), Begin(u, key, input, now));
      && Exec(s, a).db == s.db
      && !Blocked(retry, u)
      && Enabled(retry, Statement(u, ""))
      && var claimed := Exec(retry, Statement(u, ""));
         u in claimed.txs && claimed.txs[u].pc == Decrement
  {
    RollbackLeavesTheTables(s, a, t);
    assert Consistent(s.db, s.txs[t]);
    forall v | v in Exec(s, a).txs ensures !Holds(s.txs[v], KeyRow(s.txs[t].key.value)) {
      assert Compatible(s.txs[t], s.txs[v]);
    }
    ClaimGetsThrough(Exec(s, a), u, s.txs[t].key.value, input, now);
  }

  lemma ClaimGetsThrough(s: State, u: nat, key: string, input: Input, now: nat)
    requires u !in s.txs && key !in s.db.keys
    requires forall v :: v in s.txs ==> !Holds(s.txs[v], KeyRow(key))
    ensures var begun := Exec(s, Begin(u, Some(key), input, now));
      && !Blocked(begun, u)
      && Enabled(begun, Statement(u, ""))
      && var claimed := Exec(begun, Statement(u, ""));
         u in claimed.txs && claimed.txs[u].pc == Decrement
  {
  }

  // ---------------------------------------------------------------- deadlock freedom

  predicate WaitsFor(s: State, t: nat, u: nat) {
    t in s.txs && u in s.txs && t != u && Wanted(s, t).Some? && Holds(s.txs[u], Wanted(s, t).value)
  }

  /** The order of the lock classes: key, product, buyer. */
  function Rank(r: Resource): nat {
    match r
    case KeyRow(_) => 1
    case ProductRow(_) => 2
    case BuyerRow(_) => 3
  }

  /** A holder that waits too waits for a row of a higher class. */
  lemma WaitsGoUp(s: State, t: nat, u: nat, v: nat)
    requires WaitsFor(s, t, u) && WaitsFor(s, u, v)
    ensures Rank(Wanted(s, t).value) < Rank(Wanted(s, u).value)
  {
  }

  predicate WaitChain(s: State, path: seq<nat>) {
    forall i :: 0 <= i < |path| - 1 ==> WaitsFor(s, path[i], path[i + 1])
  }

  /** The wait-for graph has no cycle, and no chain of waits has more than four transactions,
      however many are open. */
  lemma {:induction false} NoWaitCycle(s: State, path: seq<nat>)
    requires |path| >= 2 && WaitChain(s, path)
    ensures path[0] != path[|path| - 1]
    ensures |path| <= 4
  {
    RankClimbs(s, path, |path| - 2);
    if path[0] == path[|path| - 1] {
      assert WaitsFor(s, path[0], path[1]) && WaitsFor(s, path[|path| - 2], path[|path| - 1]);
      WaitsGoUp(s, path[|path| - 2], path[0], path[1]);
    }
  }

  lemma {:induction false} RankClimbs(s: State, path: seq<nat>, i: nat)
    requires |path| >= 2 && WaitChain(s, path) && i < |path| - 1
    ensures WaitsFor(s, path[i], path[i + 1])
    ensures WaitsFor(s, path[0], path[1])
    ensures Rank(Wanted(s, path[i]).value) >= Rank(Wanted(s, path[0]).value) + i
  {
    if i > 0 {
      RankClimbs(s, path, i - 1);
      WaitsGoUp(s, path[i - 1], path[i], path[i + 1]);
    }
  }

  lemma BlockedBySomeone(s: State, t: nat) returns (u: nat)
    requires t in s.txs && Blocked(s, t)
    ensures WaitsFor(s, t, u)
  {
    u :| u in s.txs && u != t && Holds(s.txs[u], Wanted(s, t).value);
  }

  /** While any transaction is open, one of them can run its next statement to the end. */
  lemma SomeoneCanStep(s: State) returns (t: nat)
    requires s.txs != map[]
    ensures t in s.txs && !Blocked(s, t)
    ensures forall occurredAt :: Enabled(s, Statement(t, occurredAt))
  {
    t :| t in s.txs;
    if Blocked(s, t) {
      var u := BlockedBySomeone(s, t);
      if Blocked(s, u) {
        var v := BlockedBySomeone(s, u);
        WaitsGoUp(s, t, u, v);
        if Blocked(s, v) {
          var w := BlockedBySomeone(s, v);
          WaitsGoUp(s, u, v, w);
          t := w;
        } else {
          t := v;
        }
      } else {
        t := u;
      }
    }
  }

  // ---------------------------------------------------------------- neither oversold nor undersold

  /** Every refusal anyone ever got is a true statement about the committed tables: in
      particular `out_of_stock` for a product that exists and a well-formed quantity means that
      the committed stock is below it. */
  lemma {:induction false} RefusalsAreTrue(db0: Db, run: seq<Action>, n: nat)
    requires Start(db0) && ValidRun(Initial(db0), run)
    requires n < |After(db0, run).answers| && After(db0, run).answers[n].outcome.Refused?
    ensures var s := After(db0, run);
      Justified(s.db, s.answers[n].input, s.answers[n].outcome.failure)
  {
    Reached(db0, run);
    var s := After(db0, run);
    assert AnswerSound(db0, s.log, s.db, s.answers[n]);
  }

  /** Requests of one quantity of one product from buyers who could pay for all of them. */
  predicate Burst(db0: Db, answers: seq<Answer>, product: nat, quantity: int) {
    && product in db0.products && 0 < quantity <= INT_MAX
    && var price := db0.products[product].priceCents;
       && price * quantity <= INT_MAX
       && forall n :: 0 <= n < |answers| ==>
            && answers[n].input.productId == product
            && answers[n].input.quantity == quantity as real
            && (answers[n].outcome.Created? || answers[n].outcome.Refused?)
            && answers[n].input.buyerId in db0.users
            && db0.users[answers[n].input.buyerId] >= |answers| * (price * quantity)
  }

  lemma {:induction false} SoldAlike(items: seq<Item>, product: nat, quantity: int)
    requires forall i :: 0 <= i < |items| ==> items[i].productId == product && items[i].quantity == quantity
    ensures Sold(items, product) == |items| * quantity
  {
    if items != [] { SoldAlike(items[..|items| - 1], product, quantity); }
  }

  lemma {:induction false} SpentAtMost(orders: seq<Order>, buyer: nat, total: int)
    requires total >= 0
    requires forall i :: 0 <= i < |orders| ==> orders[i].totalCents == total
    ensures Spent(orders, buyer) <= |orders| * total
  {
    if orders != [] {
      SpentAtMost(orders[..|orders| - 1], buyer, total);
      assert (|orders| - 1) * total + total == |orders| * total;
    }
  }

  lemma {:induction false} AllCreated(answers: seq<Answer>)
    ensures |Creations(answers)| <= |answers|
    ensures |Creations(answers)| == |answers| <==> forall n :: 0 <= n < |answers| ==> answers[n].outcome.Created?
  {
    if answers != [] {
      var prefix := answers[..|answers| - 1];
      AllCreated(prefix);
    }
  }

  lemma Quotient(stock: int, sold: int, quantity: int)
    requires quantity > 0 && 0 <= stock - sold * quantity < quantity
    ensures sold == stock / quantity
  {
    var d := stock / quantity;
    var apart := sold - d;
    assert stock == d * quantity + stock % quantity;
    assert apart * quantity == sold * quantity - d * quantity;
    assert apart >= 1 ==> apart * quantity >= quantity;
    assert apart <= -1 ==> apart * quantity <= -quantity;
  }

  /** What a finished burst has ordered. */
  lemma BurstLog(db0: Db, s: State, product: nat, quantity: int)
    requires Inv(db0, s) && Burst(db0, s.answers, product, quantity)
    ensures var price := db0.products[product].priceCents;
      && product in s.db.products
      && s.db.products[product].priceCents == price
      && s.db.products[product].stock == db0.products[product].stock - |s.log| * quantity >= 0
      && (forall b :: b in db0.users ==> b in s.db.users && s.db.users[b] >= db0.users[b] - |s.log| * (price * quantity))
  {
    var price := db0.products[product].priceCents;
    forall i | 0 <= i < |s.log|
      ensures s.db.items[i].productId == product && s.db.items[i].quantity == quantity
      ensures s.db.orders[i].totalCents == price * quantity
    {
      assert RowsOf(db0, s.log[i], s.db.orders[i], s.db.items[i], s.db.tasks[i]);
      var n := CreationSource(s.answers, i);
      assert (quantity as real).Floor == quantity;
    }
    TotalIsNatural(price, quantity);
    SoldAlike(s.db.items, product, quantity);
    assert ProductConserved(db0, s.db, product);
    forall b | b in db0.users
      ensures b in s.db.users && s.db.users[b] >= db0.users[b] - |s.log| * (price * quantity)
    {
      assert BuyerConserved(db0, s.db, b);
      SpentAtMost(s.db.orders, b, price * quantity);
    }
  }

  /** N concurrent requests for q pieces of a product with stock S, all answered, none lost:
      exactly min(N, S div q) of them got an order, whatever the schedule. */
  lemma {:induction false} BurstSellsExactly(db0: Db, run: seq<Action>, product: nat, quantity: int)
    requires Start(db0) && ValidRun(Initial(db0), run)
    requires Burst(db0, After(db0, run).answers, product, quantity)
    ensures var s, stock := After(db0, run), db0.products[product].stock;
      var n := |s.answers|;
      |Creations(s.answers)| == if n <= stock / quantity then n else stock / quantity
  {
    Reached(db0, run);
    var s := After(db0, run);
    var n, k, stock := |s.answers|, |s.log|, db0.products[product].stock;
    BurstLog(db0, s, product, quantity);
    AllCreated(s.answers);
    if k == n {
      Fits(stock, n, quantity);
    } else {
      var m :| 0 <= m < n && !s.answers[m].outcome.Created?;
      BurstRefusal(db0, s, product, quantity, m);
      Quotient(stock, k, quantity);
    }
  }

  lemma Fits(stock: int, n: nat, quantity: int)
    requires quantity > 0 && stock - n * quantity >= 0
    ensures n <= stock / quantity
  {
    var spare := stock - n * quantity;
    var more := spare / quantity;
    Quotient(stock, n + more, quantity) by {
      assert (n + more) * quantity == n * quantity + more * quantity;
    }
  }

  lemma CanStillPay(funds: int, balance: int, n: nat, k: nat, total: int)
    requires total >= 0 && k < n && funds >= n * total && balance >= funds - k * total
    ensures balance >= total
  {
    assert n * total == (n - k - 1) * total + (k + 1) * total;
    assert (k + 1) * total == k * total + total;
  }

  /** In a burst the only reason left to refuse is that the stock has run out. */
  lemma BurstRefusal(db0: Db, s: State, product: nat, quantity: int, m: nat)
    requires Inv(db0, s) && Burst(db0, s.answers, product, quantity)
    requires m < |s.answers| && s.answers[m].outcome.Refused?
    ensures product in s.db.products && s.db.products[product].stock < quantity
  {
    var a := s.answers[m];
    var total := db0.products[product].priceCents * quantity;
    BurstLog(db0, s, product, quantity);
    AllCreated(s.answers);
    TotalIsNatural(db0.products[product].priceCents, quantity);
    CanStillPay(db0.users[a.input.buyerId], s.db.users[a.input.buyerId], |s.answers|, |s.log|, total);
    assert AnswerSound(db0, s.log, s.db, a);
    assert (quantity as real).Floor == quantity;
    RefusedForStock(s.db, a.input, a.outcome.failure, quantity);
  }

  lemma RefusedForStock(db: Db, input: Input, f: Failure, quantity: int)
    requires Justified(db, input, f)
    requires 0 < quantity <= INT_MAX && input.quantity == quantity as real && input.quantity.Floor == quantity
    requires input.productId in db.products && db.products[input.productId].priceCents * quantity <= INT_MAX
    requires input.buyerId in db.users
    requires db.users[input.buyerId] >= db.products[input.productId].priceCents * quantity
    ensures db.products[input.productId].stock < quantity
  {
  }
}
