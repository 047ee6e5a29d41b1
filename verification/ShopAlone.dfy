/** Interleaved requests get the answers they would get alone: not only those that create an order,
    also every replay and every refusal. */
module ShopAlone {
  import opened Wrappers
  import opened Checkout
  import opened Shop

  /** What a request gets that runs alone on these tables. */
  ghost predicate LikeAlone(db: Db, a: Answer) {
    match a.outcome
    case Created(reply) => CreatedAlone(db, a.key, a.input, reply)
    case Replayed(reply) => a.key.Some? && a.key.value in db.keys && ReplayOf(db, a.key.value) == Success(reply)
    case Refused(f) => RefusedAlone(db, a.key, a.input, f)
    case Lost => true
  }

  ghost predicate CreatedAlone(db: Db, key: Option<string>, input: Input, reply: Reply) {
    && (key.Some? ==> key.value !in db.keys)
    && exists gen :: Tells(Transact(db, Entry(key, input, gen)), key, gen, reply)
  }

  predicate Tells(transacted: Result<(Db, CheckoutResult), Failure>, key: Option<string>, gen: Generated, reply: Reply) {
    && transacted.Success?
    && reply == CreatedReply(transacted.value.1, if key.Some? then Some(gen.outboxId) else None)
  }

  /** The reason is the one the tables give, whatever identity values the request would be given. */
  ghost predicate RefusedAlone(db: Db, key: Option<string>, input: Input, f: Failure) {
    if key.Some? && key.value in db.keys then ReplayOf(db, key.value) == Failure(f)
    else FailsWith(db, input, f) && forall gen :: Transact(db, Entry(key, input, gen)) == Failure(f)
  }

  lemma FailsAlone(db: Db, key: Option<string>, input: Input, f: Failure)
    requires FailsWith(db, input, f)
    ensures forall gen :: Transact(db, Entry(key, input, gen)) == Failure(f)
  {
    forall gen ensures Transact(db, Entry(key, input, gen)) == Failure(f) {
      RefusesExactly(db, input, gen, f);
    }
  }

  /** The last statement of a transaction, whichever it is. */
  lemma EndsLikeAlone(s: State, t: nat, occurredAt: string)
    requires t in s.txs && Consistent(s.db, s.txs[t]) && NextOf(s, s.txs[t], occurredAt).Stop?
    ensures var tx := s.txs[t];
      LikeAlone(s.db, Answer(tx.key, tx.input, NextOf(s, tx, occurredAt).outcome))
  {
    var tx := s.txs[t];
    match NextOf(s, tx, occurredAt).outcome {
      case Created(reply) =>
        CommitIsSerial(s.db, tx);
        assert Tells(Transact(s.db, Entry(tx.key, tx.input, tx.Gen())), tx.key, tx.Gen(), reply);
      case Refused(f) =>
        if tx.pc != Replay {
          RefusalReason(s, tx, occurredAt, f);
          FailsAlone(s.db, tx.key, tx.input, f);
        }
      case _ =>
    }
  }

  lemma RefusalReason(s: State, tx: Tx, occurredAt: string, f: Failure)
    requires Consistent(s.db, tx) && tx.pc != Replay && NextOf(s, tx, occurredAt) == Stop(Refused(f))
    ensures FailsWith(s.db, tx.input, f) && !(tx.key.Some? && tx.key.value in s.db.keys)
  {
  }

  /** The committed tables at the moment answer n was given: those of the orders created before it. */
  ghost function TablesAt(db0: Db, s: State, n: nat): Db
    requires n <= |s.answers| && |Creations(s.answers[..n])| <= |s.log|
  {
    Serial(db0, s.log[..|Creations(s.answers[..n])|])
  }

  ghost predicate AnsweredAlone(db0: Db, s: State, n: nat)
    requires n < |s.answers|
  {
    |Creations(s.answers[..n])| <= |s.log| && LikeAlone(TablesAt(db0, s, n), s.answers[n])
  }

  ghost predicate AllAnsweredAlone(db0: Db, s: State) {
    forall n :: 0 <= n < |s.answers| ==> AnsweredAlone(db0, s, n)
  }

  /** Later commits and answers do not change what was so. */
  lemma StaysAnswered(db0: Db, s: State, s': State, n: nat)
    requires n < |s.answers| && AnsweredAlone(db0, s, n)
    requires s.log <= s'.log && s.answers <= s'.answers
    ensures AnsweredAlone(db0, s', n)
  {
    assert s'.answers[..n] == s.answers[..n];
    var k := |Creations(s.answers[..n])|;
    assert s'.log[..k] == s.log[..k];
  }

  lemma LastAnswered(db0: Db, s: State, s': State, a: Answer)
    requires Inv(db0, s) && s.log <= s'.log && s'.answers == s.answers + [a] && LikeAlone(s.db, a)
    ensures AnsweredAlone(db0, s', |s.answers|)
  {
    assert s'.answers[..|s.answers|] == s.answers;
    assert s'.log[..|s.log|] == s.log;
  }

  /** At most one answer a step, and it is that of the transaction that ends. */
  lemma StepAnswers(s: State, a: Action)
    requires Enabled(s, a)
    ensures var s' := Exec(s, a);
      && s.log <= s'.log
      && (s'.answers == s.answers
          || (a.Abort? && s'.answers == s.answers + [Answer(s.txs[a.t].key, s.txs[a.t].input, Lost)])
          || (a.Statement? && NextOf(s, s.txs[a.t], a.occurredAt).Stop?
              && s'.answers == s.answers + [Answer(s.txs[a.t].key, s.txs[a.t].input,
                                                   NextOf(s, s.txs[a.t], a.occurredAt).outcome)]))
  {
  }

  lemma StepKeepsAnswered(db0: Db, s: State, a: Action)
    requires Inv(db0, s) && AllAnsweredAlone(db0, s) && Enabled(s, a)
    ensures AllAnsweredAlone(db0, Exec(s, a))
  {
    var s' := Exec(s, a);
    StepAnswers(s, a);
    if |s'.answers| > |s.answers| {
      if a.Statement? { EndsLikeAlone(s, a.t, a.occurredAt); }
      LastAnswered(db0, s, s', s'.answers[|s.answers|]);
    }
    forall n | 0 <= n < |s.answers| ensures AnsweredAlone(db0, s', n) {
      StaysAnswered(db0, s, s', n);
    }
  }

  lemma {:induction false} RunKeepsAnswered(db0: Db, s: State, run: seq<Action>)
    requires Inv(db0, s) && AllAnsweredAlone(db0, s) && ValidRun(s, run)
    ensures AllAnsweredAlone(db0, Run(s, run))
    decreases |run|
  {
    if run != [] {
      StepKeepsAnswered(db0, s, run[0]);
      StepKeepsInv(db0, s, run[0]);
      RunKeepsAnswered(db0, Exec(s, run[0]), run[1..]);
    }
  }

  /** Linearizable: in any interleaving every request that was answered got exactly what it would
      have got alone on the tables as they were at that moment, be it an order, a replay or a
      refusal. */
  lemma {:induction false} EveryAnswerIsSerial(db0: Db, run: seq<Action>, n: nat)
    requires Start(db0) && ValidRun(Initial(db0), run) && n < |Run(Initial(db0), run).answers|
    ensures AnsweredAlone(db0, Run(Initial(db0), run), n)
  {
    InitialInv(db0);
    RunKeepsAnswered(db0, Initial(db0), run);
  }

  // ---------------------------------------------------------------- what a transaction is given

  /** A transaction keeps the request and the time it began with. */
  lemma BeginsWith(s: State, t: nat, key: Option<string>, input: Input, now: nat)
    requires t !in s.txs
    ensures var s' := Exec(s, Begin(t, key, input, now));
      && t in s'.txs && s'.txs[t].key == key && s'.txs[t].input == input && s'.txs[t].createdAt == now
      && s'.txs - {t} == s.txs && s'.db == s.db
  {
    assert Exec(s, Begin(t, key, input, now)).txs - {t} == s.txs;
  }

  /** Each INSERT takes the next value of its own sequence, the event the time of its own making; the
      rest of what a transaction was given stays. */
  lemma TakesIdsAndTimes(s: State, t: nat, occurredAt: string)
    requires t in s.txs && NextOf(s, s.txs[t], occurredAt).Continue?
    ensures var before, after, s' := s.txs[t], NextOf(s, s.txs[t], occurredAt).tx, RunStatement(s, t, occurredAt);
      && after.createdAt == before.createdAt && after.key == before.key && after.input == before.input
      && after.orderId == (if before.pc == InsertOrder then s.nextOrder else before.orderId)
      && after.taskId == (if before.pc == InsertTask then s.nextTask else before.taskId)
      && after.outboxId == (if before.pc == Enqueue then s.nextOutbox else before.outboxId)
      && after.occurredAt == (if before.pc == Enqueue then occurredAt else before.occurredAt)
      && s'.nextOrder == s.nextOrder + (if before.pc == InsertOrder then 1 else 0)
      && s'.nextTask == s.nextTask + (if before.pc == InsertTask then 1 else 0)
      && s'.nextOutbox == s.nextOutbox + (if before.pc == Enqueue then 1 else 0)
  {
  }

  // ---------------------------------------------------------------- really alone

  /** How many statements a transaction has before it at most. */
  function Left(pc: Pc): nat {
    match pc
    case Claim => 12
    case Replay => 0
    case Decrement => 11
    case StockLookup => 0
    case Debit => 10
    case BalanceLookup => 0
    case InsertOrder => 9
    case InsertItem => 8
    case InsertTask => 7
    case Enqueue => 6
    case AfterEnqueue => 5
    case Bind => 4
    case Commit => 3
  }

  lemma AloneIsNotBlocked(s: State, t: nat)
    requires s.txs.Keys == {t}
    ensures !Blocked(s, t)
  {
  }

  /** One statement: the transaction goes on, or is over and answered. */
  lemma AloneGoesOn(s: State, t: nat)
    requires s.txs.Keys == {t}
    ensures Enabled(s, Statement(t, ""))
    ensures var s', next := Exec(s, Statement(t, "")), NextOf(s, s.txs[t], "");
      if next.Stop?
      then && s'.txs == map[]
           && s'.answers == s.answers + [Answer(s.txs[t].key, s.txs[t].input, next.outcome)]
      else && s'.txs.Keys == {t} && Left(s'.txs[t].pc) < Left(s.txs[t].pc)
           && s'.db == s.db && s'.answers == s.answers
           && s'.txs[t].key == s.txs[t].key && s'.txs[t].input == s.txs[t].input
  {
    AloneIsNotBlocked(s, t);
    assert s.txs - {t} == map[];
  }

  lemma StopsAreAnswers(s: State, tx: Tx, occurredAt: string)
    requires NextOf(s, tx, occurredAt).Stop?
    ensures NextOf(s, tx, occurredAt).outcome != Lost
  {
  }

  /** A request that meets no other is answered after a few statements, and as the tables say. */
  lemma {:induction false} FinishesAlone(db0: Db, s: State, t: nat) returns (run: seq<Action>)
    requires Inv(db0, s) && s.txs.Keys == {t}
    ensures ValidRun(s, run) && Run(s, run).txs == map[]
    ensures var answers := Run(s, run).answers;
      && |answers| == |s.answers| + 1 && answers[..|s.answers|] == s.answers
      && answers[|s.answers|].key == s.txs[t].key && answers[|s.answers|].input == s.txs[t].input
      && answers[|s.answers|].outcome != Lost && LikeAlone(s.db, answers[|s.answers|])
    decreases Left(s.txs[t].pc)
  {
    var a := Statement(t, "");
    AloneGoesOn(s, t);
    var s' := Exec(s, a);
    if NextOf(s, s.txs[t], "").Stop? {
      EndsLikeAlone(s, t, "");
      StopsAreAnswers(s, s.txs[t], "");
      run := [a];
      assert run[1..] == [];
      assert Run(s', []) == s';
    } else {
      StepKeepsInv(db0, s, a);
      var rest := FinishesAlone(db0, s', t);
      run := [a] + rest;
      assert run[1..] == rest;
    }
  }

  /** So a request that runs alone fails with `f` exactly if its transaction does, and is served
      exactly if it succeeds or its key is taken. */
  lemma AloneMeansTransact(db0: Db, s: State, t: nat, gen: Generated) returns (run: seq<Action>)
    requires Inv(db0, s) && s.txs.Keys == {t}
    ensures ValidRun(s, run) && |Run(s, run).answers| == |s.answers| + 1
    ensures var tx, outcome := s.txs[t], Run(s, run).answers[|s.answers|].outcome;
      if tx.key.Some? && tx.key.value in s.db.keys
      then outcome == match ReplayOf(s.db, tx.key.value)
                      case Success(reply) => Replayed(reply)
                      case Failure(f) => Refused(f)
      else match Transact(s.db, Entry(tx.key, tx.input, gen))
           case Success(_) => outcome.Created?
           case Failure(f) => outcome == Refused(f)
  {
    run := FinishesAlone(db0, s, t);
    var a := Run(s, run).answers[|s.answers|];
    OutcomeIsDetermined(s.db, a, gen);
  }

  lemma OutcomeIsDetermined(db: Db, a: Answer, gen: Generated)
    requires LikeAlone(db, a) && a.outcome != Lost
    ensures if a.key.Some? && a.key.value in db.keys
      then a.outcome == match ReplayOf(db, a.key.value)
                        case Success(reply) => Replayed(reply)
                        case Failure(f) => Refused(f)
      else match Transact(db, Entry(a.key, a.input, gen))
           case Success(_) => a.outcome.Created?
           case Failure(f) => a.outcome == Refused(f)
  {
    var e := Entry(a.key, a.input, gen);
    if a.outcome.Created? {
      var made: Generated :| Tells(Transact(db, Entry(a.key, a.input, made)), a.key, made, a.outcome.reply);
      SuccessIgnoresIds(db, Entry(a.key, a.input, made), e);
    }
  }

  lemma SuccessIgnoresIds(db: Db, e: Entry, e': Entry)
    requires e.key == e'.key && e.input == e'.input
    ensures Transact(db, e).Success? <==> Transact(db, e').Success?
  {
  }
}
