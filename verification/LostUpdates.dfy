/** Clients that read a balance, compute a new one and write it, each in one transaction that is
    repeated as in src/retry.ts (src/demo-retry.ts:52-71, 105-125), against one row of Postgres:
    snapshots, a row lock, and under REPEATABLE READ the first updater wins. */
module LostUpdates {
  import opened Wrappers
  import opened Retry

  datatype Isolation = ReadCommitted | RepeatableRead

  datatype Config = Config(isolation: Isolation, maxAttempts: int, start: int, decrement: int)

  /** `version` counts the commits a transaction's snapshot has seen. */
  datatype Pc =
    | Idle                               // about to begin an attempt
    | Thinking(current: int, version: nat)
    | Written(value: int)                // holds the row lock
    | Succeeded
    | GaveUp
    | Failed                             // by an error that is not repeated

  datatype Client = Client(attempt: nat, pc: Pc)

  /** The row, its lock, and who committed: `unheard` are the clients whose commit took effect
      though they were told of an error. */
  datatype State = State(balance: int, version: nat, holder: Option<nat>, clients: seq<Client>,
                         succeeded: set<nat>, unheard: set<nat>)

  datatype Action =
    | Step(c: nat)
    | Fail(c: nat)         // an error of another kind: rolled back and thrown on
    | CommitUnheard(c: nat)

  function Start(c: Config, clients: nat): State {
    State(c.start, 0, None, Repeat(clients), {}, {})
  }

  function Repeat(n: nat): (clients: seq<Client>)
    ensures |clients| == n && forall i :: 0 <= i < n ==> clients[i] == Client(1, Idle)
  {
    if n == 0 then [] else Repeat(n - 1) + [Client(1, Idle)]
  }

  predicate Running(pc: Pc) {
    pc.Idle? || pc.Thinking? || pc.Written?
  }

  predicate Enabled(s: State, a: Action) {
    && a.c < |s.clients| && Running(s.clients[a.c].pc)
    && (a.Step? && s.clients[a.c].pc.Thinking? ==> s.holder.None?)  // an update waits for the lock
    && (a.CommitUnheard? ==> s.clients[a.c].pc.Written?)
  }

  function Goto(s: State, i: nat, pc: Pc): State
    requires i < |s.clients|
  {
    s.(clients := s.clients[i := s.clients[i].(pc := pc)])
  }

  const CONFLICT := DbError(Some(SERIALIZATION_FAILURE), "could not serialize access due to concurrent update")

  /** The transaction is rolled back; the wrapper begins another or gives up. */
  function Conflict(c: Config, s: State, i: nat): State
    requires i < |s.clients|
  {
    var attempt := s.clients[i].attempt;
    if Again(CONFLICT, attempt, c.maxAttempts) then s.(clients := s.clients[i := Client(attempt + 1, Idle)])
    else Goto(s, i, GaveUp)
  }

  function Commit(s: State, i: nat): State
    requires i < |s.clients| && s.clients[i].pc.Written?
  {
    s.(balance := s.clients[i].pc.value, version := s.version + 1, holder := None)
  }

  function Exec(c: Config, s: State, a: Action): State
    requires Enabled(s, a)
  {
    var i, pc := a.c, s.clients[a.c].pc;
    match a
    case Step(_) =>
      (match pc
       case Idle => Goto(s, i, Thinking(s.balance, s.version))
       case Thinking(current, version) =>
         if c.isolation.RepeatableRead? && s.version != version then Conflict(c, s, i)
         else Goto(s.(holder := Some(i)), i, Written(current - c.decrement))
       case Written(_) => Goto(Commit(s, i), i, Succeeded).(succeeded := s.succeeded + {i})
       case _ => s)
    case Fail(_) => Goto(if pc.Written? then s.(holder := None) else s, i, Failed)
    case CommitUnheard(_) => Goto(Commit(s, i), i, Failed).(unheard := s.unheard + {i})
  }

  predicate ValidRun(c: Config, s: State, run: seq<Action>)
    decreases |run|
  {
    run == [] || (Enabled(s, run[0]) && ValidRun(c, Exec(c, s, run[0]), run[1..]))
  }

  function Run(c: Config, s: State, run: seq<Action>): State
    requires ValidRun(c, s, run)
    decreases |run|
  {
    if run == [] then s else Run(c, Exec(c, s, run[0]), run[1..])
  }

  // ---------------------------------------------------------------- what every step keeps

  /** What the sets and the lock say of a client. */
  predicate Booked(s: State, i: nat)
    requires i < |s.clients|
  {
    && (s.clients[i].pc.Succeeded? <==> i in s.succeeded)
    && (i in s.unheard ==> s.clients[i].pc.Failed?)
    && (s.clients[i].pc.Written? <==> s.holder == Some(i))
  }

  /** The row's versions are the commits, one a client. */
  predicate Counted(s: State) {
    && s.version == |s.succeeded| + |s.unheard|
    && (forall i :: i in s.succeeded + s.unheard ==> i < |s.clients|)
    && (forall i :: 0 <= i < |s.clients| ==> Booked(s, i))
  }

  lemma StepKeepsBooked(c: Config, s: State, a: Action, i: nat)
    requires Counted(s) && Enabled(s, a) && i < |s.clients|
    ensures |Exec(c, s, a).clients| == |s.clients| && Booked(Exec(c, s, a), i)
  {
    assert Booked(s, i) && Booked(s, a.c);
  }

  lemma StepCounts(c: Config, s: State, a: Action)
    requires Counted(s) && Enabled(s, a)
    ensures var s' := Exec(c, s, a); s'.version == |s'.succeeded| + |s'.unheard|
  {
    assert Booked(s, a.c);
  }

  lemma CommittersGrowByTheActor(c: Config, s: State, a: Action)
    requires Enabled(s, a)
    ensures Exec(c, s, a).succeeded <= s.succeeded + {a.c} && Exec(c, s, a).unheard <= s.unheard + {a.c}
  {
  }

  lemma StepKeepsCounted(c: Config, s: State, a: Action)
    requires Counted(s) && Enabled(s, a)
    ensures Counted(Exec(c, s, a)) && |Exec(c, s, a).clients| == |s.clients|
  {
    var s' := Exec(c, s, a);
    StepCounts(c, s, a);
    StepKeepsBooked(c, s, a, a.c);
    forall i | 0 <= i < |s'.clients| ensures Booked(s', i) {
      StepKeepsBooked(c, s, a, i);
    }
    CommittersGrowByTheActor(c, s, a);
    forall i | i in s'.succeeded + s'.unheard ensures i < |s'.clients| {
      assert i in s.succeeded + s.unheard || i == a.c;
    }
  }

  /** Under REPEATABLE READ every version of the row has the balance of that many decrements, and a
      client that goes on to write has seen the newest. */
  predicate Exact(c: Config, s: State, client: Client) {
    match client.pc
    case Idle => client.attempt <= s.version + 1
    case Thinking(current, version) =>
      version <= s.version && current == c.start - c.decrement * version && client.attempt <= version + 1
    case Written(value) => value == c.start - c.decrement * (s.version + 1)
    case GaveUp => c.maxAttempts <= client.attempt <= s.version
    case _ => true
  }

  predicate InTry(c: Config, client: Client) {
    client.attempt >= 1 && (client.attempt == 1 || client.attempt <= c.maxAttempts)
  }

  predicate AllExact(c: Config, s: State) {
    && s.balance == c.start - c.decrement * s.version
    && forall i :: 0 <= i < |s.clients| ==> InTry(c, s.clients[i]) && Exact(c, s, s.clients[i])
  }

  lemma Next(decrement: int, version: nat)
    ensures decrement * (version + 1) == decrement * version + decrement
  {
  }

  lemma OwnStepKeepsExact(c: Config, s: State, a: Action)
    requires c.isolation.RepeatableRead? && Counted(s) && AllExact(c, s) && Enabled(s, a)
    ensures a.c < |Exec(c, s, a).clients|
    ensures InTry(c, Exec(c, s, a).clients[a.c]) && Exact(c, Exec(c, s, a), Exec(c, s, a).clients[a.c])
  {
    assert InTry(c, s.clients[a.c]) && Exact(c, s, s.clients[a.c]);
    Next(c.decrement, s.version);
  }

  lemma OthersStayExact(c: Config, s: State, a: Action, i: nat)
    requires Counted(s) && AllExact(c, s) && Enabled(s, a) && i < |s.clients| && i != a.c
    ensures i < |Exec(c, s, a).clients| && Exec(c, s, a).clients[i] == s.clients[i]
    ensures Exact(c, Exec(c, s, a), s.clients[i])
  {
    assert Exact(c, s, s.clients[i]) && Booked(s, i) && Booked(s, a.c);
    assert s.version <= Exec(c, s, a).version;
    assert s.clients[i].pc.Written? ==> Exec(c, s, a).version == s.version;
  }

  lemma BalanceStaysExact(c: Config, s: State, a: Action)
    requires AllExact(c, s) && Enabled(s, a)
    ensures Exec(c, s, a).balance == c.start - c.decrement * Exec(c, s, a).version
  {
    assert Exact(c, s, s.clients[a.c]);
  }

  lemma StepKeepsExact(c: Config, s: State, a: Action)
    requires c.isolation.RepeatableRead? && Counted(s) && AllExact(c, s) && Enabled(s, a)
    ensures AllExact(c, Exec(c, s, a))
  {
    var s' := Exec(c, s, a);
    StepKeepsCounted(c, s, a);
    BalanceStaysExact(c, s, a);
    forall i | 0 <= i < |s'.clients| ensures InTry(c, s'.clients[i]) && Exact(c, s', s'.clients[i]) {
      if i == a.c { OwnStepKeepsExact(c, s, a); } else { OthersStayExact(c, s, a, i); }
    }
  }

  lemma {:induction false} RunKeepsCounted(c: Config, s: State, run: seq<Action>)
    requires Counted(s) && ValidRun(c, s, run)
    ensures Counted(Run(c, s, run)) && |Run(c, s, run).clients| == |s.clients|
    decreases |run|
  {
    if run != [] {
      StepKeepsCounted(c, s, run[0]);
      RunKeepsCounted(c, Exec(c, s, run[0]), run[1..]);
    }
  }

  lemma {:induction false} RunKeepsExact(c: Config, s: State, run: seq<Action>)
    requires c.isolation.RepeatableRead? && Counted(s) && AllExact(c, s) && ValidRun(c, s, run)
    ensures AllExact(c, Run(c, s, run))
    decreases |run|
  {
    if run != [] {
      StepKeepsExact(c, s, run[0]);
      StepKeepsCounted(c, s, run[0]);
      RunKeepsExact(c, Exec(c, s, run[0]), run[1..]);
    }
  }

  /** No update is lost: at any time the balance is the start less one decrement for each commit,
      and commits are those of the clients that succeeded, plus those whose client was told of an
      error. No client runs more often than it may. */
  lemma {:induction false} NoLostUpdates(c: Config, clients: nat, run: seq<Action>)
    requires c.isolation.RepeatableRead? && ValidRun(c, Start(c, clients), run)
    ensures var s := Run(c, Start(c, clients), run);
      && s.balance == c.start - c.decrement * (|s.succeeded| + |s.unheard|)
      && |s.clients| == clients
      && (forall i :: 0 <= i < clients ==> (i in s.succeeded <==> s.clients[i].pc.Succeeded?))
      && (forall i :: 0 <= i < clients ==> s.clients[i].attempt == 1 || s.clients[i].attempt <= c.maxAttempts)
  {
    RunKeepsCounted(c, Start(c, clients), run);
    RunKeepsExact(c, Start(c, clients), run);
    var s := Run(c, Start(c, clients), run);
    forall i | 0 <= i < clients
      ensures (i in s.succeeded <==> s.clients[i].pc.Succeeded?)
        && (s.clients[i].attempt == 1 || s.clients[i].attempt <= c.maxAttempts)
    {
      assert Booked(s, i) && InTry(c, s.clients[i]);
    }
  }

  // ---------------------------------------------------------------- how many attempts are enough

  lemma {:induction false} SmallerThan(xs: set<nat>, n: nat)
    requires forall x :: x in xs ==> x < n
    ensures |xs| <= n
    decreases n
  {
    if n > 0 {
      SmallerThan(xs - {n - 1}, n - 1);
    } else {
      assert xs == {};
    }
  }

  /** How often the work is run at most. */
  function Tries(c: Config): nat {
    if c.maxAttempts > 1 then c.maxAttempts else 1
  }

  ghost predicate SomeoneGivesUp(c: Config, clients: nat) {
    exists run :: GivesUp(c, clients, run)
  }

  ghost predicate GivesUp(c: Config, clients: nat, run: seq<Action>) {
    ValidRun(c, Start(c, clients), run) && exists i :: GaveUpIn(Run(c, Start(c, clients), run), i)
  }

  predicate GaveUpIn(s: State, i: nat) {
    i < |s.clients| && s.clients[i].pc.GaveUp?
  }

  /** Every conflict of a client is some other client's commit: with as many attempts as there are
      clients nobody ever gives up, and with fewer somebody may. */
  lemma EnoughAttempts(c: Config, clients: nat)
    requires c.isolation.RepeatableRead?
    ensures SomeoneGivesUp(c, clients) <==> Tries(c) < clients
  {
    if Tries(c) < clients {
      var run := Duels(Tries(c));
      DuelsLeaveOneBehind(c, clients, Tries(c));
      assert GaveUpIn(Run(c, Start(c, clients), run), 0);
      assert GivesUp(c, clients, run);
    }
    forall run, i | ValidRun(c, Start(c, clients), run) && GaveUpIn(Run(c, Start(c, clients), run), i)
      ensures Tries(c) < clients
    {
      GivingUpTakesMany(c, clients, run, i);
    }
  }

  lemma {:induction false} GivingUpTakesMany(c: Config, clients: nat, run: seq<Action>, i: nat)
    requires c.isolation.RepeatableRead? && ValidRun(c, Start(c, clients), run)
    requires GaveUpIn(Run(c, Start(c, clients), run), i)
    ensures Tries(c) < clients
  {
    RunKeepsCounted(c, Start(c, clients), run);
    RunKeepsExact(c, Start(c, clients), run);
    var s := Run(c, Start(c, clients), run);
    assert InTry(c, s.clients[i]) && Exact(c, s, s.clients[i]) && Booked(s, i);
    CommittersAreOthers(s, i);
  }

  lemma CommittersAreOthers(s: State, i: nat)
    requires Counted(s) && i < |s.clients| && s.clients[i].pc.GaveUp?
    ensures s.version < |s.clients|
  {
    var committed := s.succeeded + s.unheard;
    forall j | j in committed ensures j < |s.clients| && Booked(s, j) {
    }
    assert Booked(s, i);
    assert s.succeeded !! s.unheard;
    assert |committed| == s.version && |committed + {i}| == |committed| + 1;
    SmallerThan(committed + {i}, |s.clients|);
  }

  // ---------------------------------------------------------------- runs, step by step

  lemma {:induction false} RunCons(c: Config, s: State, a: Action, rest: seq<Action>)
    requires Enabled(s, a) && ValidRun(c, Exec(c, s, a), rest)
    ensures ValidRun(c, s, [a] + rest) && Run(c, s, [a] + rest) == Run(c, Exec(c, s, a), rest)
  {
    assert ([a] + rest)[1..] == rest;
  }

  lemma {:induction false} RunAppend(c: Config, s: State, a: seq<Action>, b: seq<Action>)
    requires ValidRun(c, s, a) && ValidRun(c, Run(c, s, a), b)
    ensures ValidRun(c, s, a + b) && Run(c, s, a + b) == Run(c, Run(c, s, a), b)
    decreases |a|
  {
    if a == [] {
      assert a + b == b;
    } else {
      RunAppend(c, Exec(c, s, a[0]), a[1..], b);
      RunCons(c, s, a[0], a[1..] + b);
      assert a + b == [a[0]] + (a[1..] + b);
    }
  }

  // ---------------------------------------------------------------- too few attempts

  /** Client 0 reads; client j reads, writes and commits; client 0 is refused. */
  function Duel(j: nat): seq<Action> {
    [Step(0)] + ([Step(j)] + ([Step(j)] + ([Step(j)] + [Step(0)])))
  }

  function Duels(n: nat): seq<Action> {
    if n == 0 then [] else Duels(n - 1) + Duel(n)
  }

  predicate Ready(s: State, attempt: nat, from: nat) {
    && s.holder == None && |s.clients| > 0 && s.clients[0] == Client(attempt, Idle)
    && forall i :: from <= i < |s.clients| ==> s.clients[i] == Client(1, Idle)
  }

  lemma {:induction false} DuelIsLost(c: Config, s: State, attempt: nat, j: nat)
    requires c.isolation.RepeatableRead? && Ready(s, attempt, j) && 0 < j < |s.clients|
    ensures ValidRun(c, s, Duel(j)) && |Run(c, s, Duel(j)).clients| == |s.clients|
    ensures var s' := Run(c, s, Duel(j));
      if attempt < c.maxAttempts then Ready(s', attempt + 1, j + 1) else GaveUpIn(s', 0)
  {
    var s1 := Exec(c, s, Step(0));
    var s2 := Exec(c, s1, Step(j));
    var s3 := Exec(c, s2, Step(j));
    var s4 := Exec(c, s3, Step(j));
    assert s4.clients[0].pc == Thinking(s.balance, s.version) && s4.version == s.version + 1;
    var s5 := Exec(c, s4, Step(0));
    RunCons(c, s4, Step(0), []);
    RunCons(c, s3, Step(j), [Step(0)]);
    RunCons(c, s2, Step(j), [Step(j)] + [Step(0)]);
    RunCons(c, s1, Step(j), [Step(j)] + ([Step(j)] + [Step(0)]));
    RunCons(c, s, Step(0), [Step(j)] + ([Step(j)] + ([Step(j)] + [Step(0)])));
    assert [Step(0)] + [] == [Step(0)];
  }

  lemma {:induction false} DuelsLeaveOneBehind(c: Config, clients: nat, n: nat)
    requires c.isolation.RepeatableRead? && n < clients && n <= Tries(c)
    ensures ValidRun(c, Start(c, clients), Duels(n))
    ensures |Run(c, Start(c, clients), Duels(n)).clients| == clients
    ensures var s := Run(c, Start(c, clients), Duels(n));
      if n < Tries(c) then Ready(s, n + 1, n + 1) else GaveUpIn(s, 0)
  {
    if n > 0 {
      DuelsLeaveOneBehind(c, clients, n - 1);
      DuelIsLost(c, Run(c, Start(c, clients), Duels(n - 1)), n, n);
      RunAppend(c, Start(c, clients), Duels(n - 1), Duel(n));
    }
  }

  // ---------------------------------------------------------------- READ COMMITTED

  /** Everybody reads first; then, one after the other, everybody writes and commits. */
  function Reads(n: nat): seq<Action> {
    if n == 0 then [] else Reads(n - 1) + [Step(n - 1)]
  }

  function Writes(n: nat): seq<Action> {
    if n == 0 then [] else Writes(n - 1) + ([Step(n - 1)] + [Step(n - 1)])
  }

  predicate AfterReads(c: Config, s: State, n: nat) {
    && s.holder == None && s.balance == c.start && s.succeeded == {} && n <= |s.clients|
    && (forall i :: 0 <= i < n ==> s.clients[i].pc.Thinking? && s.clients[i].pc.current == c.start)
    && (forall i :: n <= i < |s.clients| ==> s.clients[i].pc.Idle?)
  }

  predicate AfterWrites(c: Config, s: State, n: nat) {
    && s.holder == None && n <= |s.clients|
    && s.balance == (if n == 0 then c.start else c.start - c.decrement)
    && (forall i :: 0 <= i < n ==> s.clients[i].pc.Succeeded?)
    && (forall i :: n <= i < |s.clients| ==> s.clients[i].pc.Thinking? && s.clients[i].pc.current == c.start)
  }

  lemma {:induction false} AllRead(c: Config, clients: nat, n: nat)
    requires n <= clients
    ensures ValidRun(c, Start(c, clients), Reads(n))
    ensures AfterReads(c, Run(c, Start(c, clients), Reads(n)), n)
    ensures |Run(c, Start(c, clients), Reads(n)).clients| == clients
  {
    if n > 0 {
      AllRead(c, clients, n - 1);
      var s := Run(c, Start(c, clients), Reads(n - 1));
      RunCons(c, s, Step(n - 1), []);
      assert [Step(n - 1)] + [] == [Step(n - 1)];
      RunAppend(c, Start(c, clients), Reads(n - 1), [Step(n - 1)]);
    }
  }

  lemma {:induction false} OneWrites(c: Config, s: State, i: nat)
    requires c.isolation.ReadCommitted? && AfterWrites(c, s, i) && i < |s.clients|
    ensures ValidRun(c, s, [Step(i)] + [Step(i)])
    ensures AfterWrites(c, Run(c, s, [Step(i)] + [Step(i)]), i + 1)
    ensures |Run(c, s, [Step(i)] + [Step(i)]).clients| == |s.clients|
  {
    var s1 := Exec(c, s, Step(i));
    RunCons(c, s1, Step(i), []);
    assert [Step(i)] + [] == [Step(i)];
    RunCons(c, s, Step(i), [Step(i)]);
  }

  lemma {:induction false} AllWrite(c: Config, s: State, n: nat)
    requires c.isolation.ReadCommitted? && AfterWrites(c, s, 0) && n <= |s.clients|
    ensures ValidRun(c, s, Writes(n)) && AfterWrites(c, Run(c, s, Writes(n)), n)
    ensures |Run(c, s, Writes(n)).clients| == |s.clients|
  {
    if n > 0 {
      AllWrite(c, s, n - 1);
      OneWrites(c, Run(c, s, Writes(n - 1)), n - 1);
      RunAppend(c, s, Writes(n - 1), [Step(n - 1)] + [Step(n - 1)]);
    }
  }

  /** Under READ COMMITTED all of any number of clients may succeed, and all decrements but one be
      lost without an error. */
  lemma {:induction false} AllButOneLost(c: Config, clients: nat)
    requires c.isolation.ReadCommitted? && clients > 0
    ensures ValidRun(c, Start(c, clients), Reads(clients) + Writes(clients))
    ensures var s := Run(c, Start(c, clients), Reads(clients) + Writes(clients));
      && |s.clients| == clients && (forall i :: 0 <= i < clients ==> s.clients[i].pc.Succeeded?)
      && s.balance == c.start - c.decrement
  {
    AllRead(c, clients, clients);
    var s := Run(c, Start(c, clients), Reads(clients));
    AllWrite(c, s, clients);
    RunAppend(c, Start(c, clients), Reads(clients), Writes(clients));
  }
}
