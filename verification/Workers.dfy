/** A pool of workers over a task table: SELECT ... FOR UPDATE SKIP LOCKED LIMIT 1, process,
    commit (src/demo-workers.ts). Tasks are numbered in the order of their ids. */
module Workers {
  import opened Wrappers

  const IDLE_RETRIES: nat := 3

  datatype Status = Pending | Done

  /** A row of `tasks`, as committed. */
  datatype Task = Task(status: Status, processed: nat, attempts: nat, lockedBy: Option<nat>)

  const NEW_TASK := Task(Pending, 0, 0, None)

  /** `Scan(next)`: the claiming query is about to look at task `next`. `Hold`: it locked a task,
      which is being worked on. `Written`: the update is made, not committed. */
  datatype Pc = Scan(next: nat) | Hold(task: nat) | Written(task: nat) | Exited | Lost

  datatype Worker = Worker(pc: Pc, done: nat, idleRounds: nat, idleInARow: nat)

  const NEW_WORKER := Worker(Scan(0), 0, 0, 0)

  /** `locks[i]` is the worker whose transaction holds the row lock of task `i`. */
  datatype State = State(tasks: seq<Task>, locks: seq<Option<nat>>, workers: seq<Worker>)

  datatype Action =
    | Step(w: nat)
    | Fail(w: nat)         // the transaction is rolled back, the worker gone
    | CommitLost(w: nat)   // the commit takes effect, the worker never hears of it

  function Start(tasks: nat, workers: nat): State {
    State(seq(tasks, i => NEW_TASK), seq(tasks, i => None), seq(workers, i => NEW_WORKER))
  }

  // ---------------------------------------------------------------- steps

  predicate Shaped(s: State) {
    && |s.locks| == |s.tasks|
    && forall w :: 0 <= w < |s.workers| ==> TaskExists(s, s.workers[w].pc)
  }

  predicate TaskExists(s: State, pc: Pc) {
    match pc
    case Scan(next) => next <= |s.tasks|
    case Hold(task) => task < |s.tasks|
    case Written(task) => task < |s.tasks|
    case _ => true
  }

  predicate Enabled(s: State, a: Action) {
    && a.w < |s.workers|
    && !s.workers[a.w].pc.Exited? && !s.workers[a.w].pc.Lost?
    && (a.CommitLost? ==> s.workers[a.w].pc.Written?)
  }

  function Processed(t: Task, w: nat): Task {
    Task(Done, t.processed + 1, t.attempts + 1, Some(w))
  }

  /** The query came to the end of the table: an idle round. */
  function IdleRound(worker: Worker): Worker {
    var idle := worker.idleInARow + 1;
    Worker(if idle < IDLE_RETRIES then Scan(0) else Exited, worker.done, worker.idleRounds + 1, idle)
  }

  function Commit(s: State, w: nat): State
    requires Shaped(s) && w < |s.workers| && s.workers[w].pc.Written?
  {
    var t := s.workers[w].pc.task;
    s.(tasks := s.tasks[t := Processed(s.tasks[t], w)], locks := s.locks[t := None])
  }

  function Exec(s: State, a: Action): State
    requires Shaped(s) && Enabled(s, a)
  {
    var w, worker := a.w, s.workers[a.w];
    match a
    case Step(_) =>
      (match worker.pc
       case Scan(k) =>
         if k == |s.tasks| then s.(workers := s.workers[w := IdleRound(worker)])
         else if s.locks[k].None? && s.tasks[k].status.Pending? then
           s.(locks := s.locks[k := Some(w)], workers := s.workers[w := worker.(pc := Hold(k))])
         else s.(workers := s.workers[w := worker.(pc := Scan(k + 1))])
       case Hold(t) => s.(workers := s.workers[w := worker.(pc := Written(t))])
       case Written(_) =>
         var s' := Commit(s, w);
         s'.(workers := s.workers[w := Worker(Scan(0), worker.done + 1, worker.idleRounds, 0)])
       case Exited => s
       case Lost => s)
    case Fail(_) =>
      var lost := s.(workers := s.workers[w := worker.(pc := Lost)]);
      if worker.pc.Hold? || worker.pc.Written? then lost.(locks := s.locks[worker.pc.task := None]) else lost
    case CommitLost(_) => Commit(s, w).(workers := s.workers[w := worker.(pc := Lost)])
  }

  predicate ValidRun(s: State, run: seq<Action>)
    requires Shaped(s)
    decreases |run|
  {
    run == [] || (Enabled(s, run[0]) && (StepKeepsShape(s, run[0]); ValidRun(Exec(s, run[0]), run[1..])))
  }

  function Run(s: State, run: seq<Action>): State
    requires Shaped(s) && ValidRun(s, run)
    decreases |run|
  {
    if run == [] then s else (StepKeepsShape(s, run[0]); Run(Exec(s, run[0]), run[1..]))
  }

  lemma StepKeepsShape(s: State, a: Action)
    requires Shaped(s) && Enabled(s, a)
    ensures Shaped(Exec(s, a)) && |Exec(s, a).tasks| == |s.tasks| && |Exec(s, a).workers| == |s.workers|
  {
    var s' := Exec(s, a);
    forall w | 0 <= w < |s'.workers| ensures TaskExists(s', s'.workers[w].pc) {
      assert TaskExists(s, s.workers[w].pc);
    }
  }

  // ---------------------------------------------------------------- counting

  function Sum(xs: seq<nat>): nat {
    if xs == [] then 0 else xs[0] + Sum(xs[1..])
  }

  lemma {:induction false} SumUpdate(xs: seq<nat>, i: nat, x: nat)
    requires i < |xs|
    ensures Sum(xs[i := x]) + xs[i] == Sum(xs) + x
  {
    if i == 0 {
      assert xs[i := x][1..] == xs[1..];
    } else {
      assert xs[i := x][1..] == xs[1..][i - 1 := x];
      SumUpdate(xs[1..], i - 1, x);
    }
  }

  lemma {:induction false} SumOfEqual(xs: seq<nat>, x: nat)
    requires forall i :: 0 <= i < |xs| ==> xs[i] == x
    ensures Sum(xs) == |xs| * x
  {
    if xs != [] {
      SumOfEqual(xs[1..], x);
    }
  }

  /** What each worker counted. */
  function Counts(s: State): seq<nat> {
    seq(|s.workers|, w requires 0 <= w < |s.workers| => s.workers[w].done)
  }

  /** What the table says: `processed` of each task. */
  function TimesProcessed(s: State): seq<nat> {
    seq(|s.tasks|, i requires 0 <= i < |s.tasks| => s.tasks[i].processed)
  }

  // ---------------------------------------------------------------- the invariant

  predicate Holding(pc: Pc, i: nat) {
    (pc.Hold? || pc.Written?) && pc.task == i
  }

  /** The lock of a row belongs to the worker that holds the row, and the other way round. */
  predicate LockOf(s: State, w: nat, i: nat)
    requires Shaped(s) && w < |s.workers| && i < |s.tasks|
  {
    s.locks[i] == Some(w) <==> Holding(s.workers[w].pc, i)
  }

  predicate GoodTask(s: State, i: nat)
    requires Shaped(s) && i < |s.tasks|
  {
    var t := s.tasks[i];
    && t.processed == t.attempts == (if t.status.Done? then 1 else 0)
    && (t.status.Done? <==> t.lockedBy.Some?)
    && (t.lockedBy.Some? ==> t.lockedBy.value < |s.workers|)
    && (s.locks[i].Some? ==> s.locks[i].value < |s.workers| && t.status.Pending?)
  }

  predicate Inv(s: State) {
    && Shaped(s)
    && (forall i :: 0 <= i < |s.tasks| ==> GoodTask(s, i))
    && (forall w, i :: 0 <= w < |s.workers| && 0 <= i < |s.tasks| ==> LockOf(s, w, i))
    && Sum(Counts(s)) <= Sum(TimesProcessed(s))
  }

  lemma StepKeepsLocks(s: State, a: Action, w: nat, i: nat)
    requires Inv(s) && Enabled(s, a) && w < |s.workers| && i < |s.tasks|
    ensures Shaped(Exec(s, a)) && |Exec(s, a).tasks| == |s.tasks| && |Exec(s, a).workers| == |s.workers|
    ensures LockOf(Exec(s, a), w, i)
  {
    StepKeepsShape(s, a);
    assert LockOf(s, w, i) && LockOf(s, a.w, i) && GoodTask(s, i);
  }

  lemma StepKeepsTasks(s: State, a: Action, i: nat)
    requires Inv(s) && Enabled(s, a) && i < |s.tasks|
    ensures Shaped(Exec(s, a)) && |Exec(s, a).tasks| == |s.tasks|
    ensures GoodTask(Exec(s, a), i)
  {
    StepKeepsShape(s, a);
    assert LockOf(s, a.w, i) && GoodTask(s, i);
  }

  lemma CountsAfter(s: State, s': State, w: nat)
    requires w < |s.workers| == |s'.workers| && s'.workers == s.workers[w := s'.workers[w]]
    ensures Sum(Counts(s')) + s.workers[w].done == Sum(Counts(s)) + s'.workers[w].done
  {
    assert Counts(s') == Counts(s)[w := s'.workers[w].done];
    SumUpdate(Counts(s), w, s'.workers[w].done);
  }

  lemma TimesAfter(s: State, s': State, i: nat)
    requires i < |s.tasks| == |s'.tasks| && s'.tasks == s.tasks[i := s'.tasks[i]]
    ensures Sum(TimesProcessed(s')) + s.tasks[i].processed == Sum(TimesProcessed(s)) + s'.tasks[i].processed
  {
    assert TimesProcessed(s') == TimesProcessed(s)[i := s'.tasks[i].processed];
    SumUpdate(TimesProcessed(s), i, s'.tasks[i].processed);
  }

  /** What is counted and what is committed move together, but for a commit nobody hears of. */
  lemma StepCounts(s: State, a: Action)
    requires Inv(s) && Enabled(s, a)
    ensures Shaped(Exec(s, a))
    ensures var s' := Exec(s, a);
      Sum(Counts(s')) + Sum(TimesProcessed(s)) + (if a.CommitLost? then 1 else 0)
      == Sum(Counts(s)) + Sum(TimesProcessed(s'))
  {
    StepKeepsShape(s, a);
    var s' := Exec(s, a);
    CountsAfter(s, s', a.w);
    if s.workers[a.w].pc.Written? && !a.Fail? {
      TimesAfter(s, s', s.workers[a.w].pc.task);
    }
  }

  lemma StepKeepsInv(s: State, a: Action)
    requires Inv(s) && Enabled(s, a)
    ensures Inv(Exec(s, a))
  {
    StepKeepsShape(s, a);
    var s' := Exec(s, a);
    forall i | 0 <= i < |s'.tasks| ensures GoodTask(s', i) {
      StepKeepsTasks(s, a, i);
    }
    forall w, i | 0 <= w < |s'.workers| && 0 <= i < |s'.tasks| ensures LockOf(s', w, i) {
      StepKeepsLocks(s, a, w, i);
    }
    StepCounts(s, a);
  }

  lemma {:induction false} RunKeepsInv(s: State, run: seq<Action>)
    requires Inv(s) && ValidRun(s, run)
    ensures Inv(Run(s, run))
    decreases |run|
  {
    if run != [] {
      StepKeepsInv(s, run[0]);
      RunKeepsInv(Exec(s, run[0]), run[1..]);
    }
  }

  lemma StartInv(tasks: nat, workers: nat)
    ensures Inv(Start(tasks, workers))
  {
    var s := Start(tasks, workers);
    SumOfEqual(Counts(s), 0);
  }

  // ---------------------------------------------------------------- exactly once

  predicate HasTask(s: State, w: int, i: nat) {
    0 <= w < |s.workers| && Holding(s.workers[w].pc, i)
  }

  /** In every reachable state, whatever workers were lost: no task is in the hands of two workers,
      none was processed twice, it was processed exactly if it is done, and the counts never
      exceed what was processed. */
  lemma {:induction false} NeverTwice(tasks: nat, workers: nat, run: seq<Action>)
    requires Shaped(Start(tasks, workers)) && ValidRun(Start(tasks, workers), run)
    ensures var s := Run(Start(tasks, workers), run);
      && (forall v, w, i :: 0 <= i < |s.tasks| && HasTask(s, v, i) && HasTask(s, w, i) ==> v == w)
      && (forall i :: 0 <= i < |s.tasks| ==> s.tasks[i].processed <= 1)
      && (forall i :: 0 <= i < |s.tasks| ==> (s.tasks[i].processed == 1 <==> s.tasks[i].status.Done?))
      && Sum(Counts(s)) <= Sum(TimesProcessed(s))
  {
    StartInv(tasks, workers);
    RunKeepsInv(Start(tasks, workers), run);
    var s := Run(Start(tasks, workers), run);
    forall v, w, i | 0 <= i < |s.tasks| && HasTask(s, v, i) && HasTask(s, w, i) ensures v == w {
      assert LockOf(s, v, i) && LockOf(s, w, i);
    }
    forall i | 0 <= i < |s.tasks| ensures s.tasks[i].processed <= 1 && (s.tasks[i].processed == 1 <==> s.tasks[i].status.Done?) {
      assert GoodTask(s, i);
    }
  }

  // ---------------------------------------------------------------- whose work it was

  /** The rows that bear worker w's name. */
  function Named(s: State, w: nat): seq<nat> {
    seq(|s.tasks|, i requires 0 <= i < |s.tasks| => if s.tasks[i].lockedBy == Some(w) then 1 else 0)
  }

  /** A worker has counted the rows that bear its name; one that was lost may have missed its last. */
  predicate Credited(s: State, w: nat)
    requires w < |s.workers|
  {
    var done, named := s.workers[w].done, Sum(Named(s, w));
    if s.workers[w].pc.Lost? then done <= named <= done + 1 else done == named
  }

  lemma NamedAfter(s: State, s': State, t: nat, w: nat, v: nat)
    requires t < |s.tasks| && s.tasks[t].lockedBy == None && s'.tasks == s.tasks[t := Processed(s.tasks[t], w)]
    ensures Sum(Named(s', v)) == Sum(Named(s, v)) + if v == w then 1 else 0
  {
    assert Named(s', v) == Named(s, v)[t := if v == w then 1 else 0];
    SumUpdate(Named(s, v), t, if v == w then 1 else 0);
  }

  lemma StepKeepsCredit(s: State, a: Action, v: nat)
    requires Inv(s) && Enabled(s, a) && v < |s.workers| && Credited(s, v)
    ensures Shaped(Exec(s, a)) && |Exec(s, a).workers| == |s.workers|
    ensures Credited(Exec(s, a), v)
  {
    StepKeepsShape(s, a);
    var s', pc := Exec(s, a), s.workers[a.w].pc;
    if pc.Written? && !a.Fail? {
      assert LockOf(s, a.w, pc.task) && GoodTask(s, pc.task);
      NamedAfter(s, s', pc.task, a.w, v);
    } else {
      assert Named(s', v) == Named(s, v);
    }
  }

  lemma {:induction false} RunKeepsCredit(s: State, run: seq<Action>, w: nat)
    requires Inv(s) && ValidRun(s, run) && w < |s.workers| && Credited(s, w)
    ensures w < |Run(s, run).workers| && Credited(Run(s, run), w)
    decreases |run|
  {
    if run != [] {
      StepKeepsCredit(s, run[0], w);
      StepKeepsInv(s, run[0]);
      RunKeepsCredit(Exec(s, run[0]), run[1..], w);
    }
  }

  /** A success is counted and starts the idle rounds anew; a scan that found nothing is an idle round,
      and the third in a row is the last. */
  lemma WorkerGoesRound(s: State, w: nat)
    requires Shaped(s) && Enabled(s, Step(w))
    ensures Shaped(Exec(s, Step(w))) && w < |Exec(s, Step(w)).workers|
    ensures var before, after := s.workers[w], Exec(s, Step(w)).workers[w];
      && (before.pc.Written? ==> after == Worker(Scan(0), before.done + 1, before.idleRounds, 0))
      && (before.pc == Scan(|s.tasks|) ==>
            && after.done == before.done && after.idleRounds == before.idleRounds + 1
            && after.idleInARow == before.idleInARow + 1
            && (after.pc == Exited <==> before.idleInARow + 1 >= 3) && (after.pc == Scan(0) <==> before.idleInARow + 1 < 3))
      && (before.pc.Hold? || (before.pc.Scan? && before.pc.next < |s.tasks|) ==>
            after.done == before.done && after.idleRounds == before.idleRounds && after.idleInARow == before.idleInARow)
  {
    StepKeepsShape(s, Step(w));
    assert TaskExists(s, s.workers[w].pc);
  }

  /** In every reachable state a worker's count is the number of done rows that bear its name; only
      one that was lost may be one short. */
  lemma {:induction false} CountsAreTheirOwn(tasks: nat, workers: nat, run: seq<Action>, w: nat)
    requires w < workers && Shaped(Start(tasks, workers)) && ValidRun(Start(tasks, workers), run)
    ensures w < |Run(Start(tasks, workers), run).workers| && Credited(Run(Start(tasks, workers), run), w)
  {
    StartInv(tasks, workers);
    SumOfEqual(Named(Start(tasks, workers), w), 0);
    RunKeepsCredit(Start(tasks, workers), run, w);
  }

  // ---------------------------------------------------------------- nothing is left

  predicate NoFailures(run: seq<Action>) {
    forall i :: 0 <= i < |run| ==> run[i].Step?
  }

  predicate TakenCareOf(s: State, i: nat)
    requires Shaped(s) && i < |s.tasks|
  {
    s.tasks[i].status.Done? || s.locks[i].Some?
  }

  /** All a worker has passed since its last success is done or in somebody's hands. */
  predicate Passed(s: State, w: nat)
    requires Shaped(s) && w < |s.workers|
  {
    var worker := s.workers[w];
    var upTo := if worker.pc.Exited? || worker.idleInARow > 0 then |s.tasks|
                else if worker.pc.Scan? then worker.pc.next else 0;
    !worker.pc.Lost? && forall i :: 0 <= i < upTo && i < |s.tasks| ==> TakenCareOf(s, i)
  }

  lemma StaysTakenCareOf(s: State, a: Action, i: nat)
    requires Inv(s) && Enabled(s, a) && a.Step? && i < |s.tasks| && TakenCareOf(s, i)
    ensures Shaped(Exec(s, a)) && |Exec(s, a).tasks| == |s.tasks|
    ensures TakenCareOf(Exec(s, a), i)
  {
    StepKeepsShape(s, a);
  }

  lemma StepKeepsPassed(s: State, a: Action, w: nat)
    requires Inv(s) && Enabled(s, a) && a.Step? && w < |s.workers| && Passed(s, w)
    ensures Inv(Exec(s, a)) && w < |Exec(s, a).workers| && Passed(Exec(s, a), w)
  {
    StepKeepsShape(s, a);
    StepKeepsInv(s, a);
    var s' := Exec(s, a);
    forall i | 0 <= i < |s.tasks| && TakenCareOf(s, i) ensures TakenCareOf(s', i) {
      StaysTakenCareOf(s, a, i);
    }
  }

  lemma {:induction false} RunKeepsPassed(s: State, run: seq<Action>, w: nat)
    requires Inv(s) && ValidRun(s, run) && NoFailures(run) && w < |s.workers| && Passed(s, w)
    ensures Inv(Run(s, run)) && w < |Run(s, run).workers| && Passed(Run(s, run), w)
    decreases |run|
  {
    if run != [] {
      StepKeepsPassed(s, run[0], w);
      assert NoFailures(run[1..]);
      RunKeepsPassed(Exec(s, run[0]), run[1..], w);
    }
  }

  predicate AllGone(s: State) {
    forall w :: 0 <= w < |s.workers| ==> s.workers[w].pc.Exited? || s.workers[w].pc.Lost?
  }

  /** Whatever was lost before, if from some moment on nothing fails and one worker is then still
      at the start of a query after a success (or its first), no task is left once the workers
      are gone. */
  lemma {:induction false} SurvivorFinishes(s: State, run: seq<Action>, w: nat)
    requires Inv(s) && w < |s.workers| && s.workers[w].pc == Scan(0) && s.workers[w].idleInARow == 0
    requires ValidRun(s, run) && NoFailures(run) && AllGone(Run(s, run))
    ensures forall i :: 0 <= i < |Run(s, run).tasks| ==> Run(s, run).tasks[i].status.Done?
  {
    RunKeepsPassed(s, run, w);
    var s' := Run(s, run);
    assert s'.workers[w].pc.Exited?;
    forall i | 0 <= i < |s'.tasks| ensures s'.tasks[i].status.Done? {
      assert TakenCareOf(s', i) && GoodTask(s', i);
      assert s'.locks[i].Some? ==> LockOf(s', s'.locks[i].value, i);
    }
  }

  lemma {:induction false} RunCounts(s: State, run: seq<Action>)
    requires Inv(s) && ValidRun(s, run) && NoFailures(run)
    ensures Sum(Counts(Run(s, run))) + Sum(TimesProcessed(s)) == Sum(Counts(s)) + Sum(TimesProcessed(Run(s, run)))
    ensures |Run(s, run).tasks| == |s.tasks| && |Run(s, run).workers| == |s.workers|
    decreases |run|
  {
    if run != [] {
      StepKeepsShape(s, run[0]);
      StepKeepsInv(s, run[0]);
      StepCounts(s, run[0]);
      assert NoFailures(run[1..]);
      RunCounts(Exec(s, run[0]), run[1..]);
    }
  }

  /** If no transaction fails, then once all workers of a pool have exited every task was
      processed exactly once, and what the workers counted adds up to the number of tasks. */
  lemma {:induction false} PoolFinishes(tasks: nat, workers: nat, run: seq<Action>)
    requires workers > 0 && Shaped(Start(tasks, workers)) && ValidRun(Start(tasks, workers), run)
    requires NoFailures(run) && AllGone(Run(Start(tasks, workers), run))
    ensures var s := Run(Start(tasks, workers), run);
      && (forall i :: 0 <= i < tasks ==> i < |s.tasks| && s.tasks[i].status.Done? && s.tasks[i].processed == 1)
      && Sum(Counts(s)) == tasks
  {
    var s0 := Start(tasks, workers);
    StartInv(tasks, workers);
    RunKeepsInv(s0, run);
    RunCounts(s0, run);
    SurvivorFinishes(s0, run, 0);
    var s := Run(s0, run);
    forall i | 0 <= i < |s.tasks| ensures s.tasks[i].processed == 1 {
      assert GoodTask(s, i);
    }
    SumOfEqual(Counts(s0), 0);
    SumOfEqual(TimesProcessed(s0), 0);
    SumOfEqual(TimesProcessed(s), 1);
  }

  // ---------------------------------------------------------------- every run ends

  /** How many steps a worker has left if it finds no task any more. */
  function StepsLeft(worker: Worker, tasks: nat): nat {
    match worker.pc
    case Scan(k) =>
      var idle := if worker.idleInARow < IDLE_RETRIES then worker.idleInARow else IDLE_RETRIES - 1;
      (IDLE_RETRIES - 1 - idle) * (tasks + 1) + (if k <= tasks then tasks + 1 - k else 0) + 2
    case Hold(_) => 2
    case Written(_) => 1
    case Exited => 0
    case Lost => 0
  }

  function Lefts(s: State): seq<nat> {
    seq(|s.workers|, w requires 0 <= w < |s.workers| => StepsLeft(s.workers[w], |s.tasks|))
  }

  function Unprocessed(s: State): seq<nat> {
    seq(|s.tasks|, i requires 0 <= i < |s.tasks| => if s.tasks[i].status.Done? then 0 else 1)
  }

  /** A success starts a worker's count of idle rounds anew. */
  function Fuel(s: State): nat {
    Sum(Unprocessed(s)) * (3 * (|s.tasks| + 1) + 2) + Sum(Lefts(s))
  }

  predicate Idling(s: State) {
    forall w :: 0 <= w < |s.workers| && s.workers[w].pc.Scan? ==> s.workers[w].idleInARow < IDLE_RETRIES
  }

  lemma LeftsAfter(s: State, s': State, w: nat)
    requires w < |s.workers| == |s'.workers| && s'.workers == s.workers[w := s'.workers[w]] && |s'.tasks| == |s.tasks|
    ensures Sum(Lefts(s')) + StepsLeft(s.workers[w], |s.tasks|) == Sum(Lefts(s)) + StepsLeft(s'.workers[w], |s.tasks|)
  {
    assert Lefts(s') == Lefts(s)[w := StepsLeft(s'.workers[w], |s.tasks|)];
    SumUpdate(Lefts(s), w, StepsLeft(s'.workers[w], |s.tasks|));
  }

  lemma UnprocessedAfter(s: State, s': State, i: nat)
    requires i < |s.tasks| == |s'.tasks| && s.tasks[i].status.Pending?
    requires s'.tasks == s.tasks[i := s'.tasks[i]] && s'.tasks[i].status.Done?
    ensures Sum(Unprocessed(s')) + 1 == Sum(Unprocessed(s))
  {
    assert Unprocessed(s') == Unprocessed(s)[i := 0];
    SumUpdate(Unprocessed(s), i, 0);
  }

  /** Steps other than a commit bring their worker nearer to its end. */
  lemma WorkerGetsOn(s: State, a: Action)
    requires Shaped(s) && Idling(s) && Enabled(s, a) && (s.workers[a.w].pc.Written? ==> a.Fail?)
    ensures Shaped(Exec(s, a)) && |Exec(s, a).workers| == |s.workers|
    ensures Exec(s, a).tasks == s.tasks
    ensures StepsLeft(Exec(s, a).workers[a.w], |s.tasks|) < StepsLeft(s.workers[a.w], |s.tasks|)
  {
    StepKeepsShape(s, a);
    assert TaskExists(s, s.workers[a.w].pc);
    var before, after := s.workers[a.w], Exec(s, a).workers[a.w];
    if a.Step? && before.pc.Scan? && before.pc.next == |s.tasks| && after.pc.Scan? {
      assert (IDLE_RETRIES - 1 - before.idleInARow) * (|s.tasks| + 1)
        == (IDLE_RETRIES - 1 - after.idleInARow) * (|s.tasks| + 1) + (|s.tasks| + 1);
    }
  }

  /** A commit may set its worker back, but there is one task less. */
  lemma CommitGetsOn(s: State, a: Action)
    requires Inv(s) && Enabled(s, a) && s.workers[a.w].pc.Written? && !a.Fail?
    ensures Shaped(Exec(s, a)) && |Exec(s, a).workers| == |s.workers|
    ensures Sum(Unprocessed(Exec(s, a))) + 1 == Sum(Unprocessed(s))
    ensures StepsLeft(Exec(s, a).workers[a.w], |s.tasks|) <= 3 * (|s.tasks| + 1) + 2
  {
    StepKeepsShape(s, a);
    var t := s.workers[a.w].pc.task;
    assert LockOf(s, a.w, t) && GoodTask(s, t);
    UnprocessedAfter(s, Exec(s, a), t);
  }

  lemma StepKeepsIdling(s: State, a: Action)
    requires Shaped(s) && Idling(s) && Enabled(s, a)
    ensures Idling(Exec(s, a))
  {
  }

  lemma LessFuel(n: nat, k: nat, before: nat, after: nat)
    requires after < before + k
    ensures n * k + after < (n + 1) * k + before
  {
    assert (n + 1) * k == n * k + k;
  }

  lemma StepBurnsFuel(s: State, a: Action)
    requires Inv(s) && Idling(s) && Enabled(s, a)
    ensures Inv(Exec(s, a)) && Idling(Exec(s, a)) && Fuel(Exec(s, a)) < Fuel(s)
  {
    StepKeepsInv(s, a);
    StepKeepsShape(s, a);
    StepKeepsIdling(s, a);
    var s', k := Exec(s, a), 3 * (|s.tasks| + 1) + 2;
    assert s'.workers == s.workers[a.w := s'.workers[a.w]];
    LeftsAfter(s, s', a.w);
    if s.workers[a.w].pc.Written? && !a.Fail? {
      CommitGetsOn(s, a);
      LessFuel(Sum(Unprocessed(s')), k, Sum(Lefts(s)), Sum(Lefts(s')));
    } else {
      WorkerGetsOn(s, a);
      assert Unprocessed(s') == Unprocessed(s);
    }
  }

  lemma {:induction false} RunsAreShorterThanFuel(s: State, run: seq<Action>)
    requires Inv(s) && Idling(s) && ValidRun(s, run)
    ensures |run| <= Fuel(s)
    decreases |run|
  {
    if run != [] {
      StepBurnsFuel(s, run[0]);
      RunsAreShorterThanFuel(Exec(s, run[0]), run[1..]);
    }
  }

  lemma StartFuel(tasks: nat, workers: nat)
    ensures Fuel(Start(tasks, workers)) == (tasks + workers) * (3 * tasks + 5)
    ensures Idling(Start(tasks, workers))
  {
    var s, k := Start(tasks, workers), 3 * (tasks + 1) + 2;
    SumOfEqual(Unprocessed(s), 1);
    SumOfEqual(Lefts(s), k);
    assert tasks * k + workers * k == (tasks + workers) * k;
  }

  /** Every run of a pool ends, within a number of steps known beforehand; and it can only end
      with all workers gone, since a worker that is not can always step: SKIP LOCKED never
      waits. */
  lemma {:induction false} PoolStops(tasks: nat, workers: nat, run: seq<Action>)
    requires Shaped(Start(tasks, workers)) && ValidRun(Start(tasks, workers), run)
    ensures |run| <= (tasks + workers) * (3 * tasks + 5)
    ensures SomeoneCanStep(Run(Start(tasks, workers), run)) <==> !AllGone(Run(Start(tasks, workers), run))
  {
    StartInv(tasks, workers);
    StartFuel(tasks, workers);
    RunsAreShorterThanFuel(Start(tasks, workers), run);
    RunnerCanStep(Run(Start(tasks, workers), run));
  }

  ghost predicate SomeoneCanStep(s: State) {
    exists w: nat :: Enabled(s, Step(w))
  }

  lemma RunnerCanStep(s: State)
    ensures SomeoneCanStep(s) <==> !AllGone(s)
  {
    forall w | 0 <= w < |s.workers| && !(s.workers[w].pc.Exited? || s.workers[w].pc.Lost?)
      ensures SomeoneCanStep(s)
    {
      assert Enabled(s, Step(w));
    }
  }

  // ---------------------------------------------------------------- the code of a worker

  datatype WorkerStats = WorkerStats(name: nat, done: nat, idleRounds: nat)

  /** The task table, with the rows that other transactions keep locked. */
  class TaskTable {
    const rows: array<Task>
    const locked: set<nat>

    constructor (tasks: nat, others: set<nat>)
      ensures rows.Length == tasks && fresh(rows) && locked == others
      ensures forall i :: 0 <= i < tasks ==> rows[i] == NEW_TASK
    {
      rows := new Task[tasks](i => NEW_TASK);
      locked := others;
    }

    /** A pending task nobody else has locked. */
    predicate Free(i: nat)
      requires i < rows.Length
      reads rows
    {
      rows[i].status.Pending? && i !in locked
    }

    method ClaimWithSql() returns (claimed: Option<nat>)
      ensures claimed.Some? ==> claimed.value < rows.Length && Free(claimed.value)
      ensures forall i :: 0 <= i < (if claimed.Some? then claimed.value else rows.Length) ==> !Free(i)
    {
      var next := 0;
      while next < rows.Length
        invariant 0 <= next <= rows.Length
        invariant forall i :: 0 <= i < next ==> !Free(i)
      {
        if rows[next].status.Pending? && next !in locked { return Some(next); }
        next := next + 1;
      }
      return None;
    }

    /** A worker on its own does every free task once, touches nothing else, and stops after three
        idle rounds in a row. */
    method RunWorker(name: nat) returns (stats: WorkerStats)
      modifies rows
      ensures forall i :: 0 <= i < rows.Length ==>
        rows[i] == if old(Free(i)) then Task(Done, old(rows[i]).processed + 1, old(rows[i]).attempts + 1, Some(name))
                   else old(rows[i])
      ensures stats == WorkerStats(name, |set i: nat | i < rows.Length && old(Free(i))|, IDLE_RETRIES)
    {
      var done, idleRounds, idleInARow := 0, 0, 0;
      ghost var finished: set<nat> := {};
      while idleInARow < IDLE_RETRIES
        invariant idleInARow == idleRounds <= IDLE_RETRIES
        invariant done == |finished|
        invariant forall i :: i in finished ==> i < rows.Length && old(Free(i))
        invariant forall i :: 0 <= i < rows.Length ==>
          rows[i] == if i in finished then Processed(old(rows[i]), name) else old(rows[i])
        invariant idleInARow > 0 ==> forall i :: 0 <= i < rows.Length ==> !Free(i)
        decreases rows.Length - |finished|, IDLE_RETRIES - idleInARow
      {
        var claimed := ClaimWithSql();
        if claimed.Some? {
          var t := claimed.value;
          assert old(Free(t)) && t !in finished;
          rows[t] := Processed(rows[t], name);
          finished := finished + {t};
          FewerThan(finished, rows.Length);
          done := done + 1;
          idleInARow := 0;
        } else {
          idleRounds := idleRounds + 1;
          idleInARow := idleInARow + 1;
        }
      }
      assert finished == set i: nat | i < rows.Length && old(Free(i)) by {
        forall i: nat | i < rows.Length && old(Free(i)) ensures i in finished { assert !Free(i); }
      }
      stats := WorkerStats(name, done, idleRounds);
    }
  }

  lemma {:induction false} FewerThan(xs: set<nat>, n: nat)
    requires forall x :: x in xs ==> x < n
    ensures |xs| <= n
    decreases n
  {
    if n > 0 {
      FewerThan(xs - {n - 1}, n - 1);
    } else {
      assert xs == {};
    }
  }
}
