/** Single flight: what a burst of readers on a cold key costs (src/redis/cache.ts:90-125). */
module CacheBurst {
  import opened Wrappers
  import opened Cache

  /** `loadMs` bounds the time from taking the lock to the write of the value, `replyMs` the time
      from an answer of Redis to the look at the clock after it. */
  datatype Timing = Timing(loadMs: nat, replyMs: nat)

  /** Who polls while the load lasts looks at the clock again before the deadline. Nobody polls
      sooner than after one sleep. */
  predicate Patient(c: Config, t: Timing) {
    (if t.loadMs < LOCK_POLL_MS then 0 else t.loadMs) + t.replyMs < c.lockWaitMs
  }

  /** The value runs out before anybody's patience does. */
  predicate Fleeting(c: Config, t: Timing) {
    t.loadMs + 1000 * (c.ttlSeconds + c.jitterSeconds) <= c.lockWaitMs
  }

  /** The load and its write end within the lock's time to live and the wait of the others. */
  predicate WithinLimits(c: Config, t: Timing) {
    t.loadMs < c.lockTtlMs && (Patient(c, t) || Fleeting(c, t))
  }

  predicate Loads(pc: Pc) {
    pc.SecondGet? || pc.Load? || pc.Write?
  }

  predicate Prompt(t: Timing, s: State, pc: Pc) {
    && (Loads(pc) ==> s.now <= pc.lockedAt + t.loadMs)
    && (pc.Wait? ==> s.now <= pc.polledAt + t.replyMs)
  }

  /** Everybody is in time, and the value under the key has not run out. */
  predicate InTime(t: Timing, s: State) {
    && (forall r :: r in s.readers ==> Prompt(t, s, s.readers[r].pc))
    && (s.entry.Some? ==> s.now < s.entry.value.expireAt)
  }

  /** Nothing is evicted, the load and its write do not fail, the value is null or, if not `isNull`,
      it is not. Unlocks may fail, and readers that do not load may be lost. */
  predicate Smooth(s: State, a: Action, isNull: bool)
    requires Enabled(s, a)
  {
    && !a.Evict? && !a.Throws? && !a.WriteFailed?
    && (a.Crash? ==> !Loads(s.readers[a.r].pc))
    && (a.Loaded? ==> (a.value.None? <==> isNull))
  }

  predicate SmoothRun(c: Config, t: Timing, isNull: bool, s: State, run: seq<Action>)
    requires ValidRun(c, s, run)
    decreases |run|
  {
    InTime(t, s) && (run == [] || (Smooth(s, run[0], isNull) && SmoothRun(c, t, isNull, Exec(c, s, run[0]), run[1..])))
  }

  // ---------------------------------------------------------------- three phases

  predicate Early(pc: Pc) {
    pc.FirstGet? || pc.TakeLock?
  }

  /** Nobody has taken the lock yet. */
  predicate Cold(s: State) {
    && s.entry == None && s.lock == None && s.started == 0 && s.loads == [] && s.answers == []
    && forall r :: r in s.readers ==> Early(s.readers[r].pc)
  }

  /** A reader behind a lock taken at `lockedAt`. */
  predicate Queued(c: Config, s: State, pc: Pc, lockedAt: nat) {
    || Early(pc)
    || pc.Refused?
    || (pc.Wait? && pc.polledAt <= s.now && pc.deadline >= lockedAt + c.lockWaitMs
        && (pc.deadline >= pc.polledAt + c.lockWaitMs || pc.polledAt >= lockedAt + LOCK_POLL_MS))
    || (pc.Sleep? && pc.deadline >= lockedAt + c.lockWaitMs && pc.wakeAt >= lockedAt + LOCK_POLL_MS)
  }

  predicate OwnsLock(c: Config, s: State, q: nat)
    requires q in s.readers && Loads(s.readers[q].pc)
  {
    && s.lock == Some(Lock(s.readers[q].token, s.readers[q].pc.lockedAt + c.lockTtlMs))
    && s.readers[q].pc.lockedAt <= s.now
  }

  /** Reader `q` has the lock and is the only one to load. */
  predicate Busy(c: Config, s: State, q: nat) {
    && q in s.readers && Loads(s.readers[q].pc) && OwnsLock(c, s, q)
    && s.entry == None && s.answers == []
    && s.started == (if s.readers[q].pc.SecondGet? then 0 else 1)
    && (if s.readers[q].pc.Write?
        then |s.loads| == 1 && s.loads[0].value.Some? && s.readers[q].pc.load == 0
        else s.loads == [])
    && forall r :: r in s.readers && r != q ==> Queued(c, s, s.readers[r].pc, s.readers[q].pc.lockedAt)
  }

  predicate FromTheLoad(s: State, a: Answer) {
    |s.loads| == 1 && a.load == 0 && a.value == s.loads[0].value
  }

  predicate OutlastsValue(s: State, deadline: nat) {
    s.entry.Some? && s.entry.value.expireAt <= deadline
  }

  /** A reader once the value is cached: none of them can run out of patience. */
  predicate Served(t: Timing, s: State, pc: Pc) {
    && !pc.FreeLoad? && !pc.Load? && !pc.Write?
    && (pc.Wait? ==> pc.polledAt + t.replyMs < pc.deadline || OutlastsValue(s, pc.deadline))
    && (pc.Unlock? && pc.result.Some? ==> FromTheLoad(s, pc.result.value))
  }

  /** The value is cached. */
  predicate Warm(c: Config, t: Timing, s: State) {
    && s.started == 1 && |s.loads| == 1 && s.loads[0].value.Some?
    && s.entry.Some? && s.entry.value.load == 0 && s.entry.value.value == s.loads[0].value
    && (Fleeting(c, t) ==> s.entry.value.expireAt <= s.now + c.lockWaitMs)
    && (forall r :: r in s.readers ==> Served(t, s, s.readers[r].pc))
    && (forall i :: 0 <= i < |s.answers| ==> FromTheLoad(s, s.answers[i]))
  }

  ghost predicate SomeoneLoads(c: Config, s: State) {
    exists q :: Busy(c, s, q)
  }

  ghost predicate Phase(c: Config, t: Timing, s: State) {
    Cold(s) || SomeoneLoads(c, s) || Warm(c, t, s)
  }

  // ---------------------------------------------------------------- every step keeps the phases in order

  lemma FromCold(c: Config, s: State, a: Action)
    requires Cold(s) && Enabled(s, a) && Smooth(s, a, false)
    ensures Cold(Exec(c, s, a)) || SomeoneLoads(c, Exec(c, s, a))
  {
    var s' := Exec(c, s, a);
    if a.Step? && s.readers[a.r].pc.TakeLock? {
      assert Busy(c, s', a.r);
    }
  }

  lemma QueuedStepStaysQueued(c: Config, t: Timing, s: State, a: Action, lockedAt: nat)
    requires WithinLimits(c, t) && s.entry == None && LockLive(s)
    requires lockedAt <= s.now <= lockedAt + t.loadMs && InTime(t, s)
    requires !a.Tick? && !a.Evict? && !a.Read? && Enabled(s, a) && Queued(c, s, s.readers[a.r].pc, lockedAt)
    requires a.r in Exec(c, s, a).readers
    ensures Queued(c, Exec(c, s, a), Exec(c, s, a).readers[a.r].pc, lockedAt)
  {
    assert Prompt(t, s, s.readers[a.r].pc);
  }

  lemma OthersStayQueued(c: Config, t: Timing, s: State, a: Action, q: nat, r: nat)
    requires WithinLimits(c, t) && InTime(t, s) && Busy(c, s, q) && Enabled(s, a) && Smooth(s, a, false)
    requires r != q && r in Exec(c, s, a).readers
    ensures Queued(c, Exec(c, s, a), Exec(c, s, a).readers[r].pc, s.readers[q].pc.lockedAt)
  {
    assert Prompt(t, s, s.readers[q].pc);
    assert LockLive(s);
    if !a.Read? {
      StepKeepsReaders(c, s, a, r);
      assert Queued(c, s, s.readers[r].pc, s.readers[q].pc.lockedAt);
      assert s.now <= Exec(c, s, a).now;
      if Acts(a, r) { QueuedStepStaysQueued(c, t, s, a, s.readers[q].pc.lockedAt); }
    }
  }

  lemma BusyGoesOn(c: Config, t: Timing, s: State, a: Action, q: nat)
    requires WithinLimits(c, t) && InTime(t, s) && Busy(c, s, q) && Enabled(s, a) && Smooth(s, a, false) && !a.Written?
    ensures Busy(c, Exec(c, s, a), q)
  {
    var s' := Exec(c, s, a);
    assert Prompt(t, s, s.readers[q].pc);
    assert LockLive(s);
    if !a.Tick? && a.r != q && a.r in s.readers {
      assert Queued(c, s, s.readers[a.r].pc, s.readers[q].pc.lockedAt);
    }
    forall r | r in s'.readers && r != q ensures Queued(c, s', s'.readers[r].pc, s.readers[q].pc.lockedAt) {
      OthersStayQueued(c, t, s, a, q, r);
    }
  }

  lemma FromBusy(c: Config, t: Timing, s: State, a: Action, q: nat)
    requires WithinLimits(c, t) && InTime(t, s) && Busy(c, s, q) && Enabled(s, a) && Smooth(s, a, false)
    ensures Phase(c, t, Exec(c, s, a))
  {
    if !a.Written? {
      BusyGoesOn(c, t, s, a, q);
    } else {
      var s' := Exec(c, s, a);
      assert a.r != q ==> Queued(c, s, s.readers[a.r].pc, s.readers[q].pc.lockedAt);
      assert Prompt(t, s, s.readers[q].pc);
      forall r | r in s'.readers ensures Served(t, s', s'.readers[r].pc) {
        if r != q { assert Queued(c, s, s.readers[r].pc, s.readers[q].pc.lockedAt); }
      }
      assert Warm(c, t, s');
    }
  }

  lemma WarmReader(c: Config, t: Timing, s: State, a: Action, r: nat)
    requires WithinLimits(c, t) && InTime(t, s) && Warm(c, t, s) && Enabled(s, a) && Smooth(s, a, false)
    requires r in Exec(c, s, a).readers
    ensures Served(t, Exec(c, s, a), Exec(c, s, a).readers[r].pc)
  {
    if r in s.readers { assert Prompt(t, s, s.readers[r].pc) && Served(t, s, s.readers[r].pc); }
    if !a.Tick? && a.r in s.readers { assert Served(t, s, s.readers[a.r].pc); }
  }

  lemma FromWarm(c: Config, t: Timing, s: State, a: Action)
    requires WithinLimits(c, t) && InTime(t, s) && Warm(c, t, s) && Enabled(s, a) && Smooth(s, a, false)
    ensures Warm(c, t, Exec(c, s, a))
  {
    var s' := Exec(c, s, a);
    if !a.Tick? && a.r in s.readers {
      assert Prompt(t, s, s.readers[a.r].pc) && Served(t, s, s.readers[a.r].pc);
    }
    assert s'.loads == s.loads && s'.entry == s.entry && s'.started == s.started;
    forall r | r in s'.readers ensures Served(t, s', s'.readers[r].pc) {
      WarmReader(c, t, s, a, r);
    }
    forall i | 0 <= i < |s'.answers| ensures FromTheLoad(s', s'.answers[i]) {
      if i < |s.answers| { assert FromTheLoad(s, s.answers[i]); }
    }
  }

  lemma {:induction false} PhasesGoOn(c: Config, t: Timing, s: State, run: seq<Action>)
    requires WithinLimits(c, t) && Phase(c, t, s) && ValidRun(c, s, run) && SmoothRun(c, t, false, s, run)
    ensures Phase(c, t, Run(c, s, run))
    decreases |run|
  {
    if run != [] {
      var a := run[0];
      if Cold(s) {
        FromCold(c, s, a);
      } else if Warm(c, t, s) {
        FromWarm(c, t, s, a);
      } else {
        var q :| Busy(c, s, q);
        FromBusy(c, t, s, a, q);
      }
      PhasesGoOn(c, t, Exec(c, s, a), run[1..]);
    }
  }

  /** If the load and its write end within the lock's time to live and the wait, the value is not
      null and stays cached, then any number of readers of a cold key make one load, and all get
      the value of that load. */
  lemma {:induction false} SingleFlight(c: Config, t: Timing, run: seq<Action>)
    requires WithinLimits(c, t) && ValidRun(c, COLD, run) && SmoothRun(c, t, false, COLD, run)
    ensures var s := Run(c, COLD, run);
      && s.started <= 1
      && (s.answers != [] ==> s.started == 1)
      && forall i :: 0 <= i < |s.answers| ==> FromTheLoad(s, s.answers[i])
  {
    PhasesGoOn(c, t, COLD, run);
    var s := Run(c, COLD, run);
    if !Cold(s) && !Warm(c, t, s) {
      var q :| Busy(c, s, q);
    }
  }

  // ---------------------------------------------------------------- null values

  /** A whole `read` on its own, in no time, whose load gives null. */
  function NullVisit(r: nat): seq<Action> {
    TakesLock(r) + (LoadsNull(r) + WritesNull(r))
  }

  function TakesLock(r: nat): seq<Action> {
    [Read(r)] + ([Step(r)] + [Step(r)])
  }

  function LoadsNull(r: nat): seq<Action> {
    [Step(r)] + [Loaded(r, None)]
  }

  function WritesNull(r: nat): seq<Action> {
    [Written(r, 0.0)] + [Step(r)]
  }

  function NullVisits(n: nat): seq<Action> {
    if n == 0 then [] else NullVisits(n - 1) + NullVisit(n)
  }

  predicate InTimeRun(c: Config, t: Timing, isNull: bool, s: State, run: seq<Action>) {
    ValidRun(c, s, run) && SmoothRun(c, t, isNull, s, run)
  }

  lemma {:induction false} RunCons(c: Config, t: Timing, isNull: bool, s: State, a: Action, rest: seq<Action>)
    requires InTime(t, s) && Enabled(s, a) && Smooth(s, a, isNull) && InTimeRun(c, t, isNull, Exec(c, s, a), rest)
    ensures InTimeRun(c, t, isNull, s, [a] + rest) && Run(c, s, [a] + rest) == Run(c, Exec(c, s, a), rest)
  {
    assert ([a] + rest)[1..] == rest;
  }

  lemma {:induction false} RunAppend(c: Config, t: Timing, isNull: bool, s: State, a: seq<Action>, b: seq<Action>)
    requires InTimeRun(c, t, isNull, s, a) && InTimeRun(c, t, isNull, Run(c, s, a), b)
    ensures InTimeRun(c, t, isNull, s, a + b) && Run(c, s, a + b) == Run(c, Run(c, s, a), b)
    decreases |a|
  {
    if a == [] {
      assert a + b == b;
    } else {
      RunAppend(c, t, isNull, Exec(c, s, a[0]), a[1..], b);
      RunCons(c, t, isNull, s, a[0], a[1..] + b);
      assert a + b == [a[0]] + (a[1..] + b);
    }
  }

  predicate NullOrNone(s: State) {
    s.entry.Some? ==> s.now < s.entry.value.expireAt && s.entry.value.value == None
  }

  predicate Quiet(s: State) {
    s.readers == map[] && s.lock == None && NullOrNone(s)
  }

  predicate Alone(c: Config, s: State, r: nat, pc: Pc) {
    && s.readers.Keys == {r} && s.readers[r].pc == pc
    && s.lock == Some(Lock(s.readers[r].token, s.now + c.lockTtlMs))
  }

  lemma {:induction false} TakingLock(c: Config, t: Timing, s: State, r: nat)
    requires Quiet(s)
    ensures InTimeRun(c, t, true, s, TakesLock(r))
    ensures var s' := Run(c, s, TakesLock(r));
      Alone(c, s', r, SecondGet(s.now)) && s' == s.(readers := s'.readers, lock := s'.lock, nextToken := s'.nextToken)
  {
    var s1 := Exec(c, s, Read(r));
    var s2 := Exec(c, s1, Step(r));
    RunCons(c, t, true, s2, Step(r), []);
    RunCons(c, t, true, s1, Step(r), [Step(r)]);
    RunCons(c, t, true, s, Read(r), [Step(r)] + [Step(r)]);
  }

  lemma {:induction false} LoadingNull(c: Config, t: Timing, s: State, r: nat)
    requires Alone(c, s, r, SecondGet(s.now)) && NullOrNone(s)
    ensures InTimeRun(c, t, true, s, LoadsNull(r))
    ensures var s' := Run(c, s, LoadsNull(r));
      && Alone(c, s', r, Write(|s.loads|, s.now)) && s'.loads == s.loads + [LoadRecord(s.now, None)]
      && s'.now == s.now && s'.entry == s.entry && s'.started == s.started + 1
  {
    var s1 := Exec(c, s, Step(r));
    RunCons(c, t, true, s1, Loaded(r, None), []);
    RunCons(c, t, true, s, Step(r), [Loaded(r, None)]);
  }

  lemma {:induction false} WritingNull(c: Config, t: Timing, s: State, r: nat, load: nat)
    requires Alone(c, s, r, Write(load, s.now)) && load < |s.loads| && s.loads[load].value == None && NullOrNone(s)
    ensures InTimeRun(c, t, true, s, WritesNull(r))
    ensures var s' := Run(c, s, WritesNull(r));
      Quiet(s') && s'.now == s.now && s'.started == s.started && s'.entry.Some?
  {
    var s1 := Exec(c, s, Written(r, 0.0));
    RunCons(c, t, true, s1, Step(r), []);
    RunCons(c, t, true, s, Written(r, 0.0), [Step(r)]);
  }

  lemma {:induction false} NullVisitLoads(c: Config, t: Timing, s: State, r: nat)
    requires Quiet(s)
    ensures InTimeRun(c, t, true, s, NullVisit(r))
    ensures var s' := Run(c, s, NullVisit(r));
      Quiet(s') && s'.now == s.now && s'.started == s.started + 1 && s'.entry.Some?
  {
    TakingLock(c, t, s, r);
    var s1 := Run(c, s, TakesLock(r));
    LoadingNull(c, t, s1, r);
    var s2 := Run(c, s1, LoadsNull(r));
    WritingNull(c, t, s2, r, |s.loads|);
    RunAppend(c, t, true, s1, LoadsNull(r), WritesNull(r));
    RunAppend(c, t, true, s, TakesLock(r), LoadsNull(r) + WritesNull(r));
  }

  /** A cached null is a miss: `n` readers, one after the other and before the entry can run out,
      make `n` loads, however short the limits everybody keeps. */
  lemma {:induction false} NullIsLoadedEveryTime(c: Config, t: Timing, n: nat)
    ensures InTimeRun(c, t, true, COLD, NullVisits(n))
    ensures var s := Run(c, COLD, NullVisits(n));
      Quiet(s) && s.now == 0 && s.started == n && (n > 0 ==> s.entry.Some?)
  {
    if n > 0 {
      NullIsLoadedEveryTime(c, t, n - 1);
      NullVisitLoads(c, t, Run(c, COLD, NullVisits(n - 1)), n);
      RunAppend(c, t, true, COLD, NullVisits(n - 1), NullVisit(n));
    }
  }

  // ---------------------------------------------------------------- out of the limits

  /** Where a run in time can get. */
  ghost predicate Reachable(c: Config, t: Timing, isNull: bool, s: State) {
    exists run :: InTimeRun(c, t, isNull, COLD, run) && s == Run(c, COLD, run)
  }

  lemma Start(c: Config, t: Timing, isNull: bool)
    ensures Reachable(c, t, isNull, COLD)
  {
    assert InTimeRun(c, t, isNull, COLD, []);
  }

  lemma Goes(c: Config, t: Timing, isNull: bool, s: State, a: Action) returns (s': State)
    requires Reachable(c, t, isNull, s) && Enabled(s, a) && Smooth(s, a, isNull) && InTime(t, Exec(c, s, a))
    ensures s' == Exec(c, s, a) && Reachable(c, t, isNull, s')
  {
    var run :| InTimeRun(c, t, isNull, COLD, run) && s == Run(c, COLD, run);
    s' := Exec(c, s, a);
    EndsInTime(c, t, isNull, COLD, run);
    RunCons(c, t, isNull, s, a, []);
    RunAppend(c, t, isNull, COLD, run, [a] + []);
    assert InTimeRun(c, t, isNull, COLD, run + ([a] + []));
  }

  lemma {:induction false} EndsInTime(c: Config, t: Timing, isNull: bool, s: State, run: seq<Action>)
    requires InTimeRun(c, t, isNull, s, run)
    ensures InTime(t, Run(c, s, run))
    decreases |run|
  {
    if run != [] { EndsInTime(c, t, isNull, Exec(c, s, run[0]), run[1..]); }
  }

  /** Reader 0 is at its load, since time 0. */
  predicate Loading(c: Config, s: State) {
    && 0 in s.readers && s.readers[0].pc == Load(0, 0)
    && s.lock == Some(Lock(s.readers[0].token, c.lockTtlMs))
    && s.entry == None && s.started == 1 && s.loads == []
  }

  lemma FirstLoad(c: Config, t: Timing, isNull: bool) returns (s: State)
    ensures Reachable(c, t, isNull, s) && Loading(c, s) && s.readers.Keys == {0} && s.now == 0
  {
    Start(c, t, isNull);
    s := Goes(c, t, isNull, COLD, Read(0));
    s := Goes(c, t, isNull, s, Step(0));
    s := Goes(c, t, isNull, s, Step(0));
    s := Goes(c, t, isNull, s, Step(0));
  }

  /** Reader 1 arrives and misses. */
  lemma Arrives(c: Config, t: Timing, isNull: bool, s: State) returns (s': State)
    requires Reachable(c, t, isNull, s) && Loading(c, s) && s.readers.Keys == {0} && s.now <= t.loadMs
    ensures Reachable(c, t, isNull, s') && Loading(c, s') && s'.now == s.now
    ensures s'.readers.Keys == {0, 1} && s'.readers[1].pc == TakeLock
  {
    var s1 := Goes(c, t, isNull, s, Read(1));
    s' := Goes(c, t, isNull, s1, Step(1));
  }

  /** The lock runs out under the load, and the next reader loads too. */
  lemma LockTooShort(c: Config, t: Timing, isNull: bool) returns (s: State)
    requires t.loadMs >= c.lockTtlMs
    ensures Reachable(c, t, isNull, s) && s.started == 2
  {
    s := FirstLoad(c, t, isNull);
    s := Goes(c, t, isNull, s, Tick(c.lockTtlMs));
    s := Arrives(c, t, isNull, s);
    s := Goes(c, t, isNull, s, Step(1));
    s := Goes(c, t, isNull, s, Step(1));
  }

  /** Reader 1 waits until `deadline`. */
  predicate Waiting(s: State, polledAt: nat, deadline: nat) {
    s.readers.Keys == {0, 1} && s.readers[1].pc == Wait(deadline, polledAt)
  }

  lemma SecondWaits(c: Config, t: Timing, isNull: bool) returns (s: State)
    ensures Reachable(c, t, isNull, s) && Loading(c, s) && Waiting(s, 0, c.lockWaitMs) && s.now == 0
  {
    s := FirstLoad(c, t, isNull);
    s := Arrives(c, t, isNull, s);
    s := Goes(c, t, isNull, s, Step(1));
    s := Goes(c, t, isNull, s, Step(1));
  }

  lemma GivesUp(c: Config, t: Timing, isNull: bool, s: State, polledAt: nat) returns (s': State)
    requires Reachable(c, t, isNull, s) && Waiting(s, polledAt, c.lockWaitMs) && s.started == 1
    requires InTime(t, s) && s.now >= c.lockWaitMs
    ensures Reachable(c, t, isNull, s') && s'.started == 2
  {
    s' := Goes(c, t, isNull, s, Step(1));
  }

  /** The random number for the longest time to live. */
  lemma MostJitter(c: Config) returns (random: real)
    ensures 0.0 <= random < 1.0 && TtlWithJitter(c, random) == c.ttlSeconds + c.jitterSeconds
  {
    var j := c.jitterSeconds as real;
    random := j / (j + 1.0);
    assert random * (j + 1.0) == j;
  }

  /** The load returns and is written at the last moment; who polled just before does not see it
      and looks at the clock too late. */
  lemma LooksTooLate(c: Config, t: Timing, isNull: bool, s: State, polledAt: nat) returns (s': State)
    requires Reachable(c, t, isNull, s) && Loading(c, s) && Waiting(s, polledAt, c.lockWaitMs)
    requires s.now == t.loadMs <= c.lockWaitMs <= polledAt + t.replyMs && !Fleeting(c, t) && InTime(t, s)
    ensures Reachable(c, t, isNull, s') && s'.started == 2
  {
    var random := MostJitter(c);
    var s1 := Goes(c, t, isNull, s, Loaded(0, if isNull then None else Some("")));
    var s2 := Goes(c, t, isNull, s1, Written(0, random));
    var s3 := Goes(c, t, isNull, s2, Tick(c.lockWaitMs - t.loadMs));
    s' := GivesUp(c, t, isNull, s3, polledAt);
  }

  lemma WaitTooShort(c: Config, t: Timing, isNull: bool) returns (s: State)
    requires !Patient(c, t) && !Fleeting(c, t)
    ensures Reachable(c, t, isNull, s) && s.started == 2
  {
    s := SecondWaits(c, t, isNull);
    if c.lockWaitMs <= t.replyMs {
      if c.lockWaitMs <= t.loadMs {
        s := Goes(c, t, isNull, s, Tick(c.lockWaitMs));
        s := GivesUp(c, t, isNull, s, 0);
      } else {
        s := Goes(c, t, isNull, s, Tick(t.loadMs));
        s := LooksTooLate(c, t, isNull, s, 0);
      }
    } else {
      s := PollsAtTheEnd(c, t, isNull, s);
      if c.lockWaitMs <= t.loadMs {
        s := GivesUp(c, t, isNull, s, t.loadMs);
      } else {
        s := LooksTooLate(c, t, isNull, s, t.loadMs);
      }
    }
  }

  lemma PollsAtTheEnd(c: Config, t: Timing, isNull: bool, s: State) returns (s': State)
    requires Reachable(c, t, isNull, s) && Loading(c, s) && Waiting(s, 0, c.lockWaitMs) && s.now == 0
    requires c.lockWaitMs > 0 && t.loadMs >= LOCK_POLL_MS
    ensures Reachable(c, t, isNull, s') && Loading(c, s') && Waiting(s', t.loadMs, c.lockWaitMs)
    ensures s'.now == t.loadMs && InTime(t, s')
  {
    var s1 := Goes(c, t, isNull, s, Step(1));
    var s2 := Goes(c, t, isNull, s1, Tick(t.loadMs));
    s' := Goes(c, t, isNull, s2, Step(1));
  }

  ghost predicate OneLoadAtMost(c: Config, t: Timing, isNull: bool) {
    forall run :: InTimeRun(c, t, isNull, COLD, run) ==> Run(c, COLD, run).started <= 1
  }

  /** Exactly when a cold burst costs one load: the value is not null, and load and write end within
      the lock's time to live and the wait. */
  lemma SingleFlightExactly(c: Config, t: Timing, isNull: bool)
    ensures OneLoadAtMost(c, t, isNull) <==> !isNull && WithinLimits(c, t)
  {
    if isNull {
      NullIsLoadedEveryTime(c, t, 2);
    } else if WithinLimits(c, t) {
      forall run | InTimeRun(c, t, false, COLD, run) ensures Run(c, COLD, run).started <= 1 {
        SingleFlight(c, t, run);
      }
    } else {
      var s: State;
      if t.loadMs >= c.lockTtlMs {
        s := LockTooShort(c, t, false);
      } else {
        s := WaitTooShort(c, t, false);
      }
      var run :| InTimeRun(c, t, false, COLD, run) && s == Run(c, COLD, run);
    }
  }
}
