/** Cache-aside with an expiring lock, for one key: any number of readers, in any number of
    processes, interleaved between any two awaits (src/redis/cache.ts). Times are
    milliseconds, TTLs of values whole seconds. */
module Cache {
  import opened Wrappers

  const LOCK_POLL_MS: nat := 20

  /** Redis refuses a time to live of zero. */
  type Ttl = n: nat | n >= 1 witness 1

  /** A JSON value; `None` is the JSON null. */
  type Value = Option<string>

  datatype Config = Config(ttlSeconds: Ttl, jitterSeconds: nat, lockWaitMs: nat, lockTtlMs: Ttl)

  /** What is under the key: a value, the load it came from, when it was written and when it goes. */
  datatype Entry = Entry(value: Value, load: nat, writtenAt: nat, expireAt: nat)

  datatype Lock = Lock(token: nat, expireAt: nat)

  /** An answer of `read`: its value, the load that gave it, when it was obtained, and whether it
      came out of the cache. */
  datatype Answer = Answer(load: nat, value: Value, at: nat, cached: bool)

  /** What a reader is about to do. */
  datatype Pc =
    | FirstGet
    | TakeLock
    | Refused                              // compute the deadline
    | Wait(deadline: nat, polledAt: nat)   // look at the clock
    | Sleep(deadline: nat, wakeAt: nat)    // sleep, then get
    | FreeLoad(start: nat)                 // waited in vain: load without the lock
    | SecondGet(lockedAt: nat)
    | Load(start: nat, lockedAt: nat)
    | Write(load: nat, lockedAt: nat)
    | Unlock(result: Option<Answer>, lockedAt: nat)   // `None`: an error is thrown on

  /** `token` stands for the reader's random UUID. */
  datatype Reader = Reader(token: nat, pc: Pc)

  /** A load of the key that returned: when it started, and what it gave. */
  datatype LoadRecord = LoadRecord(start: nat, value: Value)

  /** `started` counts the calls of `load`. */
  datatype State = State(now: nat, entry: Option<Entry>, lock: Option<Lock>, readers: map<nat, Reader>,
                         nextToken: nat, started: nat, loads: seq<LoadRecord>, answers: seq<Answer>)

  datatype Action =
    | Tick(ms: nat)
    | Read(r: nat)                       // a call of read()
    | Step(r: nat)                       // its next step, when it involves only Redis and the clock
    | Loaded(r: nat, value: Value)       // its load returns
    | Throws(r: nat)                     // its second get or its load throws
    | Written(r: nat, random: real)      // SET ... EX ttl
    | WriteFailed(r: nat)                // the write throws, which is swallowed
    | UnlockFailed(r: nat)               // the unlock throws, which is swallowed
    | Crash(r: nat)                      // or another call of Redis throws
    | Evict                              // Redis drops the value

  const COLD := State(0, None, None, map[], 0, 0, [], [])

  // ---------------------------------------------------------------- what a step does

  /** A key that ran out, or holds null, is a miss. */
  function Get(s: State): Option<Entry> {
    if s.entry.Some? && s.now < s.entry.value.expireAt && s.entry.value.value.Some? then s.entry else None
  }

  predicate LockLive(s: State) {
    s.lock.Some? && s.now < s.lock.value.expireAt
  }

  lemma ProductOfPositives(x: real, y: real)
    requires x > 0.0 && y > 0.0
    ensures x * y > 0.0
  {
  }

  lemma ScaledBelow(random: real, n: real)
    requires 0.0 <= random < 1.0 && n > 0.0
    ensures 0.0 <= random * n < n
  {
    ProductOfPositives(1.0 - random, n);
    if random > 0.0 { ProductOfPositives(random, n); }
    assert (1.0 - random) * n == n - random * n;
  }

  /** `random` is what Math.random() gave. */
  function TtlWithJitter(c: Config, random: real): (seconds: nat)
    requires 0.0 <= random < 1.0
    ensures c.ttlSeconds <= seconds <= c.ttlSeconds + c.jitterSeconds
  {
    ScaledBelow(random, (c.jitterSeconds + 1) as real);
    c.ttlSeconds + (random * (c.jitterSeconds + 1) as real).Floor
  }

  /** Each second from base to base + jitter for its own equal share of the random numbers. */
  lemma TtlIsUniform(c: Config, random: real, k: nat)
    requires 0.0 <= random < 1.0 && k <= c.jitterSeconds
    ensures TtlWithJitter(c, random) == c.ttlSeconds + k
      <==> k as real <= random * (c.jitterSeconds + 1) as real < (k + 1) as real
  {
  }

  function Return(s: State, r: nat, answer: Answer): State {
    s.(readers := s.readers - {r}, answers := s.answers + [answer])
  }

  function Throw(s: State, r: nat): State {
    s.(readers := s.readers - {r})
  }

  function Goto(s: State, r: nat, pc: Pc): State
    requires r in s.readers
  {
    s.(readers := s.readers[r := s.readers[r].(pc := pc)])
  }

  function FromCache(s: State, e: Entry): Answer {
    Answer(e.load, e.value, s.now, true)
  }

  function Finish(s: State, r: nat, result: Option<Answer>): State {
    if result.Some? then Return(s, r, result.value) else Throw(s, r)
  }

  predicate Enabled(s: State, a: Action) {
    match a
    case Tick(_) => true
    case Read(r) => r !in s.readers
    case Step(r) =>
      && r in s.readers
      && !s.readers[r].pc.FreeLoad? && !s.readers[r].pc.Load? && !s.readers[r].pc.Write?
      && (s.readers[r].pc.Sleep? ==> s.now >= s.readers[r].pc.wakeAt)
    case Loaded(r, _) => r in s.readers && (s.readers[r].pc.FreeLoad? || s.readers[r].pc.Load?)
    case Throws(r) =>
      r in s.readers && (s.readers[r].pc.FreeLoad? || s.readers[r].pc.Load? || s.readers[r].pc.SecondGet?)
    case Written(r, random) =>
      r in s.readers && s.readers[r].pc.Write? && s.readers[r].pc.load < |s.loads| && 0.0 <= random < 1.0
    case WriteFailed(r) => r in s.readers && s.readers[r].pc.Write? && s.readers[r].pc.load < |s.loads|
    case UnlockFailed(r) => r in s.readers && s.readers[r].pc.Unlock?
    case Crash(r) => r in s.readers
    case Evict => true
  }

  function RunStep(c: Config, s: State, r: nat): State
    requires Enabled(s, Step(r))
  {
    var reader, hit := s.readers[r], Get(s);
    match reader.pc
    case FirstGet => if hit.Some? then Return(s, r, FromCache(s, hit.value)) else Goto(s, r, TakeLock)
    case TakeLock =>  // SET lock token PX ttl NX
      if LockLive(s) then Goto(s, r, Refused)
      else Goto(s.(lock := Some(Lock(reader.token, s.now + c.lockTtlMs))), r, SecondGet(s.now))
    case Refused => Goto(s, r, Wait(s.now + c.lockWaitMs, s.now))
    case Wait(deadline, _) =>
      if s.now < deadline then Goto(s, r, Sleep(deadline, s.now + LOCK_POLL_MS))
      else Goto(s.(started := s.started + 1), r, FreeLoad(s.now))
    case Sleep(deadline, _) =>
      if hit.Some? then Return(s, r, FromCache(s, hit.value)) else Goto(s, r, Wait(deadline, s.now))
    case SecondGet(lockedAt) =>
      if hit.Some? then Goto(s, r, Unlock(Some(FromCache(s, hit.value)), lockedAt))
      else Goto(s.(started := s.started + 1), r, Load(s.now, lockedAt))
    case Unlock(result, _) =>  // delete the lock if it still holds the reader's token
      Finish(if LockLive(s) && s.lock.value.token == reader.token then s.(lock := None) else s, r, result)
    case FreeLoad(_) => s
    case Load(_, _) => s
    case Write(_, _) => s
  }

  /** The answer of a reader that loaded the value itself. */
  function OwnLoad(s: State, load: nat): Answer
    requires load < |s.loads|
  {
    Answer(load, s.loads[load].value, s.now, false)
  }

  function Exec(c: Config, s: State, a: Action): State
    requires Enabled(s, a)
  {
    match a
    case Tick(ms) => s.(now := s.now + ms)
    case Read(r) => s.(readers := s.readers[r := Reader(s.nextToken, FirstGet)], nextToken := s.nextToken + 1)
    case Step(r) => RunStep(c, s, r)
    case Loaded(r, value) =>
      var pc, load := s.readers[r].pc, |s.loads|;
      var loaded := s.(loads := s.loads + [LoadRecord(pc.start, value)]);
      if pc.FreeLoad? then Return(loaded, r, OwnLoad(loaded, load)) else Goto(loaded, r, Write(load, pc.lockedAt))
    case Throws(r) =>
      var pc := s.readers[r].pc;
      if pc.FreeLoad? then Throw(s, r) else Goto(s, r, Unlock(None, pc.lockedAt))
    case Written(r, random) =>
      var pc := s.readers[r].pc;
      var entry := Entry(s.loads[pc.load].value, pc.load, s.now, s.now + 1000 * TtlWithJitter(c, random));
      Goto(s.(entry := Some(entry)), r, Unlock(Some(OwnLoad(s, pc.load)), pc.lockedAt))
    case WriteFailed(r) =>
      var pc := s.readers[r].pc;
      Goto(s, r, Unlock(Some(OwnLoad(s, pc.load)), pc.lockedAt))
    case UnlockFailed(r) => Finish(s, r, s.readers[r].pc.result)
    case Crash(r) => Throw(s, r)
    case Evict => s.(entry := None)
  }

  /** A value that is there and has not run out is the answer at once, at the first look and at every
      poll; it costs neither a lock nor a load. */
  lemma HitIsImmediate(c: Config, s: State, r: nat)
    requires Enabled(s, Step(r)) && (s.readers[r].pc.FirstGet? || s.readers[r].pc.Sleep?)
    requires s.entry.Some? && s.entry.value.value.Some? && s.now < s.entry.value.expireAt
    ensures var e, s' := s.entry.value, Exec(c, s, Step(r));
      && s'.answers == s.answers + [Answer(e.load, e.value, s.now, true)] && r !in s'.readers
      && s'.lock == s.lock && s'.started == s.started && s'.entry == s.entry
  {
  }

  /** Null, nothing, or a value that ran out sends a reader to the lock, or back to waiting. */
  lemma MissGoesOn(c: Config, s: State, r: nat)
    requires Enabled(s, Step(r)) && (s.readers[r].pc.FirstGet? || s.readers[r].pc.Sleep?)
    requires s.entry.None? || s.entry.value.value.None? || s.entry.value.expireAt <= s.now
    ensures var pc, s' := s.readers[r].pc, Exec(c, s, Step(r));
      && s'.answers == s.answers && s'.started == s.started && s'.lock == s.lock && r in s'.readers
      && s'.readers[r].pc == if pc.FirstGet? then TakeLock else Wait(pc.deadline, s.now)
  {
  }

  /** A load begins with a vain look under the lock or a vain wait, is counted then, and its record
      says when that was and what it gave. */
  lemma LoadsAreTimed(c: Config, s: State, r: nat, value: Value)
    requires r in s.readers
    ensures s.readers[r].pc.SecondGet? && Get(s).None? ==>
      && Exec(c, s, Step(r)).readers[r].pc == Load(s.now, s.readers[r].pc.lockedAt)
      && Exec(c, s, Step(r)).started == s.started + 1
    ensures s.readers[r].pc.Wait? && s.now >= s.readers[r].pc.deadline ==>
      && Exec(c, s, Step(r)).readers[r].pc == FreeLoad(s.now)
      && Exec(c, s, Step(r)).started == s.started + 1
    ensures Enabled(s, Loaded(r, value)) ==>
      Exec(c, s, Loaded(r, value)).loads == s.loads + [LoadRecord(s.readers[r].pc.start, value)]
  {
  }

  // ---------------------------------------------------------------- runs

  predicate ValidRun(c: Config, s: State, run: seq<Action>)
    decreases |run|
  {
    run == [] || (Enabled(s, run[0]) && ValidRun(c, Exec(c, s, run[0]), run[1..]))
  }

  function Run(c: Config, s: State, run: seq<Action>): State
    requires ValidRun(c, s, run)
    decreases |run|
  {
    if run == [] then s else Run(c, Exec(c, s, run[0]), run[1..])
  }

  // ---------------------------------------------------------------- the lock

  predicate InSection(pc: Pc) {
    pc.SecondGet? || pc.Load? || pc.Write? || pc.Unlock?
  }

  /** As long as a reader's lock time has not run out, the lock is its own. */
  predicate Holds(c: Config, s: State, reader: Reader) {
    InSection(reader.pc) ==>
      && reader.pc.lockedAt <= s.now
      && (s.now < reader.pc.lockedAt + c.lockTtlMs ==>
            s.lock == Some(Lock(reader.token, reader.pc.lockedAt + c.lockTtlMs)))
  }

  predicate TokensDistinct(s: State) {
    && (forall r :: r in s.readers ==> s.readers[r].token < s.nextToken)
    && (forall q, r :: q in s.readers && r in s.readers && q != r ==> s.readers[q].token != s.readers[r].token)
  }

  predicate LockInv(c: Config, s: State) {
    && TokensDistinct(s)
    && (forall r :: r in s.readers ==> Holds(c, s, s.readers[r]))
  }

  /** Whose step it is, if anybody's. */
  predicate Acts(a: Action, r: nat) {
    !a.Tick? && !a.Evict? && a.r == r
  }

  /** A step changes at most the reader whose step it is, and keeps its token. */
  lemma StepKeepsReaders(c: Config, s: State, a: Action, r: nat)
    requires Enabled(s, a) && !a.Read? && r in Exec(c, s, a).readers
    ensures r in s.readers && Exec(c, s, a).readers[r].token == s.readers[r].token
    ensures !Acts(a, r) ==> Exec(c, s, a).readers[r] == s.readers[r]
    ensures Exec(c, s, a).nextToken == s.nextToken
  {
  }

  lemma TokensStayDistinct(s: State, s': State)
    requires TokensDistinct(s) && s'.nextToken == s.nextToken
    requires forall r :: r in s'.readers ==> r in s.readers && s'.readers[r].token == s.readers[r].token
    ensures TokensDistinct(s')
  {
  }

  lemma StepKeepsTokens(c: Config, s: State, a: Action)
    requires TokensDistinct(s) && Enabled(s, a)
    ensures TokensDistinct(Exec(c, s, a))
  {
    var s' := Exec(c, s, a);
    if !a.Read? {
      forall r | r in s'.readers ensures r in s.readers && s'.readers[r].token == s.readers[r].token {
        StepKeepsReaders(c, s, a, r);
      }
      assert s'.nextToken == s.nextToken;
      TokensStayDistinct(s, s');
    }
  }

  /** What others do leaves the lock of a reader alone until it runs out. */
  lemma OthersKeepHolds(c: Config, s: State, a: Action, r: nat)
    requires TokensDistinct(s) && r in s.readers && Holds(c, s, s.readers[r])
    requires Enabled(s, a) && !Acts(a, r)
    ensures Holds(c, Exec(c, s, a), s.readers[r])
  {
    assert s.now <= Exec(c, s, a).now;
    if a.Step? {
      assert s.readers[a.r].token != s.readers[r].token;
      assert LockLive(s) && !s.readers[a.r].pc.Unlock? ==> Exec(c, s, a).lock == s.lock;
    } else {
      assert Exec(c, s, a).lock == s.lock;
    }
  }

  lemma OwnStepKeepsHolds(c: Config, s: State, a: Action, r: nat)
    requires r in s.readers && Holds(c, s, s.readers[r])
    requires Enabled(s, a) && !a.Read? && Acts(a, r) && r in Exec(c, s, a).readers
    ensures Holds(c, Exec(c, s, a), Exec(c, s, a).readers[r])
  {
  }

  lemma StepKeepsLockInv(c: Config, s: State, a: Action)
    requires LockInv(c, s) && Enabled(s, a)
    ensures LockInv(c, Exec(c, s, a))
  {
    StepKeepsTokens(c, s, a);
    forall r | r in Exec(c, s, a).readers ensures Holds(c, Exec(c, s, a), Exec(c, s, a).readers[r]) {
      if r in s.readers { assert Holds(c, s, s.readers[r]); }
      if a.Read? {
        if r != a.r { OthersKeepHolds(c, s, a, r); }
      } else {
        StepKeepsReaders(c, s, a, r);
        if Acts(a, r) { OwnStepKeepsHolds(c, s, a, r); } else { OthersKeepHolds(c, s, a, r); }
      }
    }
  }

  lemma {:induction false} RunKeepsLockInv(c: Config, s: State, run: seq<Action>)
    requires LockInv(c, s) && ValidRun(c, s, run)
    ensures LockInv(c, Run(c, s, run))
    decreases |run|
  {
    if run != [] {
      StepKeepsLockInv(c, s, run[0]);
      RunKeepsLockInv(c, Exec(c, s, run[0]), run[1..]);
    }
  }

  /** However readers, expiries, crashes and failed unlocks interleave, of two readers between
      taking and releasing the lock at most one is within its lock's time to live. */
  lemma {:induction false} MutualExclusion(c: Config, run: seq<Action>, q: nat, r: nat)
    requires ValidRun(c, COLD, run)
    requires var s := Run(c, COLD, run);
      && q in s.readers && r in s.readers
      && InSection(s.readers[q].pc) && s.now < s.readers[q].pc.lockedAt + c.lockTtlMs
      && InSection(s.readers[r].pc) && s.now < s.readers[r].pc.lockedAt + c.lockTtlMs
    ensures q == r
  {
    RunKeepsLockInv(c, COLD, run);
    var s := Run(c, COLD, run);
    assert Holds(c, s, s.readers[q]) && Holds(c, s, s.readers[r]);
  }

  /** A step that deletes the lock with a token of its own. */
  predicate Unlocks(s: State, a: Action, token: nat)
    requires Enabled(s, a)
  {
    a.Step? && s.readers[a.r].pc.Unlock? && s.readers[a.r].token == token
  }

  /** A lock that has not run out, its owner still at work, crashed or gone, is ended and replaced
      by no step but the unlock of the reader that carries its token, and that reader is the only
      one that does. */
  lemma {:induction false} OnlyTheOwnerUnlocks(c: Config, run: seq<Action>, a: Action)
    requires ValidRun(c, COLD, run) && Enabled(Run(c, COLD, run), a) && LockLive(Run(c, COLD, run))
    ensures var s := Run(c, COLD, run);
      && (Exec(c, s, a).lock != s.lock <==> Unlocks(s, a, s.lock.value.token))
      && (Unlocks(s, a, s.lock.value.token) ==>
            && Exec(c, s, a).lock == None
            && forall r :: r in s.readers && s.readers[r].token == s.lock.value.token ==> r == a.r)
  {
    RunKeepsLockInv(c, COLD, run);
    LiveLockStays(c, Run(c, COLD, run), a);
  }

  lemma LiveLockStays(c: Config, s: State, a: Action)
    requires LockLive(s) && Enabled(s, a)
    ensures Exec(c, s, a).lock == if Unlocks(s, a, s.lock.value.token) then None else s.lock
  {
  }

  /** A reader between taking and releasing the lock has it for as long as its time to live. */
  lemma {:induction false} OwnerHasTheLock(c: Config, run: seq<Action>, owner: nat)
    requires ValidRun(c, COLD, run)
    requires var s := Run(c, COLD, run);
      && owner in s.readers && InSection(s.readers[owner].pc)
      && s.now < s.readers[owner].pc.lockedAt + c.lockTtlMs
    ensures var s := Run(c, COLD, run);
      s.lock == Some(Lock(s.readers[owner].token, s.readers[owner].pc.lockedAt + c.lockTtlMs))
  {
    RunKeepsLockInv(c, COLD, run);
    var s := Run(c, COLD, run);
    assert Holds(c, s, s.readers[owner]);
  }

  // ---------------------------------------------------------------- bounded staleness

  /** Every write of the run comes at most `loadMs` after its load started. */
  predicate WritesInTime(c: Config, s: State, run: seq<Action>, loadMs: nat)
    requires ValidRun(c, s, run)
    decreases |run|
  {
    run == [] || (WriteInTime(s, run[0], loadMs) && WritesInTime(c, Exec(c, s, run[0]), run[1..], loadMs))
  }

  predicate WriteInTime(s: State, a: Action, loadMs: nat)
    requires Enabled(s, a)
  {
    a.Written? ==> s.now <= s.loads[s.readers[a.r].pc.load].start + loadMs
  }

  predicate EntryFresh(c: Config, s: State, e: Entry, loadMs: nat) {
    && e.load < |s.loads| && e.value == s.loads[e.load].value
    && e.expireAt <= s.loads[e.load].start + loadMs + 1000 * (c.ttlSeconds + c.jitterSeconds)
  }

  predicate AnswerFresh(c: Config, s: State, a: Answer, loadMs: nat) {
    && a.load < |s.loads| && a.value == s.loads[a.load].value
    && (a.cached ==>
          && a.value.Some?
          && a.at < s.loads[a.load].start + loadMs + 1000 * (c.ttlSeconds + c.jitterSeconds))
  }

  predicate ReaderFresh(c: Config, s: State, pc: Pc, loadMs: nat) {
    && (pc.Write? ==> pc.load < |s.loads|)
    && (pc.Unlock? && pc.result.Some? ==> AnswerFresh(c, s, pc.result.value, loadMs))
  }

  predicate Fresh(c: Config, s: State, loadMs: nat) {
    && (s.entry.Some? ==> EntryFresh(c, s, s.entry.value, loadMs))
    && (forall i :: 0 <= i < |s.answers| ==> AnswerFresh(c, s, s.answers[i], loadMs))
    && (forall r :: r in s.readers ==> ReaderFresh(c, s, s.readers[r].pc, loadMs))
  }

  /** Old facts survive: the list of loads only grows. */
  lemma StepExtendsLoads(c: Config, s: State, a: Action)
    requires Enabled(s, a)
    ensures s.loads <= Exec(c, s, a).loads
  {
  }

  lemma StepKeepsEntryFresh(c: Config, s: State, a: Action, loadMs: nat)
    requires Fresh(c, s, loadMs) && Enabled(s, a) && WriteInTime(s, a, loadMs)
    ensures Exec(c, s, a).entry.Some? ==> EntryFresh(c, Exec(c, s, a), Exec(c, s, a).entry.value, loadMs)
  {
    StepExtendsLoads(c, s, a);
    if !a.Written? && !a.Evict? {
      assert Exec(c, s, a).entry == s.entry;
    }
  }

  lemma StepKeepsReaderFresh(c: Config, s: State, a: Action, loadMs: nat, r: nat)
    requires Fresh(c, s, loadMs) && Enabled(s, a) && r in Exec(c, s, a).readers
    ensures ReaderFresh(c, Exec(c, s, a), Exec(c, s, a).readers[r].pc, loadMs)
  {
    StepExtendsLoads(c, s, a);
    if !a.Read? {
      StepKeepsReaders(c, s, a, r);
      assert ReaderFresh(c, s, s.readers[r].pc, loadMs);
      if Acts(a, r) { OwnStepKeepsFresh(c, s, a, loadMs); }
    }
  }

  lemma OwnStepKeepsFresh(c: Config, s: State, a: Action, loadMs: nat)
    requires !a.Tick? && !a.Evict? && !a.Read?
    requires Enabled(s, a) && a.r in Exec(c, s, a).readers && ReaderFresh(c, s, s.readers[a.r].pc, loadMs)
    requires s.entry.Some? ==> EntryFresh(c, s, s.entry.value, loadMs)
    ensures ReaderFresh(c, Exec(c, s, a), Exec(c, s, a).readers[a.r].pc, loadMs)
  {
  }

  lemma StepKeepsAnswersFresh(c: Config, s: State, a: Action, loadMs: nat, i: nat)
    requires Fresh(c, s, loadMs) && Enabled(s, a) && i < |Exec(c, s, a).answers|
    ensures AnswerFresh(c, Exec(c, s, a), Exec(c, s, a).answers[i], loadMs)
  {
    StepExtendsLoads(c, s, a);
    if i < |s.answers| {
      assert Exec(c, s, a).answers[i] == s.answers[i];
      assert AnswerFresh(c, s, s.answers[i], loadMs);
    } else if a.Step? || a.UnlockFailed? {
      assert ReaderFresh(c, s, s.readers[a.r].pc, loadMs);
    }
  }

  lemma StepKeepsFresh(c: Config, s: State, a: Action, loadMs: nat)
    requires Fresh(c, s, loadMs) && Enabled(s, a) && WriteInTime(s, a, loadMs)
    ensures Fresh(c, Exec(c, s, a), loadMs)
  {
    var s' := Exec(c, s, a);
    StepKeepsEntryFresh(c, s, a, loadMs);
    forall r | r in s'.readers ensures ReaderFresh(c, s', s'.readers[r].pc, loadMs) {
      StepKeepsReaderFresh(c, s, a, loadMs, r);
    }
    forall i | 0 <= i < |s'.answers| ensures AnswerFresh(c, s', s'.answers[i], loadMs) {
      StepKeepsAnswersFresh(c, s, a, loadMs, i);
    }
  }

  lemma {:induction false} RunKeepsFresh(c: Config, s: State, run: seq<Action>, loadMs: nat)
    requires Fresh(c, s, loadMs) && ValidRun(c, s, run) && WritesInTime(c, s, run, loadMs)
    ensures Fresh(c, Run(c, s, run), loadMs)
    decreases |run|
  {
    if run != [] {
      StepKeepsFresh(c, s, run[0], loadMs);
      RunKeepsFresh(c, Exec(c, s, run[0]), run[1..], loadMs);
    }
  }

  /** Every answer is the value of some load of the key. One that came out of the cache is not
      null and is from a load that started less than base + jitter + the longest load-and-write
      time before, however locks ran out and old loads overwrote newer ones. */
  lemma {:induction false} BoundedStaleness(c: Config, run: seq<Action>, loadMs: nat, i: nat)
    requires ValidRun(c, COLD, run) && WritesInTime(c, COLD, run, loadMs) && i < |Run(c, COLD, run).answers|
    ensures var s := Run(c, COLD, run);
      var a := s.answers[i];
      && a.load < |s.loads| && a.value == s.loads[a.load].value
      && (a.cached ==>
            && a.value.Some?
            && a.at < s.loads[a.load].start + loadMs + 1000 * (c.ttlSeconds + c.jitterSeconds))
  {
    RunKeepsFresh(c, COLD, run, loadMs);
    assert AnswerFresh(c, Run(c, COLD, run), Run(c, COLD, run).answers[i], loadMs);
  }
}
