/** The sliding-window rate limiter: a pruned sorted set per client, one atomic script
    (src/redis/rate-limit.ts). Times are milliseconds. */
module RateLimit {
  import opened Wrappers
  import opened Decimal

  /** How much longer than the window Redis keeps an idle key. */
  const KEY_MARGIN: nat := 1000

  datatype Scored = Scored(member: string, score: nat)

  /** A sorted set, its members in the order they were added, and the Redis time at which its
      key expires. */
  datatype ZSet = ZSet(entries: seq<Scored>, expireAt: int)

  const NO_KEY := ZSet([], 0)

  /** One evaluation: the pod's timestamp, Redis' own clock, the member to add. */
  datatype Call = Call(now: nat, redisTime: nat, member: string)

  /** What the script answers; `ScriptError` is its arithmetic on a missing oldest member. */
  datatype Verdict = Allowed(used: nat) | Limited(used: nat, resetMs: int) | ScriptError

  // ---------------------------------------------------------------- the script

  /** The entries with a score above `t`. */
  function Above(entries: seq<Scored>, t: int): seq<Scored> {
    if entries == [] then []
    else
      var rest, last := Above(entries[..|entries| - 1], t), entries[|entries| - 1];
      if last.score > t then rest + [last] else rest
  }

  function Dropped(entries: seq<Scored>, member: string): seq<Scored> {
    if entries == [] then []
    else if entries[0].member == member then Dropped(entries[1..], member)
    else [entries[0]] + Dropped(entries[1..], member)
  }

  /** ZADD: a member already present only gets a new score. */
  function ZAdd(entries: seq<Scored>, e: Scored): seq<Scored> {
    Dropped(entries, e.member) + [e]
  }

  /** ZRANGE key 0 0 WITHSCORES: the least score. */
  function Oldest(entries: seq<Scored>): (score: nat)
    requires entries != []
    ensures exists i :: 0 <= i < |entries| && entries[i].score == score
    ensures forall i :: 0 <= i < |entries| ==> score <= entries[i].score
  {
    var last := entries[|entries| - 1].score;
    if |entries| == 1 then last
    else
      var rest := Oldest(entries[..|entries| - 1]);
      if rest < last then rest else last
  }

  /** ZREMRANGEBYSCORE key 0 now-window. A key past its expiry is gone before the script looks. */
  function Kept(z: ZSet, redisTime: nat, upTo: int): seq<Scored> {
    Above(if redisTime >= z.expireAt then [] else z.entries, upTo)
  }

  /** What the script answers, given what the prune left. */
  function Decide(kept: seq<Scored>, limit: int, window: nat, now: nat): Verdict {
    if |kept| < limit then Allowed(|kept| + 1)
    else if kept == [] then ScriptError
    else Limited(|kept|, window - (now - Oldest(kept)))
  }

  /** SLIDING_WINDOW. */
  function Eval(z: ZSet, limit: int, window: nat, call: Call): (ZSet, Verdict) {
    var kept := Kept(z, call.redisTime, call.now - window);
    var verdict := Decide(kept, limit, window, call.now);
    (if verdict.Allowed?
     then ZSet(ZAdd(kept, Scored(call.member, call.now)), call.redisTime + window + KEY_MARGIN)
     else z.(entries := kept),
     verdict)
  }

  predicate HasMember(entries: seq<Scored>, member: string) {
    exists i :: 0 <= i < |entries| && entries[i].member == member
  }

  // ---------------------------------------------------------------- the limiter object

  /** The one Redis all pods talk to. */
  class Redis {
    var sets: map<string, ZSet>

    constructor ()
      ensures sets == map[]
    {
      sets := map[];
    }
  }

  function SetAt(sets: map<string, ZSet>, key: string): ZSet {
    if key in sets then sets[key] else NO_KEY
  }

  function KeyOf(client: string): string {
    "ratelimit:" + client
  }

  /** Every client has a set of its own. */
  lemma KeyPerClient(a: string, b: string)
    ensures KeyOf(a) == "ratelimit:" + a
    ensures KeyOf(a) == KeyOf(b) <==> a == b
  {
    assert KeyOf(a)[10..] == a && KeyOf(b)[10..] == b;
  }

  /** `${instanceId}:${Date.now()}:${sequence++}`. */
  function MemberOf(pod: string, time: nat, sequence: nat): string {
    pod + ":" + Text(time) + ":" + Text(sequence)
  }

  datatype Decision = Decision(allowed: bool, used: nat, retryAfterSeconds: nat)

  /** Math.max(1, Math.ceil(resetMs / 1000)). */
  function RetryAfter(resetMs: int): nat {
    if resetMs <= 1000 then 1 else (resetMs + 999) / 1000
  }

  class SlidingWindowLimiter {
    const redis: Redis
    const instanceId: string
    const limit: int
    const windowMs: nat
    var sequence: nat

    constructor (redis: Redis, instanceId: string, limit: int, windowSeconds: nat)
      ensures this.redis == redis && this.instanceId == instanceId && this.limit == limit
      ensures windowMs == 1000 * windowSeconds && sequence == 0
    {
      this.redis, this.instanceId, this.limit := redis, instanceId, limit;
      windowMs, sequence := 1000 * windowSeconds, 0;
    }

    /** One request of `client`. The member is stamped by one reading of the pod's clock, the
        script by a second. `None` means the script raised an error. */
    method Check(client: string, memberTime: nat, now: nat, redisTime: nat) returns (r: Option<Decision>)
      modifies this`sequence, redis
      ensures sequence == old(sequence) + 1
      ensures forall other :: other != client ==> SetAt(redis.sets, KeyOf(other)) == SetAt(old(redis.sets), KeyOf(other))
      ensures var member := MemberOf(instanceId, memberTime, old(sequence));
        var (z, verdict) := Eval(SetAt(old(redis.sets), KeyOf(client)), limit, windowMs, Call(now, redisTime, member));
        && redis.sets == old(redis.sets)[KeyOf(client) := z]
        && (r.None? <==> verdict.ScriptError?)
        && (r.Some? ==> r.value.allowed == verdict.Allowed? && r.value.used == verdict.used)
        && (verdict.Allowed? ==> r.value.retryAfterSeconds == 1)
        && (verdict.Limited? ==>
              1000 * r.value.retryAfterSeconds >= verdict.resetMs
              && (r.value.retryAfterSeconds > 1 ==> 1000 * (r.value.retryAfterSeconds - 1) < verdict.resetMs))
        && (r.Some? ==> r.value.retryAfterSeconds >= 1)
    {
      var member := MemberOf(instanceId, memberTime, sequence);
      sequence := sequence + 1;
      var key := KeyOf(client);
      var (z, verdict) := Eval(SetAt(redis.sets, key), limit, windowMs, Call(now, redisTime, member));
      redis.sets := redis.sets[key := z];
      forall other | other != client ensures KeyOf(other) != key { KeyPerClient(other, client); }
      match verdict {
        case Allowed(used) => return Some(Decision(true, used, 1));
        case Limited(used, resetMs) => return Some(Decision(false, used, RetryAfter(resetMs)));
        case ScriptError => return None;
      }
    }
  }

  // ---------------------------------------------------------------- runs

  /** One client's limiter: the sorted set, and the full admission history the set is a pruned
      image of; the latest timestamp and the last Redis time seen. */
  datatype State = State(z: ZSet, history: seq<Scored>, latest: nat, lastRedis: nat)

  const FRESH := State(NO_KEY, [], 0, 0)

  function Max(a: nat, b: nat): nat {
    if a < b then b else a
  }

  function Serve(s: State, limit: int, window: nat, c: Call): (State, Verdict) {
    var (z, verdict) := Eval(s.z, limit, window, c);
    (State(z, if verdict.Allowed? then s.history + [Scored(c.member, c.now)] else s.history,
           Max(s.latest, c.now), c.redisTime),
     verdict)
  }

  /** A call as pods make them: Redis' clock does not go back, the pod's clock is within `skew`
      of it, and no admission bears the call's member yet. */
  predicate Proper(s: State, skew: nat, c: Call) {
    && s.lastRedis <= c.redisTime <= c.now + skew && c.now <= c.redisTime + skew
    && !HasMember(s.history, c.member)
  }

  predicate ValidRun(s: State, limit: int, window: nat, skew: nat, run: seq<Call>)
    decreases |run|
  {
    run == [] ||
    (Proper(s, skew, run[0]) && ValidRun(Serve(s, limit, window, run[0]).0, limit, window, skew, run[1..]))
  }

  function Run(s: State, limit: int, window: nat, run: seq<Call>): State
    decreases |run|
  {
    if run == [] then s else Run(Serve(s, limit, window, run[0]).0, limit, window, run[1..])
  }

  /** Two clocks may be apart by no more than the key outlives the window. */
  predicate InMargin(skew: nat) {
    2 * skew <= KEY_MARGIN
  }

  /** And by less than a window. */
  predicate Tight(skew: nat, window: nat) {
    2 * skew < window && InMargin(skew)
  }

  /** The call is not a whole window behind the latest timestamp. */
  predicate Timely(s: State, window: nat, c: Call) {
    window > 0 && s.latest < c.now + window
  }

  /** No admission is later than the latest timestamp, or than `lastsUntil`. */
  ghost predicate Dated(history: seq<Scored>, latest: nat, lastsUntil: int) {
    forall i :: 0 <= i < |history| ==> history[i].score <= latest && history[i].score <= lastsUntil
  }

  /** The set is the history above the window that ends at the latest timestamp seen, and the
      key outlives that window. */
  ghost predicate Inv(s: State, window: nat, skew: nat) {
    && s.z.entries == Above(s.history, s.latest - window)
    && Dated(s.history, s.latest, s.z.expireAt + skew - window - KEY_MARGIN)
    && s.latest <= s.lastRedis + skew
    && s.z.expireAt <= s.lastRedis + window + KEY_MARGIN
  }

  // ---------------------------------------------------------------- sets against histories

  lemma {:induction false} AboveHas(entries: seq<Scored>, t: int, e: Scored)
    ensures e in Above(entries, t) <==> e in entries && e.score > t
  {
    if entries != [] {
      var prefix, last := entries[..|entries| - 1], entries[|entries| - 1];
      AboveHas(prefix, t, e);
      assert e in entries <==> e in prefix || e == last;
    }
  }

  lemma {:induction false} AboveTwice(entries: seq<Scored>, t: int, u: int)
    requires t <= u
    ensures Above(Above(entries, t), u) == Above(entries, u)
  {
    if entries != [] {
      var prefix, last := entries[..|entries| - 1], entries[|entries| - 1];
      AboveTwice(prefix, t, u);
      if last.score > t {
        assert Above(entries, t)[..|Above(entries, t)| - 1] == Above(prefix, t);
      }
    }
  }

  lemma {:induction false} AboveNone(entries: seq<Scored>, t: int)
    requires forall i :: 0 <= i < |entries| ==> entries[i].score <= t
    ensures Above(entries, t) == []
  {
    if entries != [] { AboveNone(entries[..|entries| - 1], t); }
  }

  lemma {:induction false} DroppedNothing(entries: seq<Scored>, member: string)
    requires !HasMember(entries, member)
    ensures Dropped(entries, member) == entries
  {
    if entries != [] {
      assert entries[0].member != member;
      forall i | 0 <= i < |entries[1..]| ensures entries[1..][i].member != member {
        assert entries[i + 1].member != member;
      }
      DroppedNothing(entries[1..], member);
    }
  }

  lemma {:induction false} AboveTwiceBelow(entries: seq<Scored>, t: int, u: int)
    requires u <= t
    ensures Above(Above(entries, t), u) == Above(entries, t)
  {
    if entries != [] {
      var prefix, last := entries[..|entries| - 1], entries[|entries| - 1];
      AboveTwiceBelow(prefix, t, u);
      if last.score > t {
        assert Above(entries, t)[..|Above(entries, t)| - 1] == Above(prefix, t);
      }
    }
  }

  lemma {:induction false} AboveOfPush(history: seq<Scored>, e: Scored, t: int)
    requires e.score > t
    ensures Above(history + [e], t) == Above(history, t) + [e]
  {
    assert (history + [e])[..|history|] == history;
  }

  lemma {:induction false} AboveAtMost(entries: seq<Scored>, t: int)
    ensures |Above(entries, t)| <= |entries|
  {
    if entries != [] { AboveAtMost(entries[..|entries| - 1], t); }
  }

  lemma {:induction false} AboveMisses(entries: seq<Scored>, t: int, i: nat)
    requires i < |entries| && entries[i].score <= t
    ensures |Above(entries, t)| < |entries|
  {
    AboveAtMost(entries[..|entries| - 1], t);
    if i < |entries| - 1 { AboveMisses(entries[..|entries| - 1], t, i); }
  }

  lemma {:induction false} AboveEverything(entries: seq<Scored>, t: int)
    requires forall i :: 0 <= i < |entries| ==> entries[i].score > t
    ensures Above(entries, t) == entries
  {
    if entries != [] {
      AboveEverything(entries[..|entries| - 1], t);
      assert entries == entries[..|entries| - 1] + [entries[|entries| - 1]];
    }
  }

  // ---------------------------------------------------------------- one request

  /** Where the window of a request starts: `window` before the latest timestamp seen. */
  function Start(s: State, window: nat, now: nat): int {
    Max(s.latest, now) - window
  }

  /** A second prune of a pruned history. */
  lemma {:induction false} PrunedAgain(entries: seq<Scored>, history: seq<Scored>, earlier: int, upTo: int, start: int)
    requires entries == Above(history, earlier) && start == if earlier < upTo then upTo else earlier
    ensures Above(entries, upTo) == Above(history, start)
  {
    if upTo <= earlier {
      AboveTwiceBelow(history, earlier, upTo);
    } else {
      AboveTwice(history, earlier, upTo);
    }
  }

  /** What survives the prune, or the expiry of the key, is the history above the window that
      ends at the latest timestamp: the key's margin absorbs the skew of the clocks. */
  lemma KeptIsHistory(s: State, window: nat, skew: nat, c: Call)
    requires Inv(s, window, skew) && Proper(s, skew, c) && InMargin(skew)
    ensures Kept(s.z, c.redisTime, c.now - window) == Above(s.history, Start(s, window, c.now))
  {
    var start := Start(s, window, c.now);
    if c.redisTime >= s.z.expireAt {
      AboveNone(s.history, start);
    } else {
      PrunedAgain(s.z.entries, s.history, s.latest - window, c.now - window, start);
    }
  }

  /** The pruned set decides like the full history: a request is admitted exactly when fewer
      than `limit` admissions lie in the window that ends at the latest timestamp any pod has
      shown, whatever was pruned, expired or evaluated out of order. */
  lemma DecidesLikeFullHistory(s: State, limit: int, window: nat, skew: nat, c: Call)
    requires Inv(s, window, skew) && Proper(s, skew, c) && InMargin(skew)
    ensures var used := |Above(s.history, Start(s, window, c.now))|;
      var verdict := Serve(s, limit, window, c).1;
      && (verdict.Allowed? <==> used < limit)
      && (verdict.Allowed? ==> verdict.used == used + 1)
      && (verdict.Limited? ==> verdict.used == used)
      && (verdict.ScriptError? <==> limit <= 0 == used)
  {
    KeptIsHistory(s, window, skew, c);
  }

  lemma {:induction false} NotKept(history: seq<Scored>, t: int, member: string)
    requires !HasMember(history, member)
    ensures !HasMember(Above(history, t), member)
  {
    var kept := Above(history, t);
    forall i | 0 <= i < |kept| ensures kept[i].member != member {
      AboveHas(history, t, kept[i]);
      var j :| 0 <= j < |history| && history[j] == kept[i];
    }
  }

  /** An admission extends the set and the history alike. */
  lemma {:induction false} AdmissionKeepsSet(kept: seq<Scored>, history: seq<Scored>, t: int, e: Scored)
    requires kept == Above(history, t) && e.score > t && !HasMember(history, e.member)
    ensures ZAdd(kept, e) == Above(history + [e], t)
  {
    NotKept(history, t, e.member);
    DroppedNothing(kept, e.member);
    AboveOfPush(history, e, t);
  }

  lemma AdmissionKeepsInv(s: State, window: nat, skew: nat, c: Call, s': State)
    requires Inv(s, window, skew) && Proper(s, skew, c) && InMargin(skew) && Timely(s, window, c)
    requires s'.history == s.history + [Scored(c.member, c.now)]
    requires s'.latest == Max(s.latest, c.now) && s'.lastRedis == c.redisTime
    requires s'.z.entries == ZAdd(Kept(s.z, c.redisTime, c.now - window), Scored(c.member, c.now))
    requires s'.z.expireAt == c.redisTime + window + KEY_MARGIN
    ensures Inv(s', window, skew)
  {
    var t := Start(s, window, c.now);
    KeptIsHistory(s, window, skew, c);
    AdmissionKeepsSet(Kept(s.z, c.redisTime, c.now - window), s.history, t, Scored(c.member, c.now));
    assert s'.latest - window == t;
  }

  lemma RefusalKeepsInv(s: State, window: nat, skew: nat, c: Call, s': State)
    requires Inv(s, window, skew) && Proper(s, skew, c) && InMargin(skew)
    requires s'.history == s.history
    requires s'.latest == Max(s.latest, c.now) && s'.lastRedis == c.redisTime
    requires s'.z == s.z.(entries := Kept(s.z, c.redisTime, c.now - window))
    ensures Inv(s', window, skew)
  {
    KeptIsHistory(s, window, skew, c);
    assert s'.latest - window == Start(s, window, c.now);
  }

  lemma ServeKeepsInv(s: State, limit: int, window: nat, skew: nat, c: Call)
    requires Inv(s, window, skew) && Proper(s, skew, c) && InMargin(skew) && Timely(s, window, c)
    ensures Inv(Serve(s, limit, window, c).0, window, skew)
  {
    var (s', verdict) := Serve(s, limit, window, c);
    if verdict.Allowed? {
      AdmissionKeepsInv(s, window, skew, c, s');
    } else {
      RefusalKeepsInv(s, window, skew, c, s');
    }
  }

  lemma TightIsTimely(s: State, window: nat, skew: nat, c: Call)
    requires Inv(s, window, skew) && Proper(s, skew, c) && Tight(skew, window)
    ensures Timely(s, window, c)
  {
  }

  lemma {:induction false} RunKeepsInv(s: State, limit: int, window: nat, skew: nat, run: seq<Call>)
    requires Inv(s, window, skew) && ValidRun(s, limit, window, skew, run) && Tight(skew, window)
    ensures Inv(Run(s, limit, window, run), window, skew)
    decreases |run|
  {
    if run != [] {
      TightIsTimely(s, window, skew, run[0]);
      ServeKeepsInv(s, limit, window, skew, run[0]);
      RunKeepsInv(Serve(s, limit, window, run[0]).0, limit, window, skew, run[1..]);
    }
  }

  lemma FreshInv(window: nat, skew: nat)
    ensures Inv(FRESH, window, skew)
  {
  }

  // ---------------------------------------------------------------- Retry-After

  /** A prune removes something exactly when it reaches the oldest score. */
  lemma {:induction false} AboveFull(kept: seq<Scored>, t: int)
    requires kept != []
    ensures |Above(kept, t)| < |kept| <==> Oldest(kept) <= t
  {
    if Oldest(kept) <= t {
      var i :| 0 <= i < |kept| && kept[i].score == Oldest(kept);
      AboveMisses(kept, t, i);
    } else {
      AboveEverything(kept, t);
    }
  }

  /** What a refusal leaves, and when the oldest of it goes. */
  lemma RefusalShows(z: ZSet, limit: int, window: nat, call: Call)
    requires Eval(z, limit, window, call).1.Limited?
    ensures var ((z', verdict), kept) := (Eval(z, limit, window, call), Kept(z, call.redisTime, call.now - window));
      && kept != [] && z' == z.(entries := kept) && limit <= |kept| == verdict.used
      && verdict.resetMs == window - (call.now - Oldest(kept))
      && call.redisTime < z.expireAt && call.now < Oldest(kept) + window
  {
    var kept := Kept(z, call.redisTime, call.now - window);
    var i :| 0 <= i < |kept| && kept[i].score == Oldest(kept);
    AboveHas(if call.redisTime >= z.expireAt then [] else z.entries, call.now - window, kept[i]);
  }

  /** A second look at a set nobody touched meanwhile and whose key is still there. */
  predicate Admitted(z: ZSet, limit: int, window: nat, later: Call) {
    Eval(z, limit, window, later).1.Allowed?
  }

  ghost predicate AdmittedFrom(z: ZSet, limit: int, window: nat, call: Call, moment: int) {
    forall later: Call :: later.now >= call.now && later.redisTime < z.expireAt ==>
      (Admitted(z, limit, window, later) <==> later.now >= moment)
  }

  /** When the oldest entry leaves, so many stay that the set is still full. */
  predicate StaysFull(z: ZSet, limit: int)
    requires z.entries != []
  {
    |Above(z.entries, Oldest(z.entries))| >= limit
  }

  lemma {:induction false} FreeWhenOldestLeaves(z: ZSet, limit: int, window: nat, later: Call)
    requires z.entries != [] && limit <= |z.entries| && !StaysFull(z, limit) && later.redisTime < z.expireAt
    ensures Admitted(z, limit, window, later) <==> later.now >= Oldest(z.entries) + window
  {
    var t := later.now - window;
    if Oldest(z.entries) <= t {
      AboveTwice(z.entries, Oldest(z.entries), t);
      AboveAtMost(Above(z.entries, Oldest(z.entries)), t);
    } else {
      AboveFull(z.entries, t);
      AboveAtMost(z.entries, t);
    }
  }

  lemma {:induction false} ResetIsTrue(z: ZSet, limit: int, window: nat, call: Call, moment: int)
    requires z.entries != [] && limit <= |z.entries|
    requires call.redisTime < z.expireAt && call.now < moment == Oldest(z.entries) + window
    ensures AdmittedFrom(z, limit, window, call, moment) <==> !StaysFull(z, limit)
  {
    if StaysFull(z, limit) {
      var later := Call(moment, call.redisTime, "");
      assert !Admitted(z, limit, window, later);
    } else {
      forall later: Call | later.now >= call.now && later.redisTime < z.expireAt
        ensures Admitted(z, limit, window, later) <==> later.now >= moment
      {
        FreeWhenOldestLeaves(z, limit, window, later);
      }
    }
  }

  lemma RetryAfterCovers(resetMs: int)
    ensures 1000 * RetryAfter(resetMs) >= resetMs
  {
  }

  /** Whether Retry-After tells the truth: if nobody else is served meanwhile and the key is still
      there, a limited request is admitted `resetMs` later and not a millisecond sooner, if and only
      if the set is not still full when its oldest entry leaves. */
  lemma RetryAfterIsExact(z: ZSet, limit: int, window: nat, call: Call)
    requires Eval(z, limit, window, call).1.Limited?
    ensures var (z', verdict) := Eval(z, limit, window, call);
      && z'.entries != []
      && (AdmittedFrom(z', limit, window, call, call.now + verdict.resetMs) <==> !StaysFull(z', limit))
      && 1000 * RetryAfter(verdict.resetMs) >= verdict.resetMs
  {
    RefusalShows(z, limit, window, call);
    var (z', verdict) := Eval(z, limit, window, call);
    RetryAfterCovers(verdict.resetMs);
    ResetIsTrue(z', limit, window, call, call.now + verdict.resetMs);
  }

  lemma {:induction false} DroppedAtMost(entries: seq<Scored>, member: string)
    ensures |Dropped(entries, member)| <= |entries|
  {
    if entries != [] { DroppedAtMost(entries[1..], member); }
  }

  /** Pods that share a limit never let the set outgrow it. */
  lemma {:induction false} NeverOverfull(s: State, limit: int, window: nat, run: seq<Call>)
    requires limit >= 0 && |s.z.entries| <= limit
    ensures |Run(s, limit, window, run).z.entries| <= limit
    decreases |run|
  {
    if run != [] {
      ServeKeepsSize(s, limit, window, run[0]);
      NeverOverfull(Serve(s, limit, window, run[0]).0, limit, window, run[1..]);
    }
  }

  lemma {:induction false} ServeKeepsSize(s: State, limit: int, window: nat, c: Call)
    requires limit >= 0 && |s.z.entries| <= limit
    ensures |Serve(s, limit, window, c).0.z.entries| <= limit
  {
    var kept := Kept(s.z, c.redisTime, c.now - window);
    AboveAtMost(s.z.entries, c.now - window);
    DroppedAtMost(kept, c.member);
  }

  /** With one limit for all pods Retry-After is always true, whatever the clocks did before. */
  lemma {:induction false} RetryAfterIsTrue(limit: nat, window: nat, run: seq<Call>, call: Call)
    requires Eval(Run(FRESH, limit, window, run).z, limit, window, call).1.Limited?
    ensures var (z', verdict) := Eval(Run(FRESH, limit, window, run).z, limit, window, call);
      verdict.used == limit && AdmittedFrom(z', limit, window, call, call.now + verdict.resetMs)
  {
    var s := Run(FRESH, limit, window, run);
    NeverOverfull(FRESH, limit, window, run);
    ServeKeepsSize(s, limit, window, call);
    RetryAfterIsExact(s.z, limit, window, call);
    RefusalShows(s.z, limit, window, call);
    var z' := Eval(s.z, limit, window, call).0;
    AboveFull(z'.entries, Oldest(z'.entries));
  }
}
