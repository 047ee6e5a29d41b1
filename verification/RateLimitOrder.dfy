/** When the limiter keeps its promise, for every limit, window and difference of clocks: over all
    runs, and over those whose timestamps do not go back. */
module RateLimitOrder {
  import opened RateLimit
  import opened RateLimitPods

  predicate Exceeds(limit: nat, window: nat, skew: nat, run: seq<Call>, to: int) {
    ValidRun(FRESH, limit, window, skew, run) && Within(Run(FRESH, limit, window, run).history, to - window, to) > limit
  }

  /** No window of any run, whatever the order of timestamps, holds more than `limit`. */
  ghost predicate NeverExceeded(limit: nat, window: nat, skew: nat) {
    forall run, to :: !Exceeds(limit, window, skew, run, to)
  }

  ghost predicate NeverExceededInOrder(limit: nat, window: nat, skew: nat) {
    forall run, to :: InOrder(0, run) ==> !Exceeds(limit, window, skew, run, to)
  }

  /** A call stamped behind another one may be counted against a window that is gone already, and
      a key may expire under an admission still in the window. So the promise holds for all runs
      exactly if the clocks agree, or the limit is one and the key's margin covers their difference;
      or if nothing is ever admitted or counted. */
  lemma PromiseNeedsOrder(limit: nat, window: nat, skew: nat)
    ensures NeverExceeded(limit, window, skew)
      <==> window == 0 || limit == 0 || skew == 0 || (limit == 1 && InMargin(skew))
  {
    if window == 0 || limit == 0 || skew == 0 || (limit == 1 && InMargin(skew)) {
      forall run, to ensures !Exceeds(limit, window, skew, run, to) {
        if ValidRun(FRESH, limit, window, skew, run) { Keeps(limit, window, skew, run, to); }
      }
    } else if InMargin(skew) {
      var run := LateStamp(limit, window, skew);
      assert Exceeds(limit, window, skew, run, window);
    } else {
      var run := LostKey(limit, window, skew);
      assert Exceeds(limit, window, skew, run, window + 500);
    }
  }

  /** With timestamps in order only the expiry of the key is left: the promise holds exactly if its
      margin covers the difference of the clocks. */
  lemma OrderNeedsMargin(limit: nat, window: nat, skew: nat)
    ensures NeverExceededInOrder(limit, window, skew) <==> window == 0 || limit == 0 || InMargin(skew)
  {
    if window == 0 || limit == 0 || InMargin(skew) {
      forall run, to | InOrder(0, run) ensures !Exceeds(limit, window, skew, run, to) {
        if ValidRun(FRESH, limit, window, skew, run) {
          if InMargin(skew) {
            OrderedRun(limit, window, skew, run, to);
          } else {
            Keeps(limit, window, skew, run, to);
          }
        }
      }
    } else {
      var run := LostKey(limit, window, skew);
      assert Exceeds(limit, window, skew, run, window + 500);
    }
  }

  lemma {:induction false} Keeps(limit: nat, window: nat, skew: nat, run: seq<Call>, to: int)
    requires window == 0 || limit == 0 || skew == 0 || (limit == 1 && InMargin(skew))
    requires ValidRun(FRESH, limit, window, skew, run)
    ensures Within(Run(FRESH, limit, window, run).history, to - window, to) <= limit
  {
    if window == 0 {
      EmptyWindow(Run(FRESH, limit, window, run).history, to);
    } else if limit == 0 {
      NoneAdmitted(FRESH, window, run);
    } else if skew == 0 {
      FreshInv(window, skew);
      AgreeingClocksMakeOrder(FRESH, limit, window, run);
      OrderedRun(limit, window, skew, run, to);
    } else {
      OneAtATime(FRESH, window, skew, run);
      SpacedWindows(Run(FRESH, 1, window, run).history, 1, window, to);
    }
  }

  lemma {:induction false} NoneAdmitted(s: State, window: nat, run: seq<Call>)
    requires s.history == []
    ensures Run(s, 0, window, run).history == []
    decreases |run|
  {
    if run != [] { NoneAdmitted(Serve(s, 0, window, run[0]).0, window, run[1..]); }
  }

  lemma {:induction false} AgreeingClocksMakeOrder(s: State, limit: nat, window: nat, run: seq<Call>)
    requires Inv(s, window, 0) && window > 0 && ValidRun(s, limit, window, 0, run)
    ensures InOrder(s.latest, run)
    decreases |run|
  {
    if run != [] {
      ServeKeepsInv(s, limit, window, 0, run[0]);
      AgreeingClocksMakeOrder(Serve(s, limit, window, run[0]).0, limit, window, run[1..]);
    }
  }

  // ---------------------------------------------------------------- at most one

  predicate Near(now: nat, redisTime: nat, skew: nat) {
    redisTime <= now + skew && now <= redisTime + skew
  }

  /** With a limit of one the set holds the last admission, which only a call a window later
      prunes; nor can the key expire before. */
  ghost predicate LastOnly(z: ZSet, history: seq<Scored>, window: nat, skew: nat) {
    if history == [] then z.entries == []
    else
      var last := history[|history| - 1];
      z.entries == [last] && last.score + window + KEY_MARGIN <= z.expireAt + skew
  }

  lemma {:induction false} AboveOne(e: Scored, t: int)
    ensures Above([e], t) == if e.score > t then [e] else []
  {
    assert [e][..0] == [];
  }

  /** What one call finds in such a set. */
  lemma {:induction false} FindsLast(z: ZSet, history: seq<Scored>, window: nat, skew: nat, c: Call)
    requires LastOnly(z, history, window, skew) && InMargin(skew) && c.redisTime <= c.now + skew
    ensures var kept := Kept(z, c.redisTime, c.now - window);
      if history != [] && c.now < history[|history| - 1].score + window then kept == z.entries else kept == []
  {
    if history != [] { AboveOne(history[|history| - 1], c.now - window); }
  }

  lemma {:induction false} AllOld(history: seq<Scored>, window: nat, now: nat)
    requires Spaced(history, 1, window)
    requires history != [] ==> history[|history| - 1].score + window <= now
    ensures Above(history, now - window) == [] && forall i :: 0 <= i < |history| ==> history[i].score <= now
  {
    AboveNone(history, now - window);
  }

  lemma AdmitsAlone(s: State, window: nat, c: Call)
    requires Kept(s.z, c.redisTime, c.now - window) == []
    ensures var s' := Serve(s, 1, window, c).0;
      && s'.history == s.history + [Scored(c.member, c.now)]
      && s'.z == ZSet([Scored(c.member, c.now)], c.redisTime + window + KEY_MARGIN)
  {
    assert Dropped([], c.member) == [];
  }

  lemma RefusesSecond(s: State, window: nat, c: Call)
    requires |s.z.entries| == 1 && Kept(s.z, c.redisTime, c.now - window) == s.z.entries
    ensures var s' := Serve(s, 1, window, c).0; s'.history == s.history && s'.z == s.z
  {
  }

  lemma {:induction false} LastPush(history: seq<Scored>, window: nat, skew: nat, c: Call)
    requires Spaced(history, 1, window) && window > 0 && Near(c.now, c.redisTime, skew)
    requires history != [] ==> history[|history| - 1].score + window <= c.now
    ensures var e := Scored(c.member, c.now);
      && Spaced(history + [e], 1, window)
      && LastOnly(ZSet([e], c.redisTime + window + KEY_MARGIN), history + [e], window, skew)
  {
    AllOld(history, window, c.now);
    SpacedPush(history, 1, window, Scored(c.member, c.now));
  }

  lemma {:induction false} OneMore(s: State, window: nat, skew: nat, c: Call)
    requires LastOnly(s.z, s.history, window, skew) && Spaced(s.history, 1, window)
    requires window > 0 && InMargin(skew) && Proper(s, skew, c)
    ensures var s' := Serve(s, 1, window, c).0;
      LastOnly(s'.z, s'.history, window, skew) && Spaced(s'.history, 1, window)
  {
    FindsLast(s.z, s.history, window, skew, c);
    if s.history != [] && c.now < s.history[|s.history| - 1].score + window {
      RefusesSecond(s, window, c);
    } else {
      AdmitsAlone(s, window, c);
      LastPush(s.history, window, skew, c);
    }
  }

  lemma {:induction false} OneAtATime(s: State, window: nat, skew: nat, run: seq<Call>)
    requires LastOnly(s.z, s.history, window, skew) && Spaced(s.history, 1, window)
    requires window > 0 && InMargin(skew) && ValidRun(s, 1, window, skew, run)
    ensures Spaced(Run(s, 1, window, run).history, 1, window)
    decreases |run|
  {
    if run != [] {
      OneMore(s, window, skew, run[0]);
      OneAtATime(Serve(s, 1, window, run[0]).0, window, skew, run[1..]);
    }
  }

  // ---------------------------------------------------------------- a full burst

  /** Names that differ in length. */
  function Name(j: nat): (name: string)
    ensures |name| == j
  {
    seq(j, i => 'a')
  }

  /** j admissions at one moment. */
  function Alike(j: nat, now: nat): (history: seq<Scored>)
    ensures |history| == j && forall i :: 0 <= i < j ==> history[i] == Scored(Name(i), now)
  {
    if j == 0 then [] else Alike(j - 1, now) + [Scored(Name(j - 1), now)]
  }

  function BurstFrom(j: nat, limit: nat, now: nat, redisTime: nat): seq<Call>
    requires j <= limit
    decreases limit - j
  {
    if j == limit then [] else [Call(now, redisTime, Name(j))] + BurstFrom(j + 1, limit, now, redisTime)
  }

  /** After j admissions at one moment. */
  predicate InBurst(s: State, window: nat, j: nat, now: nat, redisTime: nat) {
    && s.z.entries == s.history == Alike(j, now)
    && (if j == 0 then s.lastRedis == 0
        else s.lastRedis == redisTime && s.z.expireAt == redisTime + window + KEY_MARGIN)
  }

  lemma {:induction false} NewName(j: nat, k: nat, now: nat)
    requires j <= k
    ensures !HasMember(Alike(j, now), Name(k))
  {
    forall i | 0 <= i < j ensures Alike(j, now)[i].member != Name(k) {
      assert |Name(i)| != |Name(k)|;
    }
  }

  /** An admitted call under a new name. */
  lemma Admits(s: State, limit: nat, window: nat, skew: nat, c: Call, rest: seq<Call>) returns (s': State)
    requires Proper(s, skew, c) && |Kept(s.z, c.redisTime, c.now - window)| < limit
    requires !HasMember(Kept(s.z, c.redisTime, c.now - window), c.member)
    ensures s'.z == ZSet(Kept(s.z, c.redisTime, c.now - window) + [Scored(c.member, c.now)],
                         c.redisTime + window + KEY_MARGIN)
    ensures s'.lastRedis == c.redisTime && s'.history == s.history + [Scored(c.member, c.now)]
    ensures Run(s, limit, window, [c] + rest) == Run(s', limit, window, rest)
    ensures ValidRun(s', limit, window, skew, rest) ==> ValidRun(s, limit, window, skew, [c] + rest)
  {
    DroppedNothing(Kept(s.z, c.redisTime, c.now - window), c.member);
    s' := Serve(s, limit, window, c).0;
    assert ([c] + rest)[0] == c && ([c] + rest)[1..] == rest;
  }

  lemma BurstStep(s: State, limit: nat, window: nat, skew: nat, j: nat, now: nat, redisTime: nat, rest: seq<Call>)
    returns (s1: State)
    requires InBurst(s, window, j, now, redisTime) && j < limit && window > 0 && Near(now, redisTime, skew)
    ensures InBurst(s1, window, j + 1, now, redisTime)
    ensures Run(s, limit, window, [Call(now, redisTime, Name(j))] + rest) == Run(s1, limit, window, rest)
    ensures ValidRun(s1, limit, window, skew, rest) ==>
      ValidRun(s, limit, window, skew, [Call(now, redisTime, Name(j))] + rest)
  {
    NewName(j, j, now);
    AboveEverything(s.z.entries, now - window);
    s1 := Admits(s, limit, window, skew, Call(now, redisTime, Name(j)), rest);
  }

  lemma BurstUnfolds(j: nat, limit: nat, now: nat, redisTime: nat, rest: seq<Call>)
    requires j < limit
    ensures BurstFrom(j, limit, now, redisTime) + rest
      == [Call(now, redisTime, Name(j))] + (BurstFrom(j + 1, limit, now, redisTime) + rest)
  {
  }

  lemma {:induction false} BurstIsAdmitted(s: State, limit: nat, window: nat, skew: nat, j: nat,
                                           now: nat, redisTime: nat, rest: seq<Call>) returns (s': State)
    requires InBurst(s, window, j, now, redisTime) && j <= limit && window > 0 && Near(now, redisTime, skew)
    ensures InBurst(s', window, limit, now, redisTime)
    ensures Run(s, limit, window, BurstFrom(j, limit, now, redisTime) + rest) == Run(s', limit, window, rest)
    ensures ValidRun(s', limit, window, skew, rest) ==>
      ValidRun(s, limit, window, skew, BurstFrom(j, limit, now, redisTime) + rest)
    decreases limit - j
  {
    if j == limit {
      s' := s;
      assert BurstFrom(j, limit, now, redisTime) + rest == rest;
    } else {
      BurstUnfolds(j, limit, now, redisTime, rest);
      var s1 := BurstStep(s, limit, window, skew, j, now, redisTime, BurstFrom(j + 1, limit, now, redisTime) + rest);
      s' := BurstIsAdmitted(s1, limit, window, skew, j + 1, now, redisTime, rest);
    }
  }

  // ---------------------------------------------------------------- what is admitted too much

  /** A full burst at time 1; one call stamped a window later, which prunes it; one stamped a
      millisecond before that, evaluated after it. */
  lemma LateStamp(limit: nat, window: nat, skew: nat) returns (run: seq<Call>)
    requires window > 0 && limit >= 2 && skew >= 1
    ensures Exceeds(limit, window, skew, run, window)
  {
    var c, d := Call(window + 1, window, Name(limit)), Call(window, window, Name(limit + 1));
    run := BurstFrom(0, limit, 1, 1) + ([c] + ([d] + []));
    var s := BurstIsAdmitted(FRESH, limit, window, skew, 0, 1, 1, [c] + ([d] + []));
    var s1 := Later(s, limit, window, skew, c, [d] + []);
    var s2 := LaterStill(s1, limit, window, skew, Scored(c.member, c.now), d);
    OneTooMany(limit, window, Scored(c.member, c.now), Scored(d.member, d.now));
  }

  lemma {:induction false} OneTooMany(limit: nat, window: nat, c: Scored, d: Scored)
    requires window > 0 && c.score == window + 1 && d.score == window
    ensures Within(Alike(limit, 1) + [c] + [d], 0, window) == limit + 1
  {
    WithinOfPush(Alike(limit, 1) + [c], d, 0, window);
    WithinOfPush(Alike(limit, 1), c, 0, window);
    AllWithin(Alike(limit, 1), 0, window);
  }

  lemma LaterStill(s: State, limit: nat, window: nat, skew: nat, e: Scored, d: Call) returns (s': State)
    requires s.z == ZSet([e], 2 * window + KEY_MARGIN) && s.history == Alike(limit, 1) + [e] && s.lastRedis == window
    requires window > 0 && limit >= 2 && skew >= 1
    requires e == Scored(Name(limit), window + 1) && d == Call(window, window, Name(limit + 1))
    ensures s'.history == s.history + [Scored(d.member, d.now)]
    ensures Run(s, limit, window, [d] + []) == s' && ValidRun(s, limit, window, skew, [d] + [])
  {
    NewName(limit, limit + 1, 1);
    assert |e.member| != |d.member|;
    NewMember(Alike(limit, 1), e, d.member);
    AboveOne(e, d.now - window);
    NewInOne(e, d.member);
    s' := Admits(s, limit, window, skew, d, []);
  }

  lemma Later(s: State, limit: nat, window: nat, skew: nat, c: Call, rest: seq<Call>) returns (s1: State)
    requires InBurst(s, window, limit, 1, 1) && window > 0 && limit >= 2 && skew >= 1
    requires c == Call(window + 1, window, Name(limit))
    ensures s1.z == ZSet([Scored(c.member, c.now)], 2 * window + KEY_MARGIN)
    ensures s1.lastRedis == window && s1.history == s.history + [Scored(c.member, c.now)]
    ensures Run(s, limit, window, [c] + rest) == Run(s1, limit, window, rest)
    ensures ValidRun(s1, limit, window, skew, rest) ==> ValidRun(s, limit, window, skew, [c] + rest)
  {
    NewName(limit, limit, 1);
    AboveNone(s.history, 1);
    assert Kept(s.z, c.redisTime, c.now - window) == [];
    s1 := Admits(s, limit, window, skew, c, rest);
  }

  lemma NewInOne(e: Scored, name: string)
    requires e.member != name
    ensures !HasMember([e], name)
  {
  }

  /** A full burst stamped 501 ms ahead of Redis; one call stamped 500 ms behind it when the key
      has just expired, not a window later by its timestamps. */
  lemma LostKey(limit: nat, window: nat, skew: nat) returns (run: seq<Call>)
    requires window > 0 && limit >= 1 && !InMargin(skew)
    ensures InOrder(0, run) && Exceeds(limit, window, skew, run, window + 500)
  {
    var c := Call(window + 500, window + KEY_MARGIN, Name(limit));
    run := BurstFrom(0, limit, 501, 0) + ([c] + []);
    var s := BurstIsAdmitted(FRESH, limit, window, skew, 0, 501, 0, [c] + []);
    NewName(limit, limit, 501);
    assert Kept(s.z, c.redisTime, c.now - window) == [];
    var s1 := Admits(s, limit, window, skew, c, []);
    WithinOfPush(s.history, Scored(c.member, c.now), 500, window + 500);
    AllWithin(s.history, 500, window + 500);
    BurstInOrder(0, 0, limit, 501, 0, [c] + []);
  }

  lemma {:induction false} BurstInOrder(latest: nat, j: nat, limit: nat, now: nat, redisTime: nat, rest: seq<Call>)
    requires j <= limit && latest <= now && InOrder(now, rest)
    ensures InOrder(latest, BurstFrom(j, limit, now, redisTime) + rest)
    decreases limit - j
  {
    if j == limit {
      assert BurstFrom(j, limit, now, redisTime) + rest == rest;
      assert rest != [] ==> latest <= rest[0].now;
    } else {
      BurstUnfolds(j, limit, now, redisTime, rest);
      var more := BurstFrom(j + 1, limit, now, redisTime) + rest;
      BurstInOrder(now, j + 1, limit, now, redisTime, rest);
      assert ([Call(now, redisTime, Name(j))] + more)[1..] == more;
    }
  }

  lemma NewMember(history: seq<Scored>, e: Scored, name: string)
    requires !HasMember(history, name) && e.member != name
    ensures !HasMember(history + [e], name)
  {
    forall i | 0 <= i < |history| + 1 ensures (history + [e])[i].member != name {
      if i < |history| { assert history[i].member != name; }
    }
  }

  lemma {:induction false} WithinOfPush(history: seq<Scored>, e: Scored, from: int, to: int)
    ensures Within(history + [e], from, to) == Within(history, from, to) + if from < e.score <= to then 1 else 0
  {
    assert (history + [e])[..|history|] == history;
  }

  lemma {:induction false} AllWithin(history: seq<Scored>, from: int, to: int)
    requires forall i :: 0 <= i < |history| ==> from < history[i].score <= to
    ensures Within(history, from, to) == |history|
  {
    if history != [] { AllWithin(history[..|history| - 1], from, to); }
  }
}
