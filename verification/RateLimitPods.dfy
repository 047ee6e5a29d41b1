/** What the limiter guarantees over whole runs, for any number of pods. */
module RateLimitPods {
  import opened Decimal
  import opened RateLimit

  // ---------------------------------------------------------------- windows

  /** How many admissions have a timestamp in (from, to]. */
  function Within(history: seq<Scored>, from: int, to: int): nat {
    if history == [] then 0
    else
      var last := history[|history| - 1];
      Within(history[..|history| - 1], from, to) + if from < last.score <= to then 1 else 0
  }

  lemma {:induction false} WithinAll(history: seq<Scored>, from: int, to: int)
    requires forall i :: 0 <= i < |history| ==> history[i].score <= to
    ensures Within(history, from, to) == |Above(history, from)|
  {
    if history != [] { WithinAll(history[..|history| - 1], from, to); }
  }

  lemma {:induction false} AboveShrinks(history: seq<Scored>, t: int, u: int)
    requires t <= u
    ensures |Above(history, u)| <= |Above(history, t)|
  {
    if history != [] { AboveShrinks(history[..|history| - 1], t, u); }
  }

  lemma {:induction false} OneDecision(s: State, limit: int, window: nat, skew: nat, c: Call)
    requires Inv(s, window, skew) && Proper(s, skew, c) && InMargin(skew)
    ensures var verdict := Serve(s, limit, window, c).1;
      && (verdict.Allowed? <==> |Above(s.history, Start(s, window, c.now))| < limit)
      && (c.now >= s.latest ==> (verdict.Allowed? <==> Within(s.history, c.now - window, c.now) < limit))
  {
    DecidesLikeFullHistory(s, limit, window, skew, c);
    if c.now >= s.latest {
      WithinUpTo(s.history, s.latest, c.now, c.now - window);
      assert Start(s, window, c.now) == c.now - window;
    }
  }

  lemma {:induction false} WithinUpTo(history: seq<Scored>, latest: nat, now: nat, from: int)
    requires forall i :: 0 <= i < |history| ==> history[i].score <= latest
    requires latest <= now
    ensures Within(history, from, now) == |Above(history, from)|
  {
    WithinAll(history, from, now);
  }

  /** After any run, the next call is decided by the full history; when its timestamp is not
      behind the others, by the admissions of the window that ends with it. */
  lemma {:induction false} EveryDecision(limit: int, window: nat, skew: nat, run: seq<Call>, c: Call)
    requires Tight(skew, window) && ValidRun(FRESH, limit, window, skew, run)
    requires Proper(Run(FRESH, limit, window, run), skew, c)
    ensures var s := Run(FRESH, limit, window, run);
      var verdict := Serve(s, limit, window, c).1;
      && (verdict.Allowed? <==> |Above(s.history, Start(s, window, c.now))| < limit)
      && (c.now >= s.latest ==> (verdict.Allowed? <==> Within(s.history, c.now - window, c.now) < limit))
  {
    FreshInv(window, skew);
    RunKeepsInv(FRESH, limit, window, skew, run);
    OneDecision(Run(FRESH, limit, window, run), limit, window, skew, c);
  }

  /** The timestamps of a run, in the order of evaluation, do not go back. */
  predicate InOrder(latest: nat, run: seq<Call>)
    decreases |run|
  {
    run == [] || (latest <= run[0].now && InOrder(run[0].now, run[1..]))
  }

  /** At the moment of each admission the window it closed held at most `limit`. */
  ghost predicate Spaced(history: seq<Scored>, limit: int, window: nat) {
    history == [] ||
    (var last, prefix := history[|history| - 1], history[..|history| - 1];
     && Spaced(prefix, limit, window)
     && |Above(history, last.score - window)| <= limit
     && forall i :: 0 <= i < |prefix| ==> prefix[i].score <= last.score)
  }

  lemma {:induction false} SpacedPush(history: seq<Scored>, limit: int, window: nat, e: Scored)
    requires Spaced(history, limit, window) && window > 0
    requires forall i :: 0 <= i < |history| ==> history[i].score <= e.score
    requires |Above(history, e.score - window)| < limit
    ensures Spaced(history + [e], limit, window)
  {
    AboveOfPush(history, e, e.score - window);
    assert (history + [e])[..|history|] == history;
  }

  lemma {:induction false} SpacedStep(s: State, limit: int, window: nat, skew: nat, c: Call)
    requires Inv(s, window, skew) && Proper(s, skew, c) && InMargin(skew) && window > 0 && s.latest <= c.now
    requires Spaced(s.history, limit, window)
    ensures Spaced(Serve(s, limit, window, c).0.history, limit, window)
  {
    DecidesLikeFullHistory(s, limit, window, skew, c);
    assert Start(s, window, c.now) == c.now - window;
    if Serve(s, limit, window, c).1.Allowed? {
      SpacedPush(s.history, limit, window, Scored(c.member, c.now));
    }
  }

  lemma {:induction false} SpacedRun(s: State, limit: int, window: nat, skew: nat, run: seq<Call>)
    requires Inv(s, window, skew) && ValidRun(s, limit, window, skew, run) && InMargin(skew) && window > 0
    requires InOrder(s.latest, run) && Spaced(s.history, limit, window)
    ensures Spaced(Run(s, limit, window, run).history, limit, window)
    decreases |run|
  {
    if run != [] {
      SpacedStep(s, limit, window, skew, run[0]);
      ServeKeepsInv(s, limit, window, skew, run[0]);
      SpacedRun(Serve(s, limit, window, run[0]).0, limit, window, skew, run[1..]);
    }
  }

  lemma {:induction false} LastWindow(history: seq<Scored>, limit: nat, t: int, from: int, to: int)
    requires forall i :: 0 <= i < |history| ==> history[i].score <= to
    requires |Above(history, t)| <= limit && t <= from
    ensures Within(history, from, to) <= limit
  {
    WithinAll(history, from, to);
    AboveShrinks(history, t, from);
  }

  lemma {:induction false} SpacedWindows(history: seq<Scored>, limit: nat, window: nat, to: int)
    requires Spaced(history, limit, window)
    ensures Within(history, to - window, to) <= limit
  {
    if history != [] {
      var last, prefix := history[|history| - 1], history[..|history| - 1];
      if last.score > to {
        SpacedWindows(prefix, limit, window, to);
      } else {
        LastWindow(history, limit, last.score - window, to - window, to);
      }
    }
  }

  lemma {:induction false} EmptyWindow(history: seq<Scored>, to: int)
    ensures Within(history, to, to) == 0
  {
    if history != [] { EmptyWindow(history[..|history| - 1], to); }
  }

  lemma OrderedRun(limit: nat, window: nat, skew: nat, run: seq<Call>, to: int)
    requires InMargin(skew) && ValidRun(FRESH, limit, window, skew, run) && InOrder(0, run)
    ensures Within(Run(FRESH, limit, window, run).history, to - window, to) <= limit
  {
    if window == 0 {
      EmptyWindow(Run(FRESH, limit, window, run).history, to);
    } else {
      FreshInv(window, skew);
      SpacedRun(FRESH, limit, window, skew, run);
      SpacedWindows(Run(FRESH, limit, window, run).history, limit, window, to);
    }
  }

  // ---------------------------------------------------------------- pods

  /** A request seen from outside: the pod that served it and its clock readings. */
  datatype Request = Request(pod: string, memberTime: nat, now: nat, redisTime: nat)

  function SequenceOf(sequences: map<string, nat>, pod: string): nat {
    if pod in sequences then sequences[pod] else 0
  }

  /** The calls the pods make of their requests; each pod counts its own. */
  function Calls(sequences: map<string, nat>, requests: seq<Request>): seq<Call>
    decreases |requests|
  {
    if requests == [] then []
    else
      var r := requests[0];
      var n := SequenceOf(sequences, r.pod);
      [Call(r.now, r.redisTime, MemberOf(r.pod, r.memberTime, n))] + Calls(sequences[r.pod := n + 1], requests[1..])
  }

  /** Redis' clock does not go back, and every pod's clock is within `skew` of it. */
  predicate ClocksAgree(lastRedis: nat, skew: nat, requests: seq<Request>)
    decreases |requests|
  {
    requests == [] ||
    (var r := requests[0];
     && lastRedis <= r.redisTime <= r.now + skew && r.now <= r.redisTime + skew
     && ClocksAgree(r.redisTime, skew, requests[1..]))
  }

  predicate StampsInOrder(latest: nat, requests: seq<Request>)
    decreases |requests|
  {
    requests == [] || (latest <= requests[0].now && StampsInOrder(requests[0].now, requests[1..]))
  }

  lemma SplitAtColon(a: string, b: string, c: string, d: string)
    requires a + ":" + b == c + ":" + d && AllDigits(b) && AllDigits(d)
    ensures a == c && b == d
  {
    var s := a + ":" + b;
    assert s[|a|] == ':' && s[|c|] == ':';
    assert forall k :: |a| < k < |s| ==> IsDigit(s[k]) by {
      forall k | |a| < k < |s| ensures IsDigit(s[k]) { assert s[k] == b[k - |a| - 1]; }
    }
    assert forall k :: |c| < k < |s| ==> IsDigit(s[k]) by {
      forall k | |c| < k < |s| ensures IsDigit(s[k]) { assert s[k] == d[k - |c| - 1]; }
    }
    assert |a| == |c|;
    assert a == s[..|a|] && c == s[..|c|];
    assert b == s[|a| + 1..] && d == s[|c| + 1..];
  }

  /** Members of different pods, or with different counters, differ, whatever the pods are
      called. */
  lemma MemberInjective(pod: string, time: nat, sequence: nat, pod': string, time': nat, sequence': nat)
    ensures MemberOf(pod, time, sequence) == MemberOf(pod', time', sequence')
            <==> pod == pod' && time == time' && sequence == sequence'
  {
    if MemberOf(pod, time, sequence) == MemberOf(pod', time', sequence') {
      SplitAtColon(pod + ":" + Text(time), Text(sequence), pod' + ":" + Text(time'), Text(sequence'));
      SplitAtColon(pod, Text(time), pod', Text(time'));
      TextInjective(time, time');
      TextInjective(sequence, sequence');
    }
  }

  /** A member some pod has used up. */
  ghost predicate Stamped(sequences: map<string, nat>, member: string) {
    exists pod: string, time: nat, sequence: nat ::
      member == MemberOf(pod, time, sequence) && sequence < SequenceOf(sequences, pod)
  }

  ghost predicate AllStamped(sequences: map<string, nat>, history: seq<Scored>) {
    forall i :: 0 <= i < |history| ==> Stamped(sequences, history[i].member)
  }

  lemma FreshMember(sequences: map<string, nat>, pod: string, time: nat)
    ensures !Stamped(sequences, MemberOf(pod, time, SequenceOf(sequences, pod)))
  {
    var member := MemberOf(pod, time, SequenceOf(sequences, pod));
    if Stamped(sequences, member) {
      var p: string, t: nat, n: nat :| member == MemberOf(p, t, n) && n < SequenceOf(sequences, p);
      MemberInjective(pod, time, SequenceOf(sequences, pod), p, t, n);
    }
  }

  lemma StampedStays(sequences: map<string, nat>, pod: string, time: nat, history: seq<Scored>)
    requires AllStamped(sequences, history)
    ensures var n := SequenceOf(sequences, pod);
      && AllStamped(sequences[pod := n + 1], history)
      && Stamped(sequences[pod := n + 1], MemberOf(pod, time, n))
  {
    var sequences' := sequences[pod := SequenceOf(sequences, pod) + 1];
    forall i | 0 <= i < |history| ensures Stamped(sequences', history[i].member) {
      var p: string, t: nat, n: nat :| history[i].member == MemberOf(p, t, n) && n < SequenceOf(sequences, p);
      assert n < SequenceOf(sequences', p);
    }
    assert SequenceOf(sequences, pod) < SequenceOf(sequences', pod);
  }

  lemma {:induction false} PodCallIsProper(s: State, sequences: map<string, nat>, limit: int, window: nat, skew: nat, r: Request)
    requires AllStamped(sequences, s.history) && ClocksAgree(s.lastRedis, skew, [r])
    ensures var n := SequenceOf(sequences, r.pod);
      var c := Call(r.now, r.redisTime, MemberOf(r.pod, r.memberTime, n));
      && Proper(s, skew, c)
      && AllStamped(sequences[r.pod := n + 1], Serve(s, limit, window, c).0.history)
  {
    FreshMember(sequences, r.pod, r.memberTime);
    StampedStays(sequences, r.pod, r.memberTime, s.history);
  }

  /** The first call of a series, and what the pods' counters are after it. */
  lemma FirstCall(s: State, sequences: map<string, nat>, limit: int, window: nat, skew: nat, requests: seq<Request>)
    returns (c: Call, sequences': map<string, nat>)
    requires requests != [] && AllStamped(sequences, s.history) && ClocksAgree(s.lastRedis, skew, requests)
    ensures Calls(sequences, requests) == [c] + Calls(sequences', requests[1..])
    ensures Proper(s, skew, c) && c.redisTime == requests[0].redisTime
    ensures AllStamped(sequences', Serve(s, limit, window, c).0.history)
  {
    var r, n := requests[0], SequenceOf(sequences, requests[0].pod);
    c, sequences' := Call(r.now, r.redisTime, MemberOf(r.pod, r.memberTime, n)), sequences[r.pod := n + 1];
    PodCallIsProper(s, sequences, limit, window, skew, r);
  }

  /** What pods send is proper: no two admissions can share a member. */
  lemma {:induction false} PodsMakeValidRuns(s: State, sequences: map<string, nat>, limit: int, window: nat,
                                             skew: nat, requests: seq<Request>)
    requires AllStamped(sequences, s.history) && ClocksAgree(s.lastRedis, skew, requests)
    ensures ValidRun(s, limit, window, skew, Calls(sequences, requests))
    decreases |requests|
  {
    if requests != [] {
      var c, sequences' := FirstCall(s, sequences, limit, window, skew, requests);
      PodsMakeValidRuns(Serve(s, limit, window, c).0, sequences', limit, window, skew, requests[1..]);
      ValidFrom(s, limit, window, skew, c, Calls(sequences', requests[1..]));
    }
  }

  lemma {:induction false} ValidFrom(s: State, limit: int, window: nat, skew: nat, c: Call, rest: seq<Call>)
    requires Proper(s, skew, c) && ValidRun(Serve(s, limit, window, c).0, limit, window, skew, rest)
    ensures ValidRun(s, limit, window, skew, [c] + rest)
  {
    assert ([c] + rest)[0] == c && ([c] + rest)[1..] == rest;
  }

  lemma {:induction false} StampsMakeOrder(latest: nat, sequences: map<string, nat>, requests: seq<Request>)
    requires StampsInOrder(latest, requests)
    ensures InOrder(latest, Calls(sequences, requests))
    decreases |requests|
  {
    if requests != [] {
      var r := requests[0];
      StampsMakeOrder(r.now, sequences[r.pod := SequenceOf(sequences, r.pod) + 1], requests[1..]);
    }
  }

  /** With timestamps that do not go back, no interval of one window length, wherever it lies in
      the run and however many pods served it, holds more than `limit` admissions; prunes, idle
      keys and expiries included. */
  lemma NoWindowExceedsLimit(limit: nat, window: nat, skew: nat, requests: seq<Request>, to: int)
    requires InMargin(skew) && ClocksAgree(0, skew, requests) && StampsInOrder(0, requests)
    ensures Within(Run(FRESH, limit, window, Calls(map[], requests)).history, to - window, to) <= limit
  {
    var run := Calls(map[], requests);
    PodsMakeValidRuns(FRESH, map[], limit, window, skew, requests);
    StampsMakeOrder(0, map[], requests);
    OrderedRun(limit, window, skew, run, to);
  }
}
