/** Any number of clients served by any number of pods: each is limited as if it were the only one. */
module RateLimitClients {
  import opened Wrappers
  import opened RateLimit
  import opened RateLimitPods

  datatype ClientRequest = ClientRequest(client: string, request: Request)

  /** The call a pod makes of its next request. */
  function CallOf(sequences: map<string, nat>, r: Request): Call {
    Call(r.now, r.redisTime, MemberOf(r.pod, r.memberTime, SequenceOf(sequences, r.pod)))
  }

  /** A pod counts its requests, whoever they come from. */
  function Next(sequences: map<string, nat>, r: Request): map<string, nat> {
    sequences[r.pod := SequenceOf(sequences, r.pod) + 1]
  }

  /** One `check`: the effect on Redis is on the client's key alone. */
  function Checked(sets: map<string, ZSet>, sequences: map<string, nat>, limit: int, window: nat, c: ClientRequest)
    : (map<string, ZSet>, Verdict)
  {
    var (z, verdict) := Eval(SetAt(sets, KeyOf(c.client)), limit, window, CallOf(sequences, c.request));
    (sets[KeyOf(c.client) := z], verdict)
  }

  /** The limiter of a pod does this. */
  method Check(limiter: SlidingWindowLimiter, sequences: map<string, nat>, c: ClientRequest)
    returns (r: Option<Decision>)
    requires limiter.instanceId == c.request.pod && limiter.sequence == SequenceOf(sequences, c.request.pod)
    modifies limiter`sequence, limiter.redis
    ensures limiter.redis.sets
      == Checked(old(limiter.redis.sets), sequences, limiter.limit, limiter.windowMs, c).0
    ensures limiter.sequence == SequenceOf(Next(sequences, c.request), c.request.pod)
    ensures r.Some? ==>
      (r.value.allowed <==> Checked(old(limiter.redis.sets), sequences, limiter.limit, limiter.windowMs, c).1.Allowed?)
  {
    r := limiter.Check(c.client, c.request.memberTime, c.request.now, c.request.redisTime);
  }

  /** What is in Redis after a series of requests. */
  function After(sets: map<string, ZSet>, sequences: map<string, nat>, limit: int, window: nat, requests: seq<ClientRequest>)
    : map<string, ZSet>
    decreases |requests|
  {
    if requests == [] then sets
    else After(Checked(sets, sequences, limit, window, requests[0]).0, Next(sequences, requests[0].request),
               limit, window, requests[1..])
  }

  /** The admissions of one client among them. */
  function Admissions(sets: map<string, ZSet>, sequences: map<string, nat>, limit: int, window: nat,
                      requests: seq<ClientRequest>, client: string): seq<Scored>
    decreases |requests|
  {
    if requests == [] then []
    else
      var c, (sets', verdict) := requests[0], Checked(sets, sequences, limit, window, requests[0]);
      var call := CallOf(sequences, c.request);
      (if c.client == client && verdict.Allowed? then [Scored(call.member, call.now)] else [])
      + Admissions(sets', Next(sequences, c.request), limit, window, requests[1..], client)
  }

  /** The calls made for one client among them. */
  function CallsFor(sequences: map<string, nat>, requests: seq<ClientRequest>, client: string): seq<Call>
    decreases |requests|
  {
    if requests == [] then []
    else
      (if requests[0].client == client then [CallOf(sequences, requests[0].request)] else [])
      + CallsFor(Next(sequences, requests[0].request), requests[1..], client)
  }

  predicate ClocksAgreeFor(lastRedis: nat, skew: nat, requests: seq<ClientRequest>)
    decreases |requests|
  {
    requests == [] ||
    (ClocksAgree(lastRedis, skew, [requests[0].request])
     && ClocksAgreeFor(requests[0].request.redisTime, skew, requests[1..]))
  }

  /** The requests of others change nothing for a client. */
  lemma OthersDoNotMatter(sets: map<string, ZSet>, sequences: map<string, nat>, limit: int, window: nat,
                          c: ClientRequest, client: string)
    requires c.client != client
    ensures SetAt(Checked(sets, sequences, limit, window, c).0, KeyOf(client)) == SetAt(sets, KeyOf(client))
  {
    KeyPerClient(c.client, client);
  }

  lemma StampedOn(sequences: map<string, nat>, r: Request, history: seq<Scored>)
    requires AllStamped(sequences, history)
    ensures AllStamped(Next(sequences, r), history)
  {
    StampedStays(sequences, r.pod, r.memberTime, history);
  }

  /** The client's own request, in its set and in its history. */
  lemma {:induction false} OwnRequest(s: State, sets: map<string, ZSet>, sequences: map<string, nat>, limit: int, window: nat, skew: nat,
                   c: ClientRequest, lastRedis: nat)
    requires AllStamped(sequences, s.history) && s.z == SetAt(sets, KeyOf(c.client))
    requires s.lastRedis <= lastRedis && ClocksAgree(lastRedis, skew, [c.request])
    ensures var call := CallOf(sequences, c.request);
      var s' := Serve(s, limit, window, call).0;
      && Proper(s, skew, call) && AllStamped(Next(sequences, c.request), s'.history)
      && s'.z == SetAt(Checked(sets, sequences, limit, window, c).0, KeyOf(c.client))
      && s'.lastRedis == c.request.redisTime
  {
    PodCallIsProper(s, sequences, limit, window, skew, c.request);
  }

  /** The requests of one client, taken out of a series of everybody's, are a run of the limiter for
      that client: its set, its admissions and its members are those of the run. */
  ghost predicate Apart(s: State, sets: map<string, ZSet>, sequences: map<string, nat>, limit: int,
                        window: nat, skew: nat, requests: seq<ClientRequest>, client: string) {
    var calls := CallsFor(sequences, requests, client);
    && ValidRun(s, limit, window, skew, calls)
    && Run(s, limit, window, calls).z == SetAt(After(sets, sequences, limit, window, requests), KeyOf(client))
    && Run(s, limit, window, calls).history
       == s.history + Admissions(sets, sequences, limit, window, requests, client)
  }

  lemma ApartWithOwn(s: State, sets: map<string, ZSet>, sequences: map<string, nat>, limit: int,
                     window: nat, skew: nat, c: ClientRequest, rest: seq<ClientRequest>, requests: seq<ClientRequest>)
    requires requests == [c] + rest && Proper(s, skew, CallOf(sequences, c.request))
    requires s.z == SetAt(sets, KeyOf(c.client))
    requires Apart(Serve(s, limit, window, CallOf(sequences, c.request)).0, Checked(sets, sequences, limit, window, c).0,
                   Next(sequences, c.request), limit, window, skew, rest, c.client)
    ensures Apart(s, sets, sequences, limit, window, skew, requests, c.client)
  {
    var call, sequences' := CallOf(sequences, c.request), Next(sequences, c.request);
    var calls := CallsFor(sequences', rest, c.client);
    assert requests[0] == c && requests[1..] == rest;
    ValidFrom(s, limit, window, skew, call, calls);
    OneCallOn(s, limit, window, call, calls);
    AdmissionsWithOwn(s, sets, sequences, limit, window, c, rest, requests);
  }

  lemma {:induction false} AdmissionsWithOwn(s: State, sets: map<string, ZSet>, sequences: map<string, nat>, limit: int, window: nat,
                          c: ClientRequest, rest: seq<ClientRequest>, requests: seq<ClientRequest>)
    requires requests == [c] + rest && s.z == SetAt(sets, KeyOf(c.client))
    ensures s.history + Admissions(sets, sequences, limit, window, requests, c.client)
      == Serve(s, limit, window, CallOf(sequences, c.request)).0.history
         + Admissions(Checked(sets, sequences, limit, window, c).0, Next(sequences, c.request), limit, window, rest, c.client)
  {
    var call := CallOf(sequences, c.request);
    var tail := Admissions(Checked(sets, sequences, limit, window, c).0, Next(sequences, c.request), limit, window, rest, c.client);
    SameVerdict(s, sets, sequences, limit, window, c);
    AdmissionsUnfold(sets, sequences, limit, window, c, rest, requests, call, tail);
    HistoryOn(s, limit, window, call, tail);
  }

  lemma {:induction false} AdmissionsUnfold(sets: map<string, ZSet>, sequences: map<string, nat>, limit: int, window: nat,
                                            c: ClientRequest, rest: seq<ClientRequest>, requests: seq<ClientRequest>,
                                            call: Call, tail: seq<Scored>)
    requires requests == [c] + rest && call == CallOf(sequences, c.request)
    requires tail == Admissions(Checked(sets, sequences, limit, window, c).0, Next(sequences, c.request),
                                limit, window, rest, c.client)
    ensures Admissions(sets, sequences, limit, window, requests, c.client)
      == (if Checked(sets, sequences, limit, window, c).1.Allowed? then [Scored(call.member, call.now)] else []) + tail
  {
    assert requests[0] == c && requests[1..] == rest;
  }

  lemma HistoryOn(s: State, limit: int, window: nat, call: Call, tail: seq<Scored>)
    ensures var (s', verdict) := Serve(s, limit, window, call);
      s'.history + tail == s.history + ((if verdict.Allowed? then [Scored(call.member, call.now)] else []) + tail)
  {
  }

  lemma ApartWithOther(s: State, sets: map<string, ZSet>, sequences: map<string, nat>, limit: int, window: nat,
                       skew: nat, c: ClientRequest, rest: seq<ClientRequest>, requests: seq<ClientRequest>, client: string)
    requires requests == [c] + rest && c.client != client
    requires Apart(s, Checked(sets, sequences, limit, window, c).0, Next(sequences, c.request),
                   limit, window, skew, rest, client)
    ensures Apart(s, sets, sequences, limit, window, skew, requests, client)
  {
    assert requests[0] == c && requests[1..] == rest;
    assert CallsFor(sequences, requests, client) == CallsFor(Next(sequences, c.request), rest, client);
    assert Admissions(sets, sequences, limit, window, requests, client)
      == Admissions(Checked(sets, sequences, limit, window, c).0, Next(sequences, c.request), limit, window, rest, client);
  }

  lemma {:induction false} ClientsAreApart(s: State, sets: map<string, ZSet>, sequences: map<string, nat>, limit: int,
                                           window: nat, skew: nat, requests: seq<ClientRequest>, client: string,
                                           lastRedis: nat)
    requires AllStamped(sequences, s.history) && s.z == SetAt(sets, KeyOf(client))
    requires s.lastRedis <= lastRedis && ClocksAgreeFor(lastRedis, skew, requests)
    ensures Apart(s, sets, sequences, limit, window, skew, requests, client)
    decreases |requests|
  {
    if requests != [] {
      var c, rest := requests[0], requests[1..];
      var sets', sequences' := Checked(sets, sequences, limit, window, c).0, Next(sequences, c.request);
      if c.client == client {
        OwnRequest(s, sets, sequences, limit, window, skew, c, lastRedis);
        ClientsAreApart(Serve(s, limit, window, CallOf(sequences, c.request)).0, sets', sequences',
                        limit, window, skew, rest, client, c.request.redisTime);
        ApartWithOwn(s, sets, sequences, limit, window, skew, c, rest, requests);
      } else {
        OthersDoNotMatter(sets, sequences, limit, window, c, client);
        StampedOn(sequences, c.request, s.history);
        ClientsAreApart(s, sets', sequences', limit, window, skew, rest, client, c.request.redisTime);
        ApartWithOther(s, sets, sequences, limit, window, skew, c, rest, requests, client);
      }
    } else {
      NobodyServed(s, sets, sequences, limit, window, skew, client);
    }
  }

  lemma NobodyServed(s: State, sets: map<string, ZSet>, sequences: map<string, nat>, limit: int, window: nat, skew: nat,
                     client: string)
    requires s.z == SetAt(sets, KeyOf(client))
    ensures Apart(s, sets, sequences, limit, window, skew, [], client)
  {
    assert s.history + [] == s.history;
  }

  lemma {:induction false} OneCallOn(s: State, limit: int, window: nat, call: Call, rest: seq<Call>)
    ensures Run(s, limit, window, [call] + rest) == Run(Serve(s, limit, window, call).0, limit, window, rest)
  {
    assert ([call] + rest)[0] == call && ([call] + rest)[1..] == rest;
  }

  /** So, whoever else is served in between: no window of a client holds more than the limit, if its
      own timestamps do not go back. */
  lemma EveryClientIsLimited(limit: nat, window: nat, skew: nat, requests: seq<ClientRequest>, client: string, to: int)
    requires InMargin(skew) && ClocksAgreeFor(0, skew, requests) && InOrder(0, CallsFor(map[], requests, client))
    ensures Within(Admissions(map[], map[], limit, window, requests, client), to - window, to) <= limit
  {
    HistoryIsAdmissions(limit, window, skew, requests, client);
    OrderedRun(limit, window, skew, CallsFor(map[], requests, client), to);
  }

  /** And every decision is that of the client's own history: `sets`, `sequences` and `admitted` are
      what is in Redis, what the pods have counted and what the client was granted so far. */
  lemma {:induction false} EveryClientIsDecidedAlone(limit: int, window: nat, skew: nat, requests: seq<ClientRequest>,
                                                     c: ClientRequest, sets: map<string, ZSet>,
                                                     sequences: map<string, nat>, admitted: seq<Scored>)
    requires InMargin(skew) && ClocksAgreeFor(0, skew, requests + [c])
    requires InOrder(0, CallsFor(map[], requests + [c], c.client)) && window > 0
    requires sets == After(map[], map[], limit, window, requests) && sequences == SequencesAfter(map[], requests)
    requires admitted == Admissions(map[], map[], limit, window, requests, c.client)
    ensures Checked(sets, sequences, limit, window, c).1.Allowed?
      <==> Within(admitted, c.request.now - window, c.request.now) < limit
  {
    var s, call := ClientState(limit, window, skew, requests, c, sequences);
    DecidedAlone(s, sets, sequences, limit, window, c, call, admitted);
  }

  lemma DecidedAlone(s: State, sets: map<string, ZSet>, sequences: map<string, nat>, limit: int, window: nat,
                     c: ClientRequest, call: Call, admitted: seq<Scored>)
    requires s.z == SetAt(sets, KeyOf(c.client)) && call == CallOf(sequences, c.request) && s.history == admitted
    requires Serve(s, limit, window, call).1.Allowed? <==> Within(s.history, call.now - window, call.now) < limit
    ensures Checked(sets, sequences, limit, window, c).1.Allowed?
      <==> Within(admitted, c.request.now - window, c.request.now) < limit
  {
    SameVerdict(s, sets, sequences, limit, window, c);
  }

  /** The limiter as this client alone would have it, at its next call. */
  lemma {:induction false} ClientState(limit: int, window: nat, skew: nat, requests: seq<ClientRequest>, c: ClientRequest,
                                       sequences: map<string, nat>) returns (s: State, call: Call)
    requires InMargin(skew) && ClocksAgreeFor(0, skew, requests + [c])
    requires InOrder(0, CallsFor(map[], requests + [c], c.client)) && window > 0
    requires sequences == SequencesAfter(map[], requests)
    ensures call == CallOf(sequences, c.request)
    ensures s.z == SetAt(After(map[], map[], limit, window, requests), KeyOf(c.client))
    ensures s.history == Admissions(map[], map[], limit, window, requests, c.client)
    ensures Serve(s, limit, window, call).1.Allowed? <==> Within(s.history, call.now - window, call.now) < limit
  {
    var calls := CallsFor(map[], requests, c.client);
    call := ProperCall(limit, window, skew, requests, c, sequences);
    ClocksOfPrefix(0, skew, requests, c);
    HistoryIsAdmissions(limit, window, skew, requests, c.client);
    s := Run(FRESH, limit, window, calls);
    DecidedByHistory(limit, window, skew, calls, call);
  }

  lemma {:induction false} ProperCall(limit: int, window: nat, skew: nat, requests: seq<ClientRequest>, c: ClientRequest,
                                      sequences: map<string, nat>) returns (call: Call)
    requires ClocksAgreeFor(0, skew, requests + [c]) && sequences == SequencesAfter(map[], requests)
    requires InOrder(0, CallsFor(map[], requests + [c], c.client))
    ensures call == CallOf(sequences, c.request)
    ensures var calls := CallsFor(map[], requests, c.client);
      Proper(Run(FRESH, limit, window, calls), skew, call) && InOrder(0, calls + [call])
  {
    call := CallOf(sequences, c.request);
    LastIsProper(map[], map[], FRESH, limit, window, skew, requests, c, 0);
    CallsOfLonger(map[], requests, c);
  }

  lemma {:induction false} HistoryIsAdmissions(limit: int, window: nat, skew: nat, requests: seq<ClientRequest>, client: string)
    requires ClocksAgreeFor(0, skew, requests)
    ensures var calls := CallsFor(map[], requests, client);
      && ValidRun(FRESH, limit, window, skew, calls)
      && Run(FRESH, limit, window, calls).z == SetAt(After(map[], map[], limit, window, requests), KeyOf(client))
      && Run(FRESH, limit, window, calls).history == Admissions(map[], map[], limit, window, requests, client)
  {
    ClientsAreApart(FRESH, map[], map[], limit, window, skew, requests, client, 0);
    assert [] + Admissions(map[], map[], limit, window, requests, client)
      == Admissions(map[], map[], limit, window, requests, client);
  }

  lemma SameVerdict(s: State, sets: map<string, ZSet>, sequences: map<string, nat>, limit: int, window: nat, c: ClientRequest)
    requires s.z == SetAt(sets, KeyOf(c.client))
    ensures Checked(sets, sequences, limit, window, c).1 == Serve(s, limit, window, CallOf(sequences, c.request)).1
  {
  }

  lemma {:induction false} DecidedByHistory(limit: int, window: nat, skew: nat, calls: seq<Call>, call: Call)
    requires InMargin(skew) && window > 0 && InOrder(0, calls + [call])
    requires ValidRun(FRESH, limit, window, skew, calls) && Proper(Run(FRESH, limit, window, calls), skew, call)
    ensures var s := Run(FRESH, limit, window, calls);
      Serve(s, limit, window, call).1.Allowed? <==> Within(s.history, call.now - window, call.now) < limit
  {
    OrderOfPrefix(0, calls, call);
    FreshInv(window, skew);
    OrderedInv(FRESH, limit, window, skew, calls);
    LatestIsLast(FRESH, limit, window, calls, call);
    OneDecision(Run(FRESH, limit, window, calls), limit, window, skew, call);
  }

  function SequencesAfter(sequences: map<string, nat>, requests: seq<ClientRequest>): map<string, nat>
    decreases |requests|
  {
    if requests == [] then sequences else SequencesAfter(Next(sequences, requests[0].request), requests[1..])
  }

  lemma {:induction false} ClocksOfPrefix(lastRedis: nat, skew: nat, requests: seq<ClientRequest>, c: ClientRequest)
    requires ClocksAgreeFor(lastRedis, skew, requests + [c])
    ensures ClocksAgreeFor(lastRedis, skew, requests)
    decreases |requests|
  {
    if requests != [] {
      assert (requests + [c])[1..] == requests[1..] + [c];
      ClocksOfPrefix(requests[0].request.redisTime, skew, requests[1..], c);
    }
  }

  lemma {:induction false} CallsOfLonger(sequences: map<string, nat>, requests: seq<ClientRequest>, c: ClientRequest)
    ensures CallsFor(sequences, requests + [c], c.client)
      == CallsFor(sequences, requests, c.client) + [CallOf(SequencesAfter(sequences, requests), c.request)]
    decreases |requests|
  {
    if requests == [] {
      assert requests + [c] == [c] && [c][1..] == [];
      assert CallsFor(sequences, [c], c.client) == [CallOf(sequences, c.request)] + CallsFor(Next(sequences, c.request), [], c.client);
    } else {
      assert (requests + [c])[0] == requests[0] && (requests + [c])[1..] == requests[1..] + [c];
      CallsOfLonger(Next(sequences, requests[0].request), requests[1..], c);
    }
  }

  lemma {:induction false} OrderOfPrefix(latest: nat, calls: seq<Call>, call: Call)
    requires InOrder(latest, calls + [call])
    ensures InOrder(latest, calls) && latest <= call.now
    decreases |calls|
  {
    if calls == [] {
      assert (calls + [call])[0] == call;
    } else {
      assert (calls + [call])[0] == calls[0] && (calls + [call])[1..] == calls[1..] + [call];
      OrderOfPrefix(calls[0].now, calls[1..], call);
    }
  }

  /** The next call of a client is proper after all that went before, of whomever. */
  lemma {:induction false} LastIsProper(sets: map<string, ZSet>, sequences: map<string, nat>, s: State, limit: int,
                                        window: nat, skew: nat, requests: seq<ClientRequest>, c: ClientRequest,
                                        lastRedis: nat)
    requires AllStamped(sequences, s.history) && s.z == SetAt(sets, KeyOf(c.client))
    requires s.lastRedis <= lastRedis && ClocksAgreeFor(lastRedis, skew, requests + [c])
    ensures Proper(Run(s, limit, window, CallsFor(sequences, requests, c.client)), skew,
                   CallOf(SequencesAfter(sequences, requests), c.request))
    decreases |requests|
  {
    if requests == [] {
      assert (requests + [c])[0] == c;
      PodCallIsProper(s, sequences, limit, window, skew, c.request);
    } else {
      var first, rest := requests[0], requests[1..];
      assert (requests + [c])[0] == first && (requests + [c])[1..] == rest + [c];
      var sets', sequences' := Checked(sets, sequences, limit, window, first).0, Next(sequences, first.request);
      if first.client == c.client {
        OwnRequest(s, sets, sequences, limit, window, skew, first, lastRedis);
        var call := CallOf(sequences, first.request);
        LastIsProper(sets', sequences', Serve(s, limit, window, call).0, limit, window, skew, rest, c,
                     first.request.redisTime);
        OneCallOn(s, limit, window, call, CallsFor(sequences', rest, c.client));
      } else {
        OthersDoNotMatter(sets, sequences, limit, window, first, c.client);
        StampedOn(sequences, first.request, s.history);
        LastIsProper(sets', sequences', s, limit, window, skew, rest, c, first.request.redisTime);
        assert CallsFor(sequences, requests, c.client) == CallsFor(sequences', rest, c.client);
      }
    }
  }

  lemma {:induction false} OrderedInv(s: State, limit: int, window: nat, skew: nat, calls: seq<Call>)
    requires Inv(s, window, skew) && InMargin(skew) && window > 0
    requires ValidRun(s, limit, window, skew, calls) && InOrder(s.latest, calls)
    ensures Inv(Run(s, limit, window, calls), window, skew)
    decreases |calls|
  {
    if calls != [] {
      ServeKeepsInv(s, limit, window, skew, calls[0]);
      OrderedInv(Serve(s, limit, window, calls[0]).0, limit, window, skew, calls[1..]);
    }
  }

  lemma {:induction false} LatestIsLast(s: State, limit: int, window: nat, calls: seq<Call>, call: Call)
    requires s.latest <= call.now && InOrder(s.latest, calls + [call])
    ensures Run(s, limit, window, calls).latest <= call.now
    decreases |calls|
  {
    if calls != [] {
      assert (calls + [call])[0] == calls[0] && (calls + [call])[1..] == calls[1..] + [call];
      OrderOfPrefix(calls[0].now, calls[1..], call);
      LatestIsLast(Serve(s, limit, window, calls[0]).0, limit, window, calls[1..], call);
    }
  }
}
