/** Deliveries never get stuck: from every reachable state some continuation without failures takes
    each outbox event to its picking row or leaves it where it was dead-lettered. */
module DeliveryProgress {
  import opened Decimal
  import opened Events
  import opened Checkout
  import opened Relay
  import opened Delivery
  import DS = DeliverySafety

  // ---------------------------------------------------------------- continuations

  /** No crash, no lost confirm, no lost connection. */
  predicate Smooth(a: Action) {
    match a
    case PickBatch(_, _) => true
    case PublishRow(_, reply) => reply == Confirm
    case MarkRow(_) => true
    case CommitMarks(_) => true
    case Deliver(_, _) => true
    case HandlerStep(_) => true
    case _ => false
  }

  predicate SmoothRun(db: Db, net: Net, run: seq<Action>)
    decreases |run|
  {
    run == [] || (Smooth(run[0]) && Enabled(db, net, run[0]) && SmoothRun(db, Exec(db, net, run[0]), run[1..]))
  }

  function Run(db: Db, net: Net, run: seq<Action>): Net
    requires SmoothRun(db, net, run)
    decreases |run|
  {
    if run == [] then net else Run(db, Exec(db, net, run[0]), run[1..])
  }

  ghost predicate Leads(db: Db, net: Net, net': Net) {
    exists run :: SmoothRun(db, net, run) && net' == Run(db, net, run)
  }

  lemma LeadsNowhere(db: Db, net: Net)
    ensures Leads(db, net, net)
  {
    assert SmoothRun(db, net, []);
  }

  lemma {:induction false} RunOn(db: Db, net: Net, run: seq<Action>, more: seq<Action>)
    requires SmoothRun(db, net, run) && SmoothRun(db, Run(db, net, run), more)
    ensures SmoothRun(db, net, run + more) && Run(db, net, run + more) == Run(db, Run(db, net, run), more)
    decreases |run|
  {
    if run == [] {
      assert run + more == more;
    } else {
      assert (run + more)[0] == run[0] && (run + more)[1..] == run[1..] + more;
      RunOn(db, Exec(db, net, run[0]), run[1..], more);
    }
  }

  lemma LeadsOn(db: Db, net: Net, mid: Net, net': Net)
    requires Leads(db, net, mid) && Leads(db, mid, net')
    ensures Leads(db, net, net')
  {
    var run :| SmoothRun(db, net, run) && mid == Run(db, net, run);
    var more :| SmoothRun(db, mid, more) && net' == Run(db, mid, more);
    RunOn(db, net, run, more);
  }

  lemma LeadsOne(db: Db, net: Net, a: Action)
    requires Smooth(a) && Enabled(db, net, a)
    ensures Leads(db, net, Exec(db, net, a))
  {
    assert [a][1..] == [];
    assert SmoothRun(db, Exec(db, net, a), [a][1..]);
    assert SmoothRun(db, net, [a]);
    assert Run(db, net, [a]) == Run(db, Exec(db, net, a), [a][1..]);
  }

  // ---------------------------------------------------------------- who holds a message

  /** A message out for delivery is in the hands of a handler that has not settled it. */
  ghost predicate Held(net: Net) {
    forall m :: m in net.messages && net.messages[m].place.Unacked? ==> HeldBy(net, m, net.messages[m].place.handler)
  }

  predicate HeldBy(net: Net, m: nat, h: nat) {
    h in net.handlers && net.handlers[h].message == m
  }

  ghost predicate Good(db: Db, net: Net) {
    Inv(db, net) && Held(net)
  }

  lemma SendKeepsHeld(net: Net, body: Json)
    requires Held(net)
    ensures Held(Send(net, body))
  {
    var net' := Send(net, body);
    forall m | m in net'.messages && net'.messages[m].place.Unacked?
      ensures HeldBy(net', m, net'.messages[m].place.handler)
    {
      assert m in net.messages && net'.messages[m] == net.messages[m];
      assert HeldBy(net, m, net.messages[m].place.handler);
    }
  }

  /** Messages and handlers as they were. */
  lemma SameIsHeld(net: Net, net': Net)
    requires Held(net) && net'.messages == net.messages
    requires forall h :: h in net.handlers ==>
      h in net'.handlers && net'.handlers[h].message == net.handlers[h].message
    ensures Held(net')
  {
    forall m | m in net'.messages && net'.messages[m].place.Unacked?
      ensures HeldBy(net', m, net'.messages[m].place.handler)
    {
      assert HeldBy(net, m, net.messages[m].place.handler);
    }
  }

  lemma HandOverKeepsHeld(net: Net, m: nat, mode: Mode)
    requires Held(net) && m in net.messages && net.messages[m].place == Ready
    requires forall h :: h in net.handlers ==> h < net.nextHandler
    ensures Held(HandOver(net, m, mode))
  {
    var net' := HandOver(net, m, mode);
    forall n | n in net'.messages && net'.messages[n].place.Unacked?
      ensures HeldBy(net', n, net'.messages[n].place.handler)
    {
      assert n != m ==> HeldBy(net, n, net.messages[n].place.handler);
    }
  }

  lemma SettleKeepsHeld(net: Net, h: nat, f: Message -> Message)
    requires Held(net) && h in net.handlers
    requires var m := net.handlers[h].message; m in net.messages ==> !f(net.messages[m]).place.Unacked?
    ensures Held(Settle(net, h, f))
  {
    var net' := Settle(net, h, f);
    forall n | n in net'.messages && net'.messages[n].place.Unacked?
      ensures HeldBy(net', n, net'.messages[n].place.handler)
    {
      assert HeldBy(net, n, net.messages[n].place.handler);
    }
  }

  lemma ReturnKeepsHeld(net: Net, m: nat)
    requires Held(net) && m in net.messages
    ensures Held(net.(messages := net.messages[m := Requeue(net.messages[m])]))
  {
    var net' := net.(messages := net.messages[m := Requeue(net.messages[m])]);
    forall n | n in net'.messages && net'.messages[n].place.Unacked?
      ensures HeldBy(net', n, net'.messages[n].place.handler)
    {
      assert n != m && HeldBy(net, n, net.messages[n].place.handler);
    }
  }

  lemma HandlerKeepsHeld(net: Net, h: nat)
    requires Held(net) && StepEnabled(net, h)
    ensures Held(RunHandler(net, h))
  {
    match net.handlers[h].pc {
      case Parse =>
        if ParseOrderPlaced(net.messages[net.handlers[h].message].body).Failure? {
          SettleKeepsHeld(net, h, (m: Message) => m.(place := Dead));
        } else {
          SameIsHeld(net, RunHandler(net, h));
        }
      case Ack => SettleKeepsHeld(net, h, (m: Message) => m.(place := Gone));
      case _ => SameIsHeld(net, RunHandler(net, h));
    }
  }

  lemma StepKeepsHeld(db: Db, net: Net, a: Action)
    requires Good(db, net) && Enabled(db, net, a)
    ensures Held(Exec(db, net, a))
  {
    match a {
      case PublishRow(r, reply) => PublishKeepsHeld(net, r, reply);
      case PublishDirect(i, now) => SendKeepsHeld(net, ToJson(DirectEvent(db, i, now)));
      case PublishRaw(body) => SendKeepsHeld(net, body);
      case Deliver(m, mode) => HandOverKeepsHeld(net, m, mode);
      case HandlerStep(h) => HandlerKeepsHeld(net, h);
      case HandlerFail(h) => SettleKeepsHeld(net, h, Requeue);
      case ConnectionLost(m) => ReturnKeepsHeld(net, m);
      case _ => SameIsHeld(net, Exec(db, net, a));
    }
  }

  lemma PublishKeepsHeld(net: Net, r: nat, reply: PublishReply)
    requires Held(net) && r in net.relays && net.relays[r].at < |net.relays[r].batch|
    ensures Held(PublishOne(net, r, reply))
  {
    var body := ToJson(net.relays[r].batch[net.relays[r].at].event);
    SendKeepsHeld(net, body);
    SameIsHeld(if reply == NotSent then net else Send(net, body), PublishOne(net, r, reply));
  }

  lemma GoodStep(db: Db, net: Net, a: Action) returns (net': Net)
    requires Good(db, net) && Enabled(db, net, a) && Smooth(a)
    ensures net' == Exec(db, net, a) && Good(db, net') && Leads(db, net, net')
  {
    net' := Exec(db, net, a);
    DS.StepKeepsInv(db, net, a);
    StepKeepsHeld(db, net, a);
    LeadsOne(db, net, a);
  }

  // ---------------------------------------------------------------- relays

  /** What a relay that finishes leaves alone. */
  predicate OnlyPublishes(net: Net, net': Net, r: nat) {
    && net'.relays == net.relays - {r} && net'.handlers == net.handlers
    && net.published <= net'.published
  }

  function Onward(relay: Relaying): Relaying
    requires relay.at < |relay.batch|
  {
    if relay.unmarked then Marked(relay) else relay.(unmarked := true)
  }

  function Work(relay: Relaying): int {
    2 * (|relay.batch| - relay.at) - if relay.unmarked then 1 else 0
  }

  lemma OneRowOn(db: Db, net: Net, r: nat) returns (net': Net)
    requires Good(db, net) && r in net.relays && net.relays[r].at < |net.relays[r].batch|
    ensures Good(db, net') && Leads(db, net, net')
    ensures net'.relays == net.relays[r := Onward(net.relays[r])]
    ensures net'.handlers == net.handlers && net'.published == net.published
  {
    net' := GoodStep(db, net, if net.relays[r].unmarked then MarkRow(r) else PublishRow(r, Confirm));
  }

  lemma Commits(db: Db, net: Net, r: nat) returns (net': Net)
    requires Good(db, net) && r in net.relays && net.relays[r].at == |net.relays[r].batch|
    ensures Good(db, net') && Leads(db, net, net') && OnlyPublishes(net, net', r)
    ensures net.relays[r].marks <= net'.published
  {
    net' := GoodStep(db, net, CommitMarks(r));
  }

  lemma AtMostTheBatch(db: Db, net: Net, r: nat)
    requires Good(db, net) && r in net.relays
    ensures net.relays[r].at <= |net.relays[r].batch| && Work(net.relays[r]) >= 0
  {
    assert RelayOk(db, net, net.relays[r]);
  }

  /** What a relay has marked, or has yet to, is published in the end. */
  predicate PublishesAll(relay: Relaying, published: set<nat>) {
    relay.marks <= published && forall i :: relay.at <= i < |relay.batch| ==> relay.batch[i].id in published
  }

  lemma ThenPublishesAll(net: Net, mid: Net, net': Net, r: nat)
    requires r in net.relays && net.relays[r].at < |net.relays[r].batch|
    requires mid.relays == net.relays[r := Onward(net.relays[r])]
    requires mid.handlers == net.handlers && mid.published == net.published
    requires OnlyPublishes(mid, net', r) && PublishesAll(mid.relays[r], net'.published)
    ensures OnlyPublishes(net, net', r) && PublishesAll(net.relays[r], net'.published)
  {
  }

  /** A relay under way publishes, marks and commits the rest of its batch. */
  lemma {:induction false} FinishRelay(db: Db, net: Net, r: nat) returns (net': Net)
    requires Good(db, net) && r in net.relays
    ensures Good(db, net') && Leads(db, net, net') && OnlyPublishes(net, net', r)
    ensures PublishesAll(net.relays[r], net'.published)
    decreases Work(net.relays[r])
  {
    AtMostTheBatch(db, net, r);
    if net.relays[r].at == |net.relays[r].batch| {
      net' := Commits(db, net, r);
    } else {
      var mid := OneRowOn(db, net, r);
      AtMostTheBatch(db, mid, r);
      net' := FinishRelay(db, mid, r);
      LeadsOn(db, net, mid, net');
      ThenPublishesAll(net, mid, net', r);
    }
  }

  lemma {:induction false} FinishRelays(db: Db, net: Net) returns (net': Net)
    requires Good(db, net)
    ensures Good(db, net') && Leads(db, net, net') && net'.relays == map[]
    decreases |net.relays.Keys|
  {
    if net.relays == map[] {
      net' := net;
      LeadsNowhere(db, net);
    } else {
      var r :| r in net.relays;
      var mid := FinishRelay(db, net, r);
      assert mid.relays.Keys == net.relays.Keys - {r};
      net' := FinishRelays(db, mid);
      LeadsOn(db, net, mid, net');
    }
  }

  lemma NothingLocked(net: Net)
    requires net.relays == map[]
    ensures LockedRows(net) == {}
  {
  }

  /** One more relay takes all that is pending. */
  lemma PublishRest(db: Db, net: Net) returns (net': Net)
    requires Good(db, net) && net.relays == map[]
    ensures Good(db, net') && Leads(db, net, net') && net'.relays == map[]
    ensures forall row :: row in db.outbox ==> row.id in net'.published
  {
    var pending := Pending(db.outbox, net.published);
    NothingLocked(net);
    assert net.published + {} == net.published;
    assert Pick(db.outbox, net.published, LockedRows(net), |pending|) == pending;
    var mid := GoodStep(db, net, PickBatch(0, |pending|));
    assert mid.relays == map[0 := Relaying(pending, 0, false, {})];
    net' := FinishRelay(db, mid, 0);
    LeadsOn(db, net, mid, net');
    assert net'.relays == map[];
    forall row | row in db.outbox ensures row.id in net'.published {
      if row.id !in net.published {
        OrderedHasTheRows(db.outbox, row);
        WithoutHasTheRest(Ordered(db.outbox), net.published, row);
        var i :| 0 <= i < |pending| && pending[i] == row;
      }
    }
  }

  // ---------------------------------------------------------------- handlers

  /** How far a handler is from its end. */
  function Stage(pc: Pc): nat {
    match pc
    case Parse => 4
    case ClaimInbox => 3
    case Effect => 2
    case CommitEffect => 1
    case Ack => 0
  }

  /** Nobody holds a row this handler still has to ask for. */
  predicate Unblocked(net: Net, h: nat) {
    h in net.handlers
    && forall g :: g in net.handlers && g != h ==> LetsPass(net.handlers[g].pc, net.handlers[h].pc)
  }

  predicate LetsPass(other: Pc, pc: Pc) {
    && (pc in {Parse, ClaimInbox} ==> other !in {Effect, CommitEffect})
    && (pc == Effect ==> other != CommitEffect)
  }

  lemma SomeoneIsUnblocked(net: Net) returns (h: nat)
    requires net.handlers != map[]
    ensures Unblocked(net, h)
  {
    if g :| g in net.handlers && net.handlers[g].pc == CommitEffect {
      h := g;
    } else if g :| g in net.handlers && net.handlers[g].pc == Effect {
      h := g;
    } else {
      h :| h in net.handlers;
    }
  }

  lemma GenuineHasDigits(db: Db, e: Accepted)
    requires Genuine(db, e)
    ensures IsNumber(e.orderId)
  {
  }

  lemma UnblockedCanStep(db: Db, net: Net, h: nat)
    requires Inv(db, net) && Unblocked(net, h)
    ensures StepEnabled(net, h)
  {
    var handler := net.handlers[h];
    assert HandlerOk(net, handler);
    assert MessageOk(db, net, net.messages[handler.message]);
    if handler.pc in {Effect, CommitEffect} {
      GenuineHasDigits(db, handler.event);
    }
  }

  /** The message of a settled handler that was still its to settle. */
  predicate Settles(net: Net, net': Net, h: nat)
    requires h in net.handlers
  {
    var m := net.handlers[h].message;
    && m in net.messages
    && if net.messages[m].place == Unacked(h)
       then net'.messages == net.messages[m := net.messages[m].(place := Dead)]
         || net'.messages == net.messages[m := net.messages[m].(place := Gone)]
       else net'.messages == net.messages
  }

  /** One step of a handler: it goes on, or it settles its message and is done. */
  lemma HandlerGoesOn(net: Net, h: nat)
    requires StepEnabled(net, h)
    ensures var net' := RunHandler(net, h);
      && net'.relays == net.relays && net'.published == net.published && net'.nextHandler == net.nextHandler
      && if h in net'.handlers
         then && net'.handlers == net.handlers[h := net'.handlers[h]]
              && net'.messages == net.messages && net'.handlers[h].message == net.handlers[h].message
              && Stage(net'.handlers[h].pc) < Stage(net.handlers[h].pc)
         else net'.handlers == net.handlers - {h} && Settles(net, net', h)
  {
  }

  lemma StaysUnblocked(net: Net, net': Net, h: nat)
    requires Unblocked(net, h) && h in net'.handlers
    requires net'.handlers == net.handlers[h := net'.handlers[h]]
    requires Stage(net'.handlers[h].pc) < Stage(net.handlers[h].pc)
    ensures Unblocked(net', h)
  {
    forall g | g in net'.handlers && g != h ensures LetsPass(net'.handlers[g].pc, net'.handlers[h].pc) {
      assert LetsPass(net.handlers[g].pc, net.handlers[h].pc);
    }
  }

  lemma OneStepOn(db: Db, net: Net, h: nat) returns (net': Net)
    requires Good(db, net) && Unblocked(net, h)
    ensures Good(db, net') && Leads(db, net, net')
    ensures net'.relays == net.relays && net'.published == net.published
    ensures if h in net'.handlers
            then && Unblocked(net', h) && Stage(net'.handlers[h].pc) < Stage(net.handlers[h].pc)
                 && net'.handlers == net.handlers[h := net'.handlers[h]]
                 && net'.messages == net.messages && net'.handlers[h].message == net.handlers[h].message
            else net'.handlers == net.handlers - {h} && Settles(net, net', h)
  {
    UnblockedCanStep(db, net, h);
    HandlerGoesOn(net, h);
    net' := GoodStep(db, net, HandlerStep(h));
    if h in net'.handlers { StaysUnblocked(net, net', h); }
  }

  lemma ThenSettles(net: Net, mid: Net, net': Net, h: nat)
    requires h in net.handlers && h in mid.handlers && mid.handlers == net.handlers[h := mid.handlers[h]]
    requires mid.messages == net.messages && mid.handlers[h].message == net.handlers[h].message
    requires net'.handlers == mid.handlers - {h} && Settles(mid, net', h)
    ensures net'.handlers == net.handlers - {h} && Settles(net, net', h)
  {
  }

  lemma {:induction false} FinishHandler(db: Db, net: Net, h: nat) returns (net': Net)
    requires Good(db, net) && Unblocked(net, h)
    ensures Good(db, net') && Leads(db, net, net')
    ensures net'.relays == net.relays && net'.published == net.published
    ensures net'.handlers == net.handlers - {h} && Settles(net, net', h)
    decreases Stage(net.handlers[h].pc)
  {
    var mid := OneStepOn(db, net, h);
    if h in mid.handlers {
      net' := FinishHandler(db, mid, h);
      LeadsOn(db, net, mid, net');
      ThenSettles(net, mid, net', h);
    } else {
      net' := mid;
    }
  }

  lemma {:induction false} FinishHandlers(db: Db, net: Net) returns (net': Net)
    requires Good(db, net)
    ensures Good(db, net') && Leads(db, net, net') && net'.handlers == map[]
    ensures net'.relays == net.relays && net'.published == net.published
    decreases |net.handlers.Keys|
  {
    if net.handlers == map[] {
      net' := net;
      LeadsNowhere(db, net);
    } else {
      var h := SomeoneIsUnblocked(net);
      var mid := FinishHandler(db, net, h);
      assert mid.handlers.Keys == net.handlers.Keys - {h};
      net' := FinishHandlers(db, mid);
      LeadsOn(db, net, mid, net');
    }
  }

  // ---------------------------------------------------------------- the queue

  function Queue(net: Net): set<nat> {
    set m | m in net.messages && net.messages[m].place == Ready
  }

  lemma HandleOne(db: Db, net: Net, m: nat) returns (net': Net)
    requires Good(db, net) && net.handlers == map[] && m in Queue(net)
    ensures Good(db, net') && Leads(db, net, net') && net'.handlers == map[]
    ensures net'.relays == net.relays && net'.published == net.published
    ensures Queue(net') == Queue(net) - {m}
  {
    var h := net.nextHandler;
    var mid := GoodStep(db, net, Deliver(m, NaturalKey));
    assert mid.handlers == map[h := Handler(m, NaturalKey, Parse, Accepted("", "", 0), false)];
    net' := FinishHandler(db, mid, h);
    LeadsOn(db, net, mid, net');
    assert net'.handlers == map[];
    SettledLeavesQueue(net, mid, net', m, h);
  }

  lemma SettledLeavesQueue(net: Net, mid: Net, net': Net, m: nat, h: nat)
    requires m in net.messages && h in mid.handlers && mid.handlers[h].message == m
    requires mid.messages == net.messages[m := net.messages[m].(place := Unacked(h))]
    requires Settles(mid, net', h)
    ensures Queue(net') == Queue(net) - {m}
  {
  }

  lemma {:induction false} EmptyQueue(db: Db, net: Net) returns (net': Net)
    requires Good(db, net) && net.handlers == map[]
    ensures Good(db, net') && Leads(db, net, net') && net'.handlers == map[] && Queue(net') == {}
    ensures net'.relays == net.relays && net'.published == net.published
    decreases |Queue(net)|
  {
    if Queue(net) == {} {
      net' := net;
      LeadsNowhere(db, net);
    } else {
      var m :| m in Queue(net);
      var mid := HandleOne(db, net, m);
      net' := EmptyQueue(db, mid);
      LeadsOn(db, net, mid, net');
    }
  }

  // ---------------------------------------------------------------- all of it

  /** Nothing is left to do. */
  ghost predicate AtRest(db: Db, net: Net) {
    && (forall row :: row in db.outbox ==> row.id in net.published)
    && (forall m :: m in net.messages ==> net.messages[m].place in {Dead, Gone})
  }

  lemma NoneOut(net: Net)
    requires Held(net) && net.handlers == map[] && Queue(net) == {}
    ensures forall m :: m in net.messages ==> net.messages[m].place in {Dead, Gone}
  {
    forall m | m in net.messages ensures net.messages[m].place in {Dead, Gone} {
      assert m !in Queue(net);
      assert net.messages[m].place.Unacked? ==> HeldBy(net, m, net.messages[m].place.handler);
    }
  }

  /** Relays first, then whoever is handling a message, then the queue. */
  lemma ComesToRest(db: Db, net: Net) returns (net': Net)
    requires Good(db, net)
    ensures Good(db, net') && Leads(db, net, net') && AtRest(db, net')
  {
    var net1 := FinishRelays(db, net);
    var net2 := PublishRest(db, net1);
    LeadsOn(db, net, net1, net2);
    var net3 := FinishHandlers(db, net2);
    LeadsOn(db, net, net2, net3);
    net' := EmptyQueue(db, net3);
    LeadsOn(db, net, net3, net');
    NoneOut(net');
  }

  // ---------------------------------------------------------------- what is dead stays so, nothing else dies

  predicate Buried(net: Net, m: nat, body: Json) {
    m in net.messages && net.messages[m].body == body && net.messages[m].place == Dead
  }

  /** A step without failure dead-letters nothing a consumer can read. */
  lemma SmoothBuriesNone(db: Db, net: Net, a: Action, m: nat, body: Json)
    requires Smooth(a) && Enabled(db, net, a) && ParseOrderPlaced(body).Success?
    requires Buried(Exec(db, net, a), m, body)
    ensures Buried(net, m, body)
  {
    match a
    case PublishRow(r, reply) => SendBuriesNone(net, ToJson(net.relays[r].batch[net.relays[r].at].event), m, body);
    case HandlerStep(h) => HandlerBuriesNone(net, h, m, body);
    case _ =>
  }

  lemma SendBuriesNone(net: Net, sent: Json, m: nat, body: Json)
    requires Buried(Send(net, sent), m, body)
    ensures Buried(net, m, body)
  {
  }

  lemma HandlerBuriesNone(net: Net, h: nat, m: nat, body: Json)
    requires StepEnabled(net, h) && ParseOrderPlaced(body).Success? && Buried(RunHandler(net, h), m, body)
    ensures Buried(net, m, body)
  {
  }

  lemma {:induction false} RunBuriesNone(db: Db, net: Net, run: seq<Action>, m: nat, body: Json)
    requires SmoothRun(db, net, run) && ParseOrderPlaced(body).Success? && Buried(Run(db, net, run), m, body)
    ensures Buried(net, m, body)
    decreases |run|
  {
    if run != [] {
      RunBuriesNone(db, Exec(db, net, run[0]), run[1..], m, body);
      SmoothBuriesNone(db, net, run[0], m, body);
    }
  }

  /** An outbox event is applied in the end, unless a copy of it had been dead-lettered before, or
      the broker handed it back. */
  ghost predicate Arrives(net: Net, net': Net, row: OutboxRow) {
    || HasEffect(net'.picking, row.event.eventId)
    || (exists m :: Buried(net, m, ToJson(row.event)))
    || ToJson(row.event) in net'.returned
  }

  lemma {:induction false} RestMeansArrived(db: Db, net: Net, run: seq<Action>, row: OutboxRow)
    requires SmoothRun(db, net, run) && Inv(db, Run(db, net, run)) && AtRest(db, Run(db, net, run)) && row in db.outbox
    requires ParseOrderPlaced(ToJson(row.event)).Success?
    requires ParseOrderPlaced(ToJson(row.event)).value.eventId == row.event.eventId
    ensures Arrives(net, Run(db, net, run), row)
  {
    var net', body := Run(db, net, run), ToJson(row.event);
    assert Routed(net', row);
    if body !in net'.returned {
      var m :| m in net'.messages && net'.messages[m].body == body;
      assert MessageOk(db, net', net'.messages[m]);
      if net'.messages[m].place == Dead { RunBuriesNone(db, net, run, m, body); }
    }
  }
}
