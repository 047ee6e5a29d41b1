/** Every delivery step keeps the invariant of module Delivery, and so does every commit of the
    shop. */
module DeliverySafety {
  import opened Wrappers
  import opened Decimal
  import opened Events
  import opened Checkout
  import opened Relay
  import opened Delivery

  // ---------------------------------------------------------------- what only ever grows

  lemma EffectGrows(picking: seq<Picking>, row: Picking, eventId: string)
    ensures HasEffect(picking, eventId) ==> HasEffect(picking + [row], eventId)
    ensures HasEffect(picking + [row], row.eventId)
    ensures eventId != row.eventId && HasEffect(picking + [row], eventId) ==> HasEffect(picking, eventId)
  {
    var longer := picking + [row];
    if i :| 0 <= i < |picking| && picking[i].eventId == eventId {
      assert longer[i].eventId == eventId;
    }
    assert longer[|picking|] == row;
    if i :| 0 <= i < |longer| && longer[i].eventId == eventId && eventId != row.eventId {
      assert picking[i].eventId == eventId;
    }
  }

  /** Messages keep their bodies, and what was returned stays returned. */
  ghost predicate Remembers(net: Net, net': Net) {
    && (forall m :: m in net.messages ==> m in net'.messages && net'.messages[m].body == net.messages[m].body)
    && (forall body :: body in net.returned ==> body in net'.returned)
  }

  lemma ConfirmedKept(db: Db, net: Net, net': Net)
    requires ConfirmedOk(db, net) && Remembers(net, net')
    requires net'.confirmed == net.confirmed && net'.published == net.published
    ensures ConfirmedOk(db, net')
  {
    forall row | row in db.outbox && row.id in net'.confirmed
      ensures Routed(net', row)
    {
      assert Routed(net, row);
      RoutedKept(net, net', row);
    }
  }

  lemma RoutedKept(net: Net, net': Net, row: OutboxRow)
    requires Routed(net, row) && Remembers(net, net')
    ensures Routed(net', row)
  {
    var body := ToJson(row.event);
    if body !in net.returned {
      var m :| m in net.messages && net.messages[m].body == body;
      assert net'.messages[m].body == body;
    }
  }

  lemma MessagesKept(db: Db, net: Net, net': Net)
    requires MessagesOk(db, net)
    requires net'.messages == net.messages && net'.nextMessage == net.nextMessage
    requires net'.picking == net.picking && net'.nextHandler >= net.nextHandler
    ensures MessagesOk(db, net')
  {
    forall m | m in net'.messages ensures MessageOk(db, net', net'.messages[m]) {
      assert MessageOk(db, net, net.messages[m]);
    }
  }

  lemma HandlersKept(net: Net, net': Net)
    requires HandlersOk(net) && Remembers(net, net')
    requires net'.handlers == net.handlers && net'.nextHandler == net.nextHandler
    requires net'.inbox == net.inbox && net'.picking == net.picking
    ensures HandlersOk(net')
  {
    forall h | h in net'.handlers ensures HandlerOk(net', net'.handlers[h]) {
      assert HandlerOk(net, net.handlers[h]);
    }
  }

  lemma RelaysKept(db: Db, net: Net, net': Net)
    requires RelaysOk(db, net)
    requires net'.relays == net.relays && net'.published == net.published && net.confirmed <= net'.confirmed
    ensures RelaysOk(db, net')
  {
    forall r | r in net'.relays ensures RelayOk(db, net', net'.relays[r]) {
      assert RelayOk(db, net, net.relays[r]);
    }
  }

  // ---------------------------------------------------------------- publishing

  lemma SendKeepsInv(db: Db, net: Net, body: Json)
    requires Inv(db, net)
    requires ParseOrderPlaced(body).Success? ==> Genuine(db, ParseOrderPlaced(body).value)
    ensures Inv(db, Send(net, body)) && Remembers(net, Send(net, body))
  {
    var net' := Send(net, body);
    forall m | m in net'.messages
      ensures m < net'.nextMessage && MessageOk(db, net', net'.messages[m])
    {
      if m in net.messages { assert MessageOk(db, net, net.messages[m]); }
    }
    HandlersKept(net, net');
    RelaysKept(db, net, net');
    ConfirmedKept(db, net, net');
  }

  lemma SentIsRouted(net: Net, row: OutboxRow)
    ensures Routed(Send(net, ToJson(row.event)), row)
  {
    var net' := Send(net, ToJson(row.event));
    if net.bound {
      assert net'.messages[net.nextMessage].body == ToJson(row.event);
    } else {
      assert net'.returned[|net.returned|] == ToJson(row.event);
    }
  }

  lemma DirectEventIsGenuine(db: Db, i: nat, now: string)
    requires SourceOk(db) && i < |db.orders| && i < |db.items|
    ensures var parsed := ParseOrderPlaced(ToJson(DirectEvent(db, i, now)));
      parsed.Success? && Genuine(db, parsed.value)
  {
    var order, item := db.orders[i], db.items[i];
    BuiltEventParses(EventData(Text(order.id), Text(order.buyerId), Text(item.productId),
                               item.quantity, order.totalCents, "UAH"), now);
    assert AcceptedOf(item) == Accepted(EventIdOf(Text(order.id)), Text(order.id), item.quantity);
  }

  // ---------------------------------------------------------------- relays

  /** Changing one relay, or none, keeps everything else. */
  lemma RelayMoves(db: Db, net: Net, net': Net, r: nat)
    requires Inv(db, net)
    requires net' == net.(relays := net'.relays)
    requires forall q :: q in net'.relays && q != r ==> q in net.relays && net'.relays[q] == net.relays[q]
    requires r in net'.relays ==> RelayOk(db, net, net'.relays[r])
    requires r in net'.relays ==>
      forall q :: q in net.relays && q != r ==> IdsOf(net'.relays[r].batch) !! IdsOf(net.relays[q].batch)
    ensures Inv(db, net')
  {
    forall q | q in net'.relays
      ensures RelayOk(db, net', net'.relays[q])
    {
      assert q != r ==> RelayOk(db, net, net.relays[q]);
    }
    assert RelaysOk(db, net');
    MessagesKept(db, net, net');
    HandlersKept(net, net');
    ConfirmedKept(db, net, net');
  }

  lemma PickKeepsInv(db: Db, net: Net, r: nat, n: nat)
    requires Inv(db, net) && r !in net.relays
    ensures Inv(db, Exec(db, net, PickBatch(r, n)))
  {
    var batch := Pick(db.outbox, net.published, LockedRows(net), n);
    var locked := LockedRows(net);
    forall row | row in batch
      ensures row in db.outbox && row.id !in net.published && row.id !in locked
    {
      assert row in Pending(db.outbox, net.published + locked);
      WithoutHasTheRest(Ordered(db.outbox), net.published + locked, row);
      OrderedHasTheRows(db.outbox, row);
    }
    forall q | q in net.relays
      ensures IdsOf(batch) !! IdsOf(net.relays[q].batch)
    {
      forall id | id in IdsOf(net.relays[q].batch)
        ensures id !in IdsOf(batch)
      {
        var row :| row in net.relays[q].batch && row.id == id;
        assert id in locked;
      }
    }
    RelayMoves(db, net, Exec(db, net, PickBatch(r, n)), r);
  }

  /** A relay goes on with the batch it has. */
  lemma RelayGoesOn(db: Db, net: Net, r: nat, relay: Relaying)
    requires Inv(db, net) && r in net.relays && relay.batch == net.relays[r].batch && RelayOk(db, net, relay)
    ensures Inv(db, Advance(net, r, relay))
  {
    RelayMoves(db, net, Advance(net, r, relay), r);
  }

  lemma PublishKeepsInv(db: Db, net: Net, r: nat, reply: PublishReply)
    requires Inv(db, net) && r in net.relays && net.relays[r].at < |net.relays[r].batch| && !net.relays[r].unmarked
    ensures Inv(db, PublishOne(net, r, reply))
  {
    var relay := net.relays[r];
    var row := relay.batch[relay.at];
    assert RelayOk(db, net, relay);
    assert row in relay.batch;
    match reply {
      case NotSent => SkipRow(db, net, r, relay);
      case ConfirmLost => SentRow(db, net, row);
        SkipRow(db, Send(net, ToJson(row.event)), r, relay);
      case Confirm => ConfirmedRow(db, net, r, relay, row);
    }
  }

  lemma SkipRow(db: Db, net: Net, r: nat, relay: Relaying)
    requires Inv(db, net) && r in net.relays && relay == net.relays[r]
    requires relay.at < |relay.batch| && !relay.unmarked
    ensures Inv(db, Advance(net, r, Skipped(relay)))
  {
    RelayGoesOn(db, net, r, Skipped(relay));
  }

  lemma SentRow(db: Db, net: Net, row: OutboxRow)
    requires Inv(db, net) && row in db.outbox
    ensures Inv(db, Send(net, ToJson(row.event)))
  {
    assert RowGenuine(db, row);
    SendKeepsInv(db, net, ToJson(row.event));
  }

  lemma ConfirmedRow(db: Db, net: Net, r: nat, relay: Relaying, row: OutboxRow)
    requires Inv(db, net) && r in net.relays && relay == net.relays[r] && RelayOk(db, net, relay)
    requires relay.at < |relay.batch| && row == relay.batch[relay.at] && row in db.outbox
    ensures Inv(db, Advance(WithConfirmed(Send(net, ToJson(row.event)), row.id), r, relay.(unmarked := true)))
  {
    var sent := Send(net, ToJson(row.event));
    SentRow(db, net, row);
    SentIsRouted(net, row);
    ConfirmKeepsInv(db, sent, row);
    RelayGoesOn(db, WithConfirmed(sent, row.id), r, relay.(unmarked := true));
  }

  lemma ConfirmKeepsInv(db: Db, net: Net, row: OutboxRow)
    requires Inv(db, net) && row in db.outbox && Routed(net, row)
    ensures Inv(db, WithConfirmed(net, row.id))
  {
    var net' := WithConfirmed(net, row.id);
    ConfirmedGrows(db, net, row);
    MessagesKept(db, net, net');
    HandlersKept(net, net');
    RelaysKept(db, net, net');
  }

  lemma ConfirmedGrows(db: Db, net: Net, row: OutboxRow)
    requires ConfirmedOk(db, net) && DistinctIds(db.outbox) && row in db.outbox && Routed(net, row)
    ensures ConfirmedOk(db, WithConfirmed(net, row.id))
  {
    var net' := WithConfirmed(net, row.id);
    forall other | other in db.outbox && other.id in net'.confirmed
      ensures Routed(net', other)
    {
      assert other.id == row.id ==> other == row;
      assert Routed(net, other);
      RoutedKept(net, net', other);
    }
    assert row.id in IdsOf(db.outbox);
  }

  lemma MarkKeepsInv(db: Db, net: Net, r: nat)
    requires Inv(db, net) && r in net.relays && net.relays[r].at < |net.relays[r].batch| && net.relays[r].unmarked
    ensures Inv(db, Advance(net, r, Marked(net.relays[r])))
  {
    var relay := net.relays[r];
    assert RelayOk(db, net, relay);
    MarkedOk(db, net, relay);
    RelayGoesOn(db, net, r, Marked(relay));
  }

  lemma MarkedOk(db: Db, net: Net, relay: Relaying)
    requires RelayOk(db, net, relay) && relay.unmarked
    ensures RelayOk(db, net, Marked(relay))
  {
    assert relay.batch[relay.at] in relay.batch;
  }

  lemma CommitMarksKeepsInv(db: Db, net: Net, r: nat)
    requires Inv(db, net) && Enabled(db, net, CommitMarks(r))
    ensures Inv(db, Exec(db, net, CommitMarks(r)))
  {
    var net' := Exec(db, net, CommitMarks(r));
    assert RelayOk(db, net, net.relays[r]);
    forall q | q in net'.relays
      ensures RelayOk(db, net', net'.relays[q])
    {
      assert RelayOk(db, net, net.relays[q]);
      OthersStayUnpublished(net, net', r, q);
    }
    MessagesKept(db, net, net');
    HandlersKept(net, net');
    forall row | row in db.outbox && row.id in net'.confirmed
      ensures Routed(net', row)
    {
      assert Routed(net, row);
      RoutedKept(net, net', row);
    }
  }

  lemma OthersStayUnpublished(net: Net, net': Net, r: nat, q: nat)
    requires r in net.relays && q in net.relays && IdsOf(net.relays[q].batch) !! IdsOf(net.relays[r].batch)
    requires net.relays[r].marks <= IdsOf(net.relays[r].batch)
    requires net'.published == net.published + net.relays[r].marks
    requires forall row :: row in net.relays[q].batch ==> row.id !in net.published
    ensures forall row :: row in net.relays[q].batch ==> row.id !in net'.published
  {
    forall row | row in net.relays[q].batch
      ensures row.id !in net'.published
    {
      assert row.id in IdsOf(net.relays[q].batch);
    }
  }

  // ---------------------------------------------------------------- the broker

  /** Moving one message keeps everything, if the new place is right. */
  lemma MessageMoves(db: Db, net: Net, m: nat, message: Message)
    requires Inv(db, net) && m in net.messages
    requires message.body == net.messages[m].body && MessageOk(db, net, message)
    ensures Inv(db, net.(messages := net.messages[m := message]))
  {
    var net' := net.(messages := net.messages[m := message]);
    forall n | n in net'.messages ensures n < net'.nextMessage && MessageOk(db, net', net'.messages[n]) {
      assert n != m ==> MessageOk(db, net, net.messages[n]);
    }
    HandlersKept(net, net');
    RelaysKept(db, net, net');
    ConfirmedKept(db, net, net');
  }

  lemma DropHandler(db: Db, net: Net, h: nat)
    requires Inv(db, net)
    ensures Inv(db, net.(handlers := net.handlers - {h}))
  {
    var net' := net.(handlers := net.handlers - {h});
    forall g | g in net'.handlers ensures HandlerOk(net', net'.handlers[g]) {
      assert HandlerOk(net, net.handlers[g]);
    }
    assert HandlersOk(net');
    MessagesKept(db, net, net');
    RelaysKept(db, net, net');
    ConfirmedKept(db, net, net');
  }

  lemma SettleKeepsInv(db: Db, net: Net, h: nat, f: Message -> Message)
    requires Inv(db, net) && h in net.handlers
    requires var m := net.handlers[h].message;
      m in net.messages && net.messages[m].place == Unacked(h) ==>
        f(net.messages[m]).body == net.messages[m].body && MessageOk(db, net, f(net.messages[m]))
    ensures Inv(db, Settle(net, h, f))
  {
    var m := net.handlers[h].message;
    DropHandler(db, net, h);
    var closed := net.(handlers := net.handlers - {h});
    if m in net.messages && net.messages[m].place == Unacked(h) {
      MessageMoves(db, closed, m, f(net.messages[m]));
    }
  }

  lemma NewHandler(net: Net, handler: Handler)
    requires HandlersOk(net) && handler.message in net.messages && handler.pc == Parse
    ensures HandlersOk(net.(handlers := net.handlers[net.nextHandler := handler], nextHandler := net.nextHandler + 1))
  {
    var h := net.nextHandler;
    var net' := net.(handlers := net.handlers[h := handler], nextHandler := h + 1);
    forall g | g in net'.handlers ensures g < net'.nextHandler && HandlerOk(net', net'.handlers[g]) {
      assert g != h ==> HandlerOk(net, net.handlers[g]);
    }
    forall g, k | g in net'.handlers && k in net'.handlers && g != k
      ensures HandlersApart(net'.handlers[g], net'.handlers[k])
    {
      if g != h && k != h { assert HandlersApart(net.handlers[g], net.handlers[k]); }
    }
  }

  lemma DeliverKeepsInv(db: Db, net: Net, m: nat, mode: Mode)
    requires Inv(db, net) && m in net.messages && net.messages[m].place == Ready
    ensures Inv(db, HandOver(net, m, mode))
  {
    var h, handler := net.nextHandler, Handler(m, mode, Parse, Accepted("", "", 0), false);
    var received := net.(handlers := net.handlers[h := handler], nextHandler := h + 1);
    NewHandler(net, handler);
    MessagesKept(db, net, received);
    RelaysKept(db, net, received);
    ConfirmedKept(db, net, received);
    assert MessageOk(db, net, net.messages[m]);
    MessageMoves(db, received, m, net.messages[m].(place := Unacked(h)));
    assert HandOver(net, m, mode) == received.(messages := received.messages[m := net.messages[m].(place := Unacked(h))]);
  }

  // ---------------------------------------------------------------- consumers

  /** Moving one handler, with no commit, keeps everything. */
  lemma HandlerMoves(db: Db, net: Net, h: nat, handler: Handler)
    requires Inv(db, net) && h in net.handlers && HandlerOk(net, handler)
    requires forall g :: g in net.handlers && g != h ==>
      HandlersApart(handler, net.handlers[g]) && HandlersApart(net.handlers[g], handler)
    ensures Inv(db, net.(handlers := net.handlers[h := handler]))
  {
    var net' := net.(handlers := net.handlers[h := handler]);
    forall g | g in net'.handlers ensures g < net'.nextHandler && HandlerOk(net', net'.handlers[g]) {
      assert g != h ==> HandlerOk(net, net.handlers[g]);
    }
    forall g, k | g in net'.handlers && k in net'.handlers && g != k
      ensures HandlersApart(net'.handlers[g], net'.handlers[k])
    {
      if g != h && k != h { assert HandlersApart(net.handlers[g], net.handlers[k]); }
    }
    MessagesKept(db, net, net');
    RelaysKept(db, net, net');
    ConfirmedKept(db, net, net');
  }

  lemma EffectKeepsHandlers(net: Net, h: nat, row: Picking)
    requires HandlersOk(net) && h in net.handlers && net.handlers[h].pc != CommitEffect
    requires forall g :: g in net.handlers ==> g == h || !HoldsInsert(net.handlers[g], row.eventId)
    ensures HandlersOk(net.(picking := net.picking + [row]))
  {
    var net' := net.(picking := net.picking + [row]);
    forall g | g in net'.handlers ensures HandlerOk(net', net'.handlers[g]) {
      assert HandlerOk(net, net.handlers[g]);
      EffectGrows(net.picking, row, net.handlers[g].event.eventId);
    }
  }

  lemma EffectKeepsMessages(db: Db, net: Net, row: Picking)
    requires MessagesOk(db, net)
    ensures MessagesOk(db, net.(picking := net.picking + [row]))
  {
    var net' := net.(picking := net.picking + [row]);
    forall n | n in net'.messages ensures MessageOk(db, net', net'.messages[n]) {
      assert MessageOk(db, net, net.messages[n]);
      if ParseOrderPlaced(net.messages[n].body).Success? {
        EffectGrows(net.picking, row, ParseOrderPlaced(net.messages[n].body).value.eventId);
      }
    }
  }

  lemma EffectKeepsPicking(db: Db, net: Net, row: Picking)
    requires PickingOk(db, net) && PickingGenuine(db, row) && !HasEffect(net.picking, row.eventId)
    ensures PickingOk(db, net.(picking := net.picking + [row]))
  {
    var net' := net.(picking := net.picking + [row]);
    forall i, j | 0 <= i < j < |net'.picking|
      ensures net'.picking[i].eventId != net'.picking[j].eventId
    {
      assert j < |net.picking| || net.picking[i].eventId != row.eventId;
    }
    forall key | key in net'.inbox ensures HasEffect(net'.picking, key.0) {
      EffectGrows(net.picking, row, key.0);
    }
  }

  /** Committing an effect: a new picking row for an event that had none, or nothing. */
  lemma EffectKeepsInv(db: Db, net: Net, h: nat, e: Accepted)
    requires Inv(db, net) && Genuine(db, e) && IsNumber(e.orderId) && !HasEffect(net.picking, e.eventId)
    requires forall g :: g in net.handlers ==> g == h || !HoldsInsert(net.handlers[g], e.eventId)
    requires h in net.handlers && net.handlers[h].pc != CommitEffect
    ensures Inv(db, net.(picking := net.picking + [RowFor(e)]))
  {
    var row := RowFor(e);
    var net' := net.(picking := net.picking + [row]);
    assert PickingGenuine(db, row);
    EffectKeepsHandlers(net, h, row);
    EffectKeepsMessages(db, net, row);
    EffectKeepsPicking(db, net, row);
    RelaysKept(db, net, net');
    ConfirmedKept(db, net, net');
  }

  lemma InboxKeepsInv(db: Db, net: Net, h: nat, key: (string, string))
    requires Inv(db, net) && HasEffect(net.picking, key.0)
    requires forall g :: g in net.handlers ==> !HoldsClaim(net.handlers[g], key)
    ensures Inv(db, net.(inbox := net.inbox + {key}))
  {
    var net' := net.(inbox := net.inbox + {key});
    forall g | g in net'.handlers ensures HandlerOk(net', net'.handlers[g]) {
      assert HandlerOk(net, net.handlers[g]);
    }
    assert HandlersOk(net');
    MessagesKept(db, net, net');
    RelaysKept(db, net, net');
    ConfirmedKept(db, net, net');
  }

  lemma HandlerStepKeepsInv(db: Db, net: Net, h: nat)
    requires Inv(db, net) && StepEnabled(net, h)
    ensures Inv(db, RunHandler(net, h))
  {
    var handler := net.handlers[h];
    var e := handler.event;
    assert HandlerOk(net, handler);
    assert MessageOk(db, net, net.messages[handler.message]);
    match handler.pc {
      case Parse =>
        match ParseOrderPlaced(net.messages[handler.message].body) {
          case Failure(_) => SettleKeepsInv(db, net, h, (m: Message) => m.(place := Dead));
          case Success(event) =>
            HandlerMoves(db, net, h, handler.(event := event,
                                              pc := if handler.mode.WithInbox? then ClaimInbox else Effect));
        }
      case ClaimInbox =>
        var key := (e.eventId, handler.mode.consumer);
        if key in net.inbox {
          HandlerMoves(db, net, h, handler.(pc := Ack));
        } else {
          forall g | g in net.handlers && g != h
            ensures !HoldsClaim(net.handlers[g], key)
          {
          }
          HandlerMoves(db, net, h, handler.(pc := Effect));
        }
      case Effect => EffectStepKeepsInv(db, net, h);
      case CommitEffect => CommitStepKeepsInv(db, net, h);
      case Ack => SettleKeepsInv(db, net, h, (m: Message) => m.(place := Gone));
    }
  }

  lemma EffectStepKeepsInv(db: Db, net: Net, h: nat)
    requires Inv(db, net) && StepEnabled(net, h) && net.handlers[h].pc == Effect
    ensures Inv(db, RunHandler(net, h))
  {
    var handler := net.handlers[h];
    var e := handler.event;
    assert HandlerOk(net, handler);
    assert MessageOk(db, net, net.messages[handler.message]);
    var inserts := !HasEffect(net.picking, e.eventId);
    forall g | g in net.handlers && g != h
      ensures HandlersApart(handler, net.handlers[g]) && HandlersApart(net.handlers[g], handler)
      ensures inserts ==> !HoldsInsert(net.handlers[g], e.eventId)
    {
    }
    if handler.mode.WithInbox? {
      HandlerMoves(db, net, h, handler.(pc := CommitEffect, inserts := inserts));
    } else if inserts {
      EffectKeepsInv(db, net, h, e);
      var grown := net.(picking := net.picking + [RowFor(e)]);
      EffectGrows(net.picking, RowFor(e), e.eventId);
      HandlerMoves(db, grown, h, handler.(pc := Ack));
      assert RunHandler(net, h) == grown.(handlers := grown.handlers[h := handler.(pc := Ack)]);
    } else {
      HandlerMoves(db, net, h, handler.(pc := Ack));
    }
  }

  /** A handler that holds no uncommitted row is apart from any other. */
  lemma FreeIsApart(free: Handler, other: Handler)
    requires free.pc in {Parse, ClaimInbox, Ack}
    ensures HandlersApart(free, other) && HandlersApart(other, free)
  {
  }

  lemma CommitHoldsAlone(net: Net, h: nat)
    requires HandlersOk(net) && StepEnabled(net, h) && net.handlers[h].pc == CommitEffect
    ensures var handler := net.handlers[h];
      forall g :: g in net.handlers && g != h ==>
        && !HoldsClaim(net.handlers[g], (handler.event.eventId, handler.mode.consumer))
        && (handler.inserts ==> !HoldsInsert(net.handlers[g], handler.event.eventId))
  {
    forall g | g in net.handlers && g != h
      ensures HandlersApart(net.handlers[h], net.handlers[g])
    {
    }
  }

  lemma FreeMoves(db: Db, net: Net, h: nat, handler: Handler)
    requires Inv(db, net) && h in net.handlers && HandlerOk(net, handler)
    requires handler.pc in {Parse, ClaimInbox, Ack}
    ensures Inv(db, net.(handlers := net.handlers[h := handler]))
  {
    forall g | g in net.handlers
      ensures HandlersApart(handler, net.handlers[g]) && HandlersApart(net.handlers[g], handler)
    {
      FreeIsApart(handler, net.handlers[g]);
    }
    HandlerMoves(db, net, h, handler);
  }

  lemma GrowStepKeepsInv(db: Db, net: Net, h: nat, e: Accepted, inserts: bool)
    requires Inv(db, net) && h in net.handlers && net.handlers[h].pc == Parse
    requires Genuine(db, e) && IsNumber(e.orderId)
    requires inserts <==> !HasEffect(net.picking, e.eventId)
    requires inserts ==> forall g :: g in net.handlers && g != h ==> !HoldsInsert(net.handlers[g], e.eventId)
    ensures var grown := if inserts then net.(picking := net.picking + [RowFor(e)]) else net;
      Inv(db, grown) && HasEffect(grown.picking, e.eventId)
  {
    if inserts {
      EffectKeepsInv(db, net, h, e);
      EffectGrows(net.picking, RowFor(e), e.eventId);
    }
  }

  lemma StepAside(db: Db, net: Net, h: nat) returns (aside: Net)
    requires Inv(db, net) && StepEnabled(net, h) && net.handlers[h].pc == CommitEffect
    ensures aside == net.(handlers := net.handlers[h := net.handlers[h].(pc := Parse)])
    ensures Inv(db, aside)
    ensures var handler := net.handlers[h];
      && Genuine(db, handler.event)
      && ParseOrderPlaced(net.messages[handler.message].body) == Success(handler.event)
      && (handler.inserts <==> !HasEffect(net.picking, handler.event.eventId))
      && (forall g :: g in aside.handlers ==>
            && !HoldsClaim(aside.handlers[g], (handler.event.eventId, handler.mode.consumer))
            && (handler.inserts ==> !HoldsInsert(aside.handlers[g], handler.event.eventId)))
  {
    var handler := net.handlers[h];
    assert HandlerOk(net, handler);
    assert MessageOk(db, net, net.messages[handler.message]);
    CommitHoldsAlone(net, h);
    FreeMoves(db, net, h, handler.(pc := Parse));
    aside := net.(handlers := net.handlers[h := handler.(pc := Parse)]);
  }

  /** The commit of an inbox transaction, its rows one at a time: the handler lets go, the
      effect appears, the inbox mark appears. */
  lemma CommitStepKeepsInv(db: Db, net: Net, h: nat)
    requires Inv(db, net) && StepEnabled(net, h) && net.handlers[h].pc == CommitEffect
    ensures Inv(db, RunHandler(net, h))
  {
    var handler := net.handlers[h];
    var aside := StepAside(db, net, h);
    GrowStepKeepsInv(db, aside, h, handler.event, handler.inserts);
    var grown := if handler.inserts then aside.(picking := aside.picking + [RowFor(handler.event)]) else aside;
    MarkStepKeepsInv(db, grown, h, handler);
    CommitIs(net, h, grown);
  }

  lemma CommitIs(net: Net, h: nat, grown: Net)
    requires StepEnabled(net, h) && net.handlers[h].pc == CommitEffect
    requires var handler := net.handlers[h];
      grown == net.(handlers := net.handlers[h := handler.(pc := Parse)],
                    picking := if handler.inserts then net.picking + [RowFor(handler.event)] else net.picking)
    ensures var handler := net.handlers[h];
      RunHandler(net, h) == grown.(inbox := grown.inbox + {(handler.event.eventId, handler.mode.consumer)},
                                   handlers := grown.handlers[h := handler.(pc := Ack)])
  {
  }

  lemma MarkStepKeepsInv(db: Db, net: Net, h: nat, handler: Handler)
    requires Inv(db, net) && h in net.handlers && handler.mode.WithInbox?
    requires handler.message in net.messages
    requires ParseOrderPlaced(net.messages[handler.message].body) == Success(handler.event)
    requires HasEffect(net.picking, handler.event.eventId)
    requires forall g :: g in net.handlers ==>
      !HoldsClaim(net.handlers[g], (handler.event.eventId, handler.mode.consumer))
    ensures Inv(db, net.(inbox := net.inbox + {(handler.event.eventId, handler.mode.consumer)},
                         handlers := net.handlers[h := handler.(pc := Ack)]))
  {
    var key := (handler.event.eventId, handler.mode.consumer);
    InboxKeepsInv(db, net, h, key);
    FreeMoves(db, net.(inbox := net.inbox + {key}), h, handler.(pc := Ack));
  }

  // ---------------------------------------------------------------- all steps

  lemma InitialInv(db: Db, bound: bool)
    requires SourceOk(db)
    ensures Inv(db, Initial(bound))
  {
  }

  lemma StepKeepsInv(db: Db, net: Net, a: Action)
    requires Inv(db, net) && Enabled(db, net, a)
    ensures Inv(db, Exec(db, net, a))
  {
    match a {
      case BindQueue => BindKeepsInv(db, net);
      case PickBatch(r, n) => PickKeepsInv(db, net, r, n);
      case PublishRow(r, reply) => PublishKeepsInv(db, net, r, reply);
      case MarkRow(r) => MarkKeepsInv(db, net, r);
      case CommitMarks(r) => CommitMarksKeepsInv(db, net, r);
      case AbortRelay(r) => RelayMoves(db, net, Exec(db, net, a), r);
      case PublishDirect(i, now) =>
        DirectEventIsGenuine(db, i, now);
        SendKeepsInv(db, net, ToJson(DirectEvent(db, i, now)));
      case PublishRaw(body) => SendKeepsInv(db, net, body);
      case Deliver(m, mode) => DeliverKeepsInv(db, net, m, mode);
      case HandlerStep(h) => HandlerStepKeepsInv(db, net, h);
      case HandlerFail(h) => FailKeepsInv(db, net, h);
      case ConnectionLost(m) =>
        assert MessageOk(db, net, net.messages[m]);
        MessageMoves(db, net, m, Requeue(net.messages[m]));
    }
  }

  lemma FailKeepsInv(db: Db, net: Net, h: nat)
    requires Inv(db, net) && h in net.handlers
    ensures Inv(db, Settle(net, h, Requeue))
  {
    var m := net.handlers[h].message;
    assert m in net.messages ==> MessageOk(db, net, net.messages[m]);
    DropHandler(db, net, h);
    var closed := net.(handlers := net.handlers - {h});
    if m in net.messages && net.messages[m].place == Unacked(h) {
      MessageMoves(db, closed, m, Requeue(net.messages[m]));
    }
  }

  lemma BindKeepsInv(db: Db, net: Net)
    requires Inv(db, net)
    ensures Inv(db, net.(bound := true))
  {
    var net' := net.(bound := true);
    HandlersKept(net, net');
    MessagesKept(db, net, net');
    RelaysKept(db, net, net');
    ConfirmedKept(db, net, net');
  }

  // ---------------------------------------------------------------- commits of the shop

  /** The shop only ever adds orders, items and outbox rows. */
  ghost predicate Extends(db: Db, db': Db) {
    db.items <= db'.items && db.outbox <= db'.outbox
  }

  lemma GenuineGrows(db: Db, db': Db, e: Accepted)
    requires Genuine(db, e) && Extends(db, db')
    ensures Genuine(db', e)
  {
    var i :| 0 <= i < |db.items| && e == AcceptedOf(db.items[i]);
    assert db'.items[i] == db.items[i];
  }

  /** A commit of the shop keeps the delivery invariant; a row that commits late, under an id
      no publish was ever made for, is simply not published yet. */
  lemma ShopCommitKeepsInv(db: Db, db': Db, net: Net)
    requires Inv(db, net) && Extends(db, db') && SourceOk(db')
    ensures Inv(db', net)
  {
    CommitKeepsMessages(db, db', net);
    CommitKeepsPicking(db, db', net);
    forall q | q in net.relays ensures RelayOk(db', net, net.relays[q]) {
      assert RelayOk(db, net, net.relays[q]);
    }
    CommitKeepsConfirmed(db, db', net);
  }

  lemma CommitKeepsMessages(db: Db, db': Db, net: Net)
    requires MessagesOk(db, net) && Extends(db, db')
    ensures MessagesOk(db', net)
  {
    forall m | m in net.messages ensures MessageOk(db', net, net.messages[m]) {
      assert MessageOk(db, net, net.messages[m]);
      if ParseOrderPlaced(net.messages[m].body).Success? {
        GenuineGrows(db, db', ParseOrderPlaced(net.messages[m].body).value);
      }
    }
  }

  lemma CommitKeepsPicking(db: Db, db': Db, net: Net)
    requires PickingOk(db, net) && Extends(db, db')
    ensures PickingOk(db', net)
  {
    forall i | 0 <= i < |net.picking| ensures PickingGenuine(db', net.picking[i]) {
      assert PickingGenuine(db, net.picking[i]);
      var j :| 0 <= j < |db.items| && net.picking[i] == RowFor(AcceptedOf(db.items[j]));
      assert db'.items[j] == db.items[j];
    }
  }

  lemma CommitKeepsConfirmed(db: Db, db': Db, net: Net)
    requires ConfirmedOk(db, net) && Extends(db, db') && DistinctIds(db'.outbox)
    ensures ConfirmedOk(db', net)
  {
    forall row | row in db'.outbox && row.id in net.confirmed
      ensures Routed(net, row)
    {
      assert row.id in IdsOf(db.outbox);
      var known :| known in db.outbox && known.id == row.id;
      assert known in db'.outbox && known == row;
    }
    forall id | id in net.confirmed ensures id in IdsOf(db'.outbox) {
      var known :| known in db.outbox && known.id == id;
      assert known in db'.outbox;
    }
  }

  // ---------------------------------------------------------------- how often a message comes back

  /** A delivery takes the message out of the queue and starts a handler for it; all others stay. */
  lemma DeliveryStarts(net: Net, m: nat, mode: Mode)
    requires m in net.messages && net.nextHandler !in net.handlers
    ensures var net', h := HandOver(net, m, mode), net.nextHandler;
      && h in net'.handlers && net'.handlers[h].message == m && net'.handlers[h].mode == mode
      && net'.handlers[h].pc == Parse && net'.handlers - {h} == net.handlers
      && net'.messages == net.messages[m := net.messages[m].(place := Unacked(h))]
  {
    assert HandOver(net, m, mode).handlers - {net.nextHandler} == net.handlers;
  }

  /** The message goes back to the queue: its handler failed, or its connection was lost. */
  predicate Returns(net: Net, a: Action, m: nat)
    requires m in net.messages
  {
    match a
    case HandlerFail(h) => h in net.handlers && net.handlers[h].message == m && net.messages[m].place == Unacked(h)
    case ConnectionLost(n) => n == m
    case _ => false
  }

  /** Every return is counted, nothing else is; the sixth goes to the dead-letter queue, the others
      make the message ready again; the body never changes. */
  lemma ReturnsAreCounted(db: Db, net: Net, a: Action, m: nat)
    requires Inv(db, net) && Enabled(db, net, a) && m in net.messages
    ensures m in Exec(db, net, a).messages
    ensures Counted(net.messages[m], Exec(db, net, a).messages[m], Returns(net, a, m))
  {
    match a
    case PublishRow(r, reply) => PublishAddsOne(net, r, reply, m);
    case PublishDirect(i, now) => SendAddsOne(net, ToJson(DirectEvent(db, i, now)), m);
    case PublishRaw(body) => SendAddsOne(net, body, m);
    case Deliver(n, mode) => HandOverKeepsCount(net, n, mode, m);
    case HandlerStep(h) => HandlerKeepsCount(net, h, m);
    case HandlerFail(h) => FailCounts(net, h, m);
    case _ =>
  }

  predicate Counted(before: Message, after: Message, returned: bool) {
    && after.body == before.body
    && (if returned
        then after.requeues == before.requeues + 1 && after.place == if before.requeues >= 5 then Dead else Ready
        else after.requeues == before.requeues)
  }

  lemma PublishAddsOne(net: Net, r: nat, reply: PublishReply, m: nat)
    requires r in net.relays && net.relays[r].at < |net.relays[r].batch| && m in net.messages && m < net.nextMessage
    ensures m in PublishOne(net, r, reply).messages && PublishOne(net, r, reply).messages[m] == net.messages[m]
  {
    SendAddsOne(net, ToJson(net.relays[r].batch[net.relays[r].at].event), m);
  }

  lemma HandOverKeepsCount(net: Net, n: nat, mode: Mode, m: nat)
    requires n in net.messages && m in net.messages
    ensures m in HandOver(net, n, mode).messages
    ensures Counted(net.messages[m], HandOver(net, n, mode).messages[m], false)
  {
  }

  lemma FailCounts(net: Net, h: nat, m: nat)
    requires h in net.handlers && m in net.messages
    ensures m in Settle(net, h, Requeue).messages
    ensures Counted(net.messages[m], Settle(net, h, Requeue).messages[m],
                    net.handlers[h].message == m && net.messages[m].place == Unacked(h))
  {
  }

  lemma SendAddsOne(net: Net, body: Json, m: nat)
    requires m in net.messages && m < net.nextMessage
    ensures m in Send(net, body).messages && Send(net, body).messages[m] == net.messages[m]
  {
  }

  lemma HandlerKeepsCount(net: Net, h: nat, m: nat)
    requires StepEnabled(net, h) && m in net.messages
    ensures m in RunHandler(net, h).messages
    ensures Counted(net.messages[m], RunHandler(net, h).messages[m], false)
  {
  }
}
