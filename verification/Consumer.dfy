/** The code of one delivery: the handler of a consumer (src/messaging/consumer.ts:74-117) and the
    two ways of applying the effect (src/outbox/inbox.ts:26-57, src/messaging/effect.ts:24-37).
    `Delivery` is about any number of them at once. */
module Consumer {
  import opened Wrappers
  import opened Decimal
  import opened Events
  import opened Delivery

  datatype EffectOutcome = Applied | Duplicate

  /** The statement was refused, or the database went away. */
  datatype DbError = DbError

  /** Where the database goes away, if it does: up to the mark, or from the effect to the commit. */
  datatype Db = Up | DownAtMark | DownAtEffect

  /** INSERT ... ON CONFLICT ("eventId") DO NOTHING */
  function Inserted(picking: seq<Picking>, e: Accepted): seq<Picking>
    requires IsNumber(e.orderId)
  {
    if HasEffect(picking, e.eventId) then picking else picking + [RowFor(e)]
  }

  /** The picking row an event asks for. */
  ghost predicate RowTells(row: Picking, e: Accepted) {
    && row.eventId == e.eventId && row.quantity == e.quantity
    && forall n: nat :: Text(n) == e.orderId ==> row.orderId == n
  }

  /** An event that has its row leaves the table alone; any other gets one row, at the end, and
      nothing else changes. */
  ghost predicate Adds(before: seq<Picking>, e: Accepted, after: seq<Picking>) {
    if exists i :: 0 <= i < |before| && before[i].eventId == e.eventId then after == before
    else |after| == |before| + 1 && before <= after && RowTells(after[|before|], e)
  }

  lemma InsertedAdds(picking: seq<Picking>, e: Accepted)
    requires IsNumber(e.orderId)
    ensures Adds(picking, e, Inserted(picking, e))
  {
    forall n: nat | Text(n) == e.orderId ensures Value(e.orderId) == n {
      ValueOfText(n);
    }
  }

  /** What one delivery leaves of the two tables when nothing fails. */
  function Effects(mode: Mode, inbox: set<(string, string)>, picking: seq<Picking>, e: Accepted)
    : (set<(string, string)>, seq<Picking>)
    requires IsNumber(e.orderId)
  {
    if mode.NaturalKey? then (inbox, Inserted(picking, e))
    else if (e.eventId, mode.consumer) in inbox then (inbox, picking)
    else (inbox + {(e.eventId, mode.consumer)}, Inserted(picking, e))
  }

  /** An event already marked only needs the mark; any other also needs its order id to be a number. */
  predicate ApplyFails(mode: Mode, inbox: set<(string, string)>, e: Accepted, db: Db) {
    if mode.WithInbox? && (e.eventId, mode.consumer) in inbox then db.DownAtMark?
    else !db.Up? || !IsNumber(e.orderId)
  }

  class Warehouse {
    var inbox: set<(string, string)>
    var picking: seq<Picking>

    /** One row an event; and what is marked as processed has its row. */
    predicate Valid()
      reads this
    {
      && (forall i, j :: 0 <= i < j < |picking| ==> picking[i].eventId != picking[j].eventId)
      && (forall key :: key in inbox ==> HasEffect(picking, key.0))
    }

    constructor ()
      ensures Valid() && inbox == {} && picking == []
    {
      inbox, picking := {}, [];
    }

    /** Idempotent by its natural key alone. */
    method ApplyPickingTask(e: Accepted, db: Db) returns (r: Result<EffectOutcome, DbError>)
      requires Valid()
      modifies this`picking
      ensures Valid()
      ensures r.Failure? <==> !db.Up? || !IsNumber(e.orderId)
      ensures picking == if r.Success? then Inserted(old(picking), e) else old(picking)
      ensures r.Success? ==> Adds(old(picking), e, picking)
      ensures r.Success? ==> (r.value.Duplicate? <==> HasEffect(old(picking), e.eventId))
    {
      if !db.Up? || !IsNumber(e.orderId) { return Failure(DbError); }
      InsertedAdds(picking, e);
      if HasEffect(picking, e.eventId) { return Success(Duplicate); }
      InsertKeepsEffects(picking, RowFor(e));
      picking := picking + [RowFor(e)];
      return Success(Applied);
    }

    /** Mark and effect in one transaction: both or, when it fails, neither. */
    method ApplyWithInbox(e: Accepted, consumer: string, db: Db) returns (r: Result<EffectOutcome, DbError>)
      requires Valid()
      modifies this
      ensures Valid()
      ensures r.Failure? <==> ApplyFails(Delivery.WithInbox(consumer), old(inbox), e, db)
      ensures r.Success? ==> (r.value.Duplicate? <==> (e.eventId, consumer) in old(inbox))
      ensures r.Failure? ==> inbox == old(inbox) && picking == old(picking)
      ensures r.Success? ==> inbox == old(inbox) + {(e.eventId, consumer)}
      ensures r.Success? && r.value.Duplicate? ==> picking == old(picking)
      ensures r.Success? && r.value.Applied? ==> IsNumber(e.orderId) && Adds(old(picking), e, picking)
      ensures r.Success? && IsNumber(e.orderId) ==>
        (inbox, picking) == Effects(Delivery.WithInbox(consumer), old(inbox), old(picking), e)
    {
      var savedInbox, savedPicking := inbox, picking;  // BEGIN
      if db.DownAtMark? { return Failure(DbError); }
      if (e.eventId, consumer) in inbox {
        assert HasEffect(picking, (e.eventId, consumer).0);
        return Success(Duplicate);
      }
      inbox := inbox + {(e.eventId, consumer)};
      if db.DownAtEffect? || !IsNumber(e.orderId) {
        inbox, picking := savedInbox, savedPicking;    // ROLLBACK
        return Failure(DbError);
      }
      InsertKeepsEffects(picking, RowFor(e));
      InsertedAdds(picking, e);
      picking := Inserted(picking, e);
      InsertedHasEffect(savedPicking, e);
      return Success(Applied);
    }
  }

  lemma InsertKeepsEffects(picking: seq<Picking>, row: Picking)
    ensures forall id :: HasEffect(picking, id) ==> HasEffect(picking + [row], id)
  {
    forall id | HasEffect(picking, id) ensures HasEffect(picking + [row], id) {
      var i :| 0 <= i < |picking| && picking[i].eventId == id;
      assert (picking + [row])[i].eventId == id;
    }
  }

  lemma InsertedHasEffect(picking: seq<Picking>, e: Accepted)
    requires IsNumber(e.orderId)
    ensures HasEffect(Inserted(picking, e), e.eventId)
    ensures Inserted(Inserted(picking, e), e) == Inserted(picking, e)
  {
    if !HasEffect(picking, e.eventId) {
      assert (picking + [RowFor(e)])[|picking|].eventId == e.eventId;
    }
  }

  /** A delivery that only counts as skipped: the inbox has its mark, or, for a consumer without an
      inbox, the table has its row. */
  predicate Known(mode: Mode, inbox: set<(string, string)>, picking: seq<Picking>, e: Accepted) {
    if mode.WithInbox? then (e.eventId, mode.consumer) in inbox
    else exists i :: 0 <= i < |picking| && picking[i].eventId == e.eventId
  }

  lemma MarkedHasEffect(warehouse: Warehouse, key: (string, string))
    requires warehouse.Valid()
    ensures key in warehouse.inbox ==> HasEffect(warehouse.picking, key.0)
  {
  }

  datatype Settlement = NotADelivery | Acked | RejectedToDlq | Requeued

  class Consumer {
    const warehouse: Warehouse
    const mode: Mode
    var deliveries: nat
    var applied: nat
    var skipped: nat
    var rejected: nat

    constructor (warehouse: Warehouse, mode: Mode)
      ensures this.warehouse == warehouse && this.mode == mode
      ensures deliveries == applied == skipped == rejected == 0
    {
      this.warehouse, this.mode := warehouse, mode;
      deliveries, applied, skipped, rejected := 0, 0, 0, 0;
    }

    /** `None` is the message the broker sends on cancelling. An unreadable message goes to the
        dead-letter queue and touches nothing; an ack means the effect is there; whatever throws
        sends the message back, also after the effect, which then counts as applied. */
    method OnMessage(message: Option<Json>, db: Db, hookThrows: bool) returns (settled: Settlement)
      requires warehouse.Valid()
      modifies this, warehouse
      ensures warehouse.Valid()
      ensures message.None? ==>
        && settled == NotADelivery && deliveries == old(deliveries) && rejected == old(rejected)
        && applied == old(applied) && skipped == old(skipped)
        && warehouse.picking == old(warehouse.picking) && warehouse.inbox == old(warehouse.inbox)
      ensures message.Some? ==> deliveries == old(deliveries) + 1
      ensures message.Some? && ParseOrderPlaced(message.value).Failure? ==>
        && settled == RejectedToDlq && rejected == old(rejected) + 1
        && applied == old(applied) && skipped == old(skipped)
        && warehouse.picking == old(warehouse.picking) && warehouse.inbox == old(warehouse.inbox)
      ensures message.Some? && ParseOrderPlaced(message.value).Success? ==>
        var e := ParseOrderPlaced(message.value).value;
        var fails := ApplyFails(mode, old(warehouse.inbox), e, db);
        && settled == (if fails || hookThrows then Requeued else Acked)
        && applied == old(applied) + (if !fails && !Known(mode, old(warehouse.inbox), old(warehouse.picking), e) then 1 else 0)
        && skipped == old(skipped) + (if !fails && Known(mode, old(warehouse.inbox), old(warehouse.picking), e) then 1 else 0)
        && rejected == old(rejected)
        && (settled == Acked ==> HasEffect(warehouse.picking, e.eventId))
        && (fails ==> warehouse.picking == old(warehouse.picking) && warehouse.inbox == old(warehouse.inbox))
        && (!fails && IsNumber(e.orderId) ==>
              && (warehouse.inbox, warehouse.picking) == Effects(mode, old(warehouse.inbox), old(warehouse.picking), e)
              && Adds(old(warehouse.picking), e, warehouse.picking))
    {
      if message.None? { return NotADelivery; }
      deliveries := deliveries + 1;

      var parsed := ParseOrderPlaced(message.value);
      if parsed.Failure? {
        rejected := rejected + 1;
        return RejectedToDlq;
      }

      var outcome := Apply(parsed.value, db);
      if outcome.Failure? { return Requeued; }
      if outcome.value == Applied { applied := applied + 1; } else { skipped := skipped + 1; }
      if hookThrows { return Requeued; }
      return Acked;
    }

    /** options.apply, or the natural key alone. */
    method Apply(e: Accepted, db: Db) returns (outcome: Result<EffectOutcome, DbError>)
      requires warehouse.Valid()
      modifies warehouse
      ensures warehouse.Valid()
      ensures outcome.Failure? <==> ApplyFails(mode, old(warehouse.inbox), e, db)
      ensures outcome.Failure? ==> warehouse.picking == old(warehouse.picking) && warehouse.inbox == old(warehouse.inbox)
      ensures outcome.Success? ==>
        && (outcome.value.Duplicate? <==> Known(mode, old(warehouse.inbox), old(warehouse.picking), e))
        && HasEffect(warehouse.picking, e.eventId)
      ensures outcome.Success? && IsNumber(e.orderId) ==>
        && (warehouse.inbox, warehouse.picking) == Effects(mode, old(warehouse.inbox), old(warehouse.picking), e)
        && Adds(old(warehouse.picking), e, warehouse.picking)
    {
      if mode.WithInbox? {
        MarkedHasEffect(warehouse, (e.eventId, mode.consumer));
        outcome := warehouse.ApplyWithInbox(e, mode.consumer, db);
      } else {
        outcome := warehouse.ApplyPickingTask(e, db);
      }
      if IsNumber(e.orderId) {
        InsertedHasEffect(old(warehouse.picking), e);
        InsertedAdds(old(warehouse.picking), e);
      }
    }
  }

  /** A message delivered again, to whichever consumer and however its first handling ended: before
      the effect, after it, or settled. The second handling settles it, and its row is there once. */
  method Redelivered(first: Consumer, second: Consumer, body: Json, db: Db, hookThrows: bool)
    returns (settled: Settlement)
    requires first.warehouse == second.warehouse && first.warehouse.Valid()
    requires ParseOrderPlaced(body).Success? && IsNumber(ParseOrderPlaced(body).value.orderId)
    modifies first, second, first.warehouse
    ensures settled == Acked
    ensures Adds(old(first.warehouse.picking), ParseOrderPlaced(body).value, first.warehouse.picking)
    ensures first.warehouse.picking == Inserted(old(first.warehouse.picking), ParseOrderPlaced(body).value)
  {
    var once := first.OnMessage(Some(body), db, hookThrows);
    InsertedHasEffect(old(first.warehouse.picking), ParseOrderPlaced(body).value);
    InsertedAdds(old(first.warehouse.picking), ParseOrderPlaced(body).value);
    settled := second.OnMessage(Some(body), Up, false);
  }

  // ---------------------------------------------------------------- the steps of a handler

  /** Nobody else holds a mark or a row back. */
  predicate NobodyHolds(net: Net, h: nat) {
    h in net.handlers
    && forall g :: g in net.handlers && g != h ==> net.handlers[g].pc !in {Effect, CommitEffect}
  }

  predicate Handles(net: Net, h: nat, e: Accepted) {
    && h in net.handlers && net.handlers[h].message in net.messages && net.handlers[h].event == e
    && NobodyHolds(net, h)
  }

  lemma EffectStep(net: Net, h: nat, e: Accepted) returns (net': Net)
    requires Handles(net, h, e) && net.handlers[h].pc == Effect && IsNumber(e.orderId)
    ensures StepEnabled(net, h) && net' == RunHandler(net, h)
    ensures Handles(net', h, e) && net'.handlers[h].mode == net.handlers[h].mode && net'.inbox == net.inbox
    ensures net.handlers[h].mode.NaturalKey? ==>
      net'.handlers[h].pc == Ack && net'.picking == Inserted(net.picking, e)
    ensures net.handlers[h].mode.WithInbox? ==>
      && net'.handlers[h].pc == CommitEffect && net'.picking == net.picking
      && net'.handlers[h].inserts == !HasEffect(net.picking, e.eventId)
  {
    net' := RunHandler(net, h);
  }

  lemma CommitStep(net: Net, h: nat, e: Accepted) returns (net': Net)
    requires Handles(net, h, e) && net.handlers[h].pc == CommitEffect && net.handlers[h].mode.WithInbox?
    requires IsNumber(e.orderId) && net.handlers[h].inserts == !HasEffect(net.picking, e.eventId)
    ensures StepEnabled(net, h) && net' == RunHandler(net, h)
    ensures h in net'.handlers && net'.handlers[h].pc == Ack
    ensures net'.inbox == net.inbox + {(e.eventId, net.handlers[h].mode.consumer)}
    ensures net'.picking == Inserted(net.picking, e)
  {
    net' := RunHandler(net, h);
  }

  lemma ClaimStep(net: Net, h: nat, e: Accepted) returns (net': Net)
    requires Handles(net, h, e) && net.handlers[h].pc == ClaimInbox && net.handlers[h].mode.WithInbox?
    ensures StepEnabled(net, h) && net' == RunHandler(net, h)
    ensures Handles(net', h, e) && net'.handlers[h].mode == net.handlers[h].mode
    ensures net'.inbox == net.inbox && net'.picking == net.picking
    ensures net'.handlers[h].pc == if (e.eventId, net.handlers[h].mode.consumer) in net.inbox then Ack else Effect
  {
    net' := RunHandler(net, h);
  }

  lemma ParseStep(net: Net, h: nat) returns (net': Net)
    requires NobodyHolds(net, h) && net.handlers[h].message in net.messages && net.handlers[h].pc == Parse
    requires ParseOrderPlaced(net.messages[net.handlers[h].message].body).Success?
    ensures StepEnabled(net, h) && net' == RunHandler(net, h)
    ensures Handles(net', h, ParseOrderPlaced(net.messages[net.handlers[h].message].body).value)
    ensures net'.handlers[h].mode == net.handlers[h].mode
    ensures net'.inbox == net.inbox && net'.picking == net.picking
    ensures net'.handlers[h].pc == if net.handlers[h].mode.WithInbox? then ClaimInbox else Effect
  {
    net' := RunHandler(net, h);
  }

  /** Steps of handler h up to its ack. */
  ghost predicate StepsTo(net: Net, h: nat, net': Net, steps: nat)
    decreases steps
  {
    if steps == 0 then net' == net else StepEnabled(net, h) && StepsTo(RunHandler(net, h), h, net', steps - 1)
  }

  /** The steps of a delivery and the code of a delivery do the same: a handler nobody is in the way
      of comes to its ack with the inbox and the picking rows `OnMessage` would leave. */
  lemma HandlerDoesTheSame(net: Net, h: nat) returns (net': Net, steps: nat)
    requires NobodyHolds(net, h) && net.handlers[h].message in net.messages && net.handlers[h].pc == Parse
    requires var parsed := ParseOrderPlaced(net.messages[net.handlers[h].message].body);
      parsed.Success? && IsNumber(parsed.value.orderId)
    ensures StepsTo(net, h, net', steps) && h in net'.handlers && net'.handlers[h].pc == Ack
    ensures var e := ParseOrderPlaced(net.messages[net.handlers[h].message].body).value;
      (net'.inbox, net'.picking) == Effects(net.handlers[h].mode, net.inbox, net.picking, e)
  {
    var e, mode := ParseOrderPlaced(net.messages[net.handlers[h].message].body).value, net.handlers[h].mode;
    var parsed := ParseStep(net, h);
    if mode.NaturalKey? {
      net' := EffectStep(parsed, h, e);
      steps := 2;
      Two(net, h, parsed, net');
    } else {
      var claimed := ClaimStep(parsed, h, e);
      if (e.eventId, mode.consumer) in net.inbox {
        net', steps := claimed, 2;
        Two(net, h, parsed, claimed);
      } else {
        var written := EffectStep(claimed, h, e);
        net' := CommitStep(written, h, e);
        steps := 4;
        Two(claimed, h, written, net');
        assert StepsTo(parsed, h, net', 3);
      }
    }
  }

  lemma {:induction false} Two(net: Net, h: nat, mid: Net, net': Net)
    requires StepEnabled(net, h) && mid == RunHandler(net, h)
    requires StepEnabled(mid, h) && net' == RunHandler(mid, h)
    ensures StepsTo(net, h, net', 2)
  {
    assert StepsTo(net', h, net', 0);
    assert StepsTo(mid, h, net', 1);
  }
}
