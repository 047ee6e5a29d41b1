/** From any moment of any run of the pipeline every outbox event can still arrive. */
module PipelineProgress {
  import opened Checkout
  import opened Relay
  import opened Pipeline
  import Shop
  import D = Delivery
  import DP = DeliveryProgress

  // ---------------------------------------------------------------- messages out for delivery

  lemma {:induction false} RunKeepsHeld(db0: Db, s: State, run: seq<Action>)
    requires Inv(db0, s) && DP.Held(s.net) && ValidRun(s, run)
    ensures DP.Held(Run(s, run).net)
    decreases |run|
  {
    if run != [] {
      StepKeepsInv(db0, s, run[0]);
      match run[0] {
        case InShop(_) =>
        case InDelivery(move) => DP.StepKeepsHeld(s.shop.db, s.net, move);
      }
      RunKeepsHeld(db0, Exec(s, run[0]), run[1..]);
    }
  }

  lemma ReachedGood(db0: Db, bound: bool, run: seq<Action>)
    requires Starts(db0, bound, run)
    ensures var s := After(db0, bound, run); Inv(db0, s) && DP.Good(s.shop.db, s.net)
  {
    Reached(db0, bound, run);
    InitialInv(db0, bound);
    RunKeepsHeld(db0, Initial(db0, bound), run);
  }

  // ---------------------------------------------------------------- continuations

  function Lift(moves: seq<D.Action>): seq<Action> {
    if moves == [] then [] else [InDelivery(moves[0])] + Lift(moves[1..])
  }

  predicate Smooth(run: seq<Action>) {
    forall i :: 0 <= i < |run| ==> run[i].InDelivery? && DP.Smooth(run[i].move)
  }

  lemma {:induction false} LiftedRun(s: State, moves: seq<D.Action>)
    requires DP.SmoothRun(s.shop.db, s.net, moves)
    ensures Smooth(Lift(moves)) && ValidRun(s, Lift(moves))
    ensures Run(s, Lift(moves)) == s.(net := DP.Run(s.shop.db, s.net, moves))
    decreases |moves|
  {
    if moves != [] {
      var a := InDelivery(moves[0]);
      LiftedRun(Exec(s, a), moves[1..]);
      assert Lift(moves)[0] == a && Lift(moves)[1..] == Lift(moves[1..]);
    }
  }

  lemma {:induction false} RunOn(s: State, run: seq<Action>, more: seq<Action>)
    requires ValidRun(s, run) && ValidRun(Run(s, run), more)
    ensures ValidRun(s, run + more) && Run(s, run + more) == Run(Run(s, run), more)
    decreases |run|
  {
    if run == [] {
      assert run + more == more;
    } else {
      assert (run + more)[0] == run[0] && (run + more)[1..] == run[1..] + more;
      RunOn(Exec(s, run[0]), run[1..], more);
    }
  }

  /** Whatever has happened, some continuation in which nothing fails, and no sale is needed, applies
      every committed event of which no copy had been dead-lettered before. With the binding in
      place nothing is handed back; without it that is the only other end. */
  lemma EveryEventArrives(db0: Db, bound: bool, run: seq<Action>) returns (more: seq<Action>)
    requires Starts(db0, bound, run)
    ensures Smooth(more) && Starts(db0, bound, run + more)
    ensures var s, s' := After(db0, bound, run), After(db0, bound, run + more);
      && s'.shop == s.shop
      && (bound ==> s'.net.returned == [])
      && forall j :: 0 <= j < |s.shop.db.outbox| ==> DP.Arrives(s.net, s'.net, s.shop.db.outbox[j])
  {
    var s := After(db0, bound, run);
    ReachedGood(db0, bound, run);
    var net' := DP.ComesToRest(s.shop.db, s.net);
    var moves :| DP.SmoothRun(s.shop.db, s.net, moves) && net' == DP.Run(s.shop.db, s.net, moves);
    more := Lift(moves);
    LiftedRun(s, moves);
    RunOn(Initial(db0, bound), run, more);
    if bound { NoLoss(db0, run + more); }
    forall j | 0 <= j < |s.shop.db.outbox| ensures DP.Arrives(s.net, net', s.shop.db.outbox[j]) {
      LedgerRowIsGenuine(db0, s.shop.log, s.shop.db, j);
      DP.RestMeansArrived(s.shop.db, s.net, moves, s.shop.db.outbox[j]);
    }
  }
}
