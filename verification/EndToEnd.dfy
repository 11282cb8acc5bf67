/**
 The whole pipeline: bookings store events in the outbox with their rows, the outbox publishes them at least
 once, the broker delivers them any number of times in any order, and the flight service applies them.
 */
module EndToEnd {
  import Saga
  import BookingSystem
  import Outbox
  import Flight

  /** Row i of the outbox table carries event i of the log. */
  datatype System = System(bookings: BookingSystem.Bookings, rows: seq<Outbox.Row>, inventory: Flight.Inventory)

  datatype Action =
    | Book(step: BookingSystem.Step)
    | Publish(id: nat, reachesBroker: bool, succeeds: bool)   // an attempt; it may fail once the broker has it
    | Deliver(delivery: Flight.Action)                        // anything but a first publication

  function FreshRows(n: nat): seq<Outbox.Row> { seq(n, _ => Outbox.FRESH) }

  function Next(s: System, a: Action): System {
    match a
    case Book(step) =>
      var bookings := BookingSystem.Next(s.bookings, step);
      var stored := if |bookings.log| > |s.rows| then |bookings.log| - |s.rows| else 0;
      s.(bookings := bookings, rows := s.rows + FreshRows(stored))
    case Publish(id, reachesBroker, succeeds) =>
      if id >= |s.rows| || s.rows[id].status != Outbox.Pending then s
      else
        var reached := Flight.Act(s.bookings.log, s.inventory, Flight.Publish(id));
        s.(rows := s.rows[id := Outbox.Attempt(s.rows[id], succeeds)],
           inventory := if reachesBroker || succeeds then reached else s.inventory)
    case Deliver(delivery) =>
      if delivery.Publish? then s else s.(inventory := Flight.Act(s.bookings.log, s.inventory, delivery))
  }

  function Begin(flights: Flight.Flights, now: int): System {
    System(BookingSystem.Begin(now), [], Flight.Inventory(Flight.Db(flights, {}), {}, multiset{}, multiset{}))
  }

  function Run(flights: Flight.Flights, now: int, actions: seq<Action>): System {
    if actions == [] then Begin(flights, now)
    else Next(Run(flights, now, actions[..|actions| - 1]), actions[|actions| - 1])
  }

  /** The booking side of a run. */
  function Booked(actions: seq<Action>): seq<BookingSystem.Step> {
    if actions == [] then []
    else
      var a := actions[|actions| - 1];
      Booked(actions[..|actions| - 1]) + if a.Book? then [a.step] else []
  }

  lemma {:induction false} BookingSide(flights: Flight.Flights, now: int, actions: seq<Action>)
    ensures Run(flights, now, actions).bookings == BookingSystem.Run(now, Booked(actions))
  {
    hide BookingSystem.Next, Flight.Act;
    if actions != [] {
      var before := actions[..|actions| - 1];
      BookingSide(flights, now, before);
      var steps := Booked(actions);
      if actions[|actions| - 1].Book? {
        assert steps[..|steps| - 1] == Booked(before);
      } else {
        assert steps == Booked(before);
      }
    }
  }

  /** The log only ever grows at its end. */
  lemma LogGrows(s: BookingSystem.Bookings, step: BookingSystem.Step)
    ensures s.log <= BookingSystem.Next(s, step).log
  {
    hide Saga.Make;
  }

  /** Exactly-once effect from at-least-once delivery, in every reachable state: each counter is its initial value
      minus the processed reserves plus the processed releases, and no counter is ever driven below zero. */
  lemma {:induction false} ExactlyOnce(flights: Flight.Flights, now: int, actions: seq<Action>)
    ensures var s := Run(flights, now, actions); Flight.Balanced(flights, s.bookings.log, s.inventory)
    ensures Flight.NonNegative(flights) ==> Flight.NonNegative(Run(flights, now, actions).inventory.db.flights)
  {
    hide BookingSystem.Next, Flight.Act, Flight.Balanced, Flight.NonNegative;
    if actions == [] {
      BalancedAtFirst(flights, now);
    } else {
      var before, a := Run(flights, now, actions[..|actions| - 1]), actions[|actions| - 1];
      ExactlyOnce(flights, now, actions[..|actions| - 1]);
      var log := before.bookings.log;
      match a
      case Book(step) =>
        LogGrows(before.bookings, step);
        var longer := BookingSystem.Next(before.bookings, step).log;
        assert longer == log + longer[|log|..];
        Flight.BalancedLongerLog(flights, log, longer[|log|..], before.inventory);
      case Publish(id, _, _) => Flight.BalancedStep(flights, log, before.inventory, Flight.Publish(id));
      case Deliver(delivery) => Flight.BalancedStep(flights, log, before.inventory, delivery);
    }
  }

  lemma BalancedAtFirst(flights: Flight.Flights, now: int)
    ensures Flight.Balanced(flights, [], Begin(flights, now).inventory)
  {}

  /** Every stored event that changes the counter has been applied. */
  predicate SettledFor(s: System, f: int, field: Flight.SeatField) {
    forall id :: 0 <= id < |s.bookings.log| && Flight.Signed(s.bookings.log[id], f, field) != 0 ==>
                   id in s.inventory.db.processed
  }

  lemma {:induction false} NetWhenProcessed(log: seq<Flight.Event>, processed: set<nat>, f: int,
                                            field: Flight.SeatField)
    requires forall id :: 0 <= id < |log| && Flight.Signed(log[id], f, field) != 0 ==> id in processed
    ensures Flight.NetProcessed(log, processed, f, field) == BookingSystem.NetLogged(log, f, field)
  {
    hide Flight.Signed;
    if log != [] {
      NetWhenProcessed(log[..|log| - 1], processed, f, field);
    }
  }

  /** Seat conservation with its exact error, over every run: once the events that concern a counter are processed, the
      counter is its initial value minus the seats of the bookings that are reserved or confirmed, plus the drift. */
  lemma SeatAccounting(flights: Flight.Flights, now: int, actions: seq<Action>, f: int, field: Flight.SeatField)
    requires f in flights && SettledFor(Run(flights, now, actions), f, field)
    ensures var s := Run(flights, now, actions);
            && f in s.inventory.db.flights
            && s.inventory.db.flights[f].Get(field) ==
                 flights[f].Get(field)
                 - BookingSystem.HeldSeats(s.bookings.slots, f, field)
                 + BookingSystem.Drift(now, Booked(actions), f, field)
  {
    var s := Run(flights, now, actions);
    ExactlyOnce(flights, now, actions);
    BookingSide(flights, now, actions);
    NetWhenProcessed(s.bookings.log, s.inventory.db.processed, f, field);
    BookingSystem.EventsAccountForRows(now, Booked(actions), f, field);
  }

  /** A booking that is about this counter. */
  predicate OnCounter(s: BookingSystem.Bookings, b: nat, f: int, field: Flight.SeatField)
    requires b < |s.slots|
  {
    BookingSystem.Block(BookingSystem.DtoOf(s, b), f, field) > 0
  }

  /** Conservation, over every run in which sagas, completions and cancellations overlap as they may: once its events
      are processed a counter never falls short of its initial value minus the seats of the reserved and confirmed
      bookings, and it is that value exactly when, for every booking on the counter, as many moves have kept seats
      back as have given seats away; a booking that has been reserved has no move of the first kind, so none of the
      second. */
  lemma SeatConservation(flights: Flight.Flights, now: int, actions: seq<Action>, f: int, field: Flight.SeatField)
    requires f in flights && SettledFor(Run(flights, now, actions), f, field)
    ensures var s := Run(flights, now, actions); var steps := Booked(actions);
            && f in s.inventory.db.flights
            && var counter := s.inventory.db.flights[f].Get(field);
               var conserved := flights[f].Get(field) - BookingSystem.HeldSeats(s.bookings.slots, f, field);
               && counter >= conserved
               && (counter == conserved <==>
                     forall b: nat :: b < |s.bookings.slots| && OnCounter(s.bookings, b, f, field) ==>
                       var dto, ms := BookingSystem.DtoOf(s.bookings, b), BookingSystem.MovesOn(now, steps, b);
                       Saga.GiveCount(dto, ms) == Saga.KeepCount(dto, ms))
  {
    hide Run, BookingSystem.Run, BookingSystem.Drift, BookingSystem.MovesOn, Saga.BookingDrift, BookingSystem.Block,
        SettledFor, Saga.GiveCount, Saga.KeepCount, Saga.AfterMoves, Saga.Emitted, Saga.Net;
    SeatAccounting(flights, now, actions, f, field);
    BookingSide(flights, now, actions);
    BookingSystem.DriftByBooking(now, Booked(actions), f, field);
    var s := Run(flights, now, actions).bookings;
    forall b: nat | b < |s.slots|
      ensures var dto, ms := BookingSystem.DtoOf(s, b), BookingSystem.MovesOn(now, Booked(actions), b);
              Saga.BookingDrift(dto, ms) == Saga.GiveCount(dto, ms) - Saga.KeepCount(dto, ms)
    {
      Saga.DriftLaw(BookingSystem.DtoOf(s, b), BookingSystem.MovesOn(now, Booked(actions), b));
    }
  }

  /** Overselling is bounded by the drift: with the events of a counter processed, the seats held on it never exceed
      what the flight started with by more than the run has drifted. */
  lemma NoOverselling(flights: Flight.Flights, now: int, actions: seq<Action>, f: int, field: Flight.SeatField)
    requires f in flights && SettledFor(Run(flights, now, actions), f, field) && Flight.NonNegative(flights)
    ensures BookingSystem.HeldSeats(Run(flights, now, actions).bookings.slots, f, field) <=
              flights[f].Get(field) + BookingSystem.Drift(now, Booked(actions), f, field)
  {
    SeatAccounting(flights, now, actions, f, field);
    ExactlyOnce(flights, now, actions);
  }

  // ---------------------------------------------------------------- the outbox worker inside the pipeline

  function RunFrom(s: System, actions: seq<Action>): System {
    if actions == [] then s else Next(RunFrom(s, actions[..|actions| - 1]), actions[|actions| - 1])
  }

  lemma {:induction false} RunsOn(flights: Flight.Flights, now: int, actions: seq<Action>, more: seq<Action>)
    ensures Run(flights, now, actions + more) == RunFrom(Run(flights, now, actions), more)
  {
    hide Next;
    if more == [] {
      assert actions + more == actions;
    } else {
      RunsOn(flights, now, actions, more[..|more| - 1]);
      assert (actions + more)[..|actions + more| - 1] == actions + more[..|more| - 1];
    }
  }

  lemma {:induction false} FromThere(s: System, actions: seq<Action>, more: seq<Action>)
    ensures RunFrom(s, actions + more) == RunFrom(RunFrom(s, actions), more)
  {
    hide Next;
    if more == [] {
      assert actions + more == actions;
    } else {
      FromThere(s, actions, more[..|more| - 1]);
      assert (actions + more)[..|actions + more| - 1] == actions + more[..|more| - 1];
    }
  }

  /** The attempts of one tick. */
  function Attempts(ids: seq<nat>, reaches: set<nat>, succeeds: set<nat>): seq<Action> {
    seq(|ids|, i requires 0 <= i < |ids| => Publish(ids[i], ids[i] in reaches, ids[i] in succeeds))
  }

  /** A tick of the outbox worker is a run of publications: the rows of its batch, one after the other. */
  lemma TickIsARun(s: System, reaches: set<nat>, succeeds: set<nat>)
    ensures var s' := RunFrom(s, Attempts(Outbox.PendingIds(s.rows, Outbox.BATCH), reaches, succeeds));
            s'.rows == Outbox.Tick(s.rows, succeeds) && s'.bookings == s.bookings
  {
    hide Outbox.Attempt, Outbox.PendingIds, Outbox.InBatch, RunFrom, Next, Attempts;
    var ids := Outbox.PendingIds(s.rows, Outbox.BATCH);
    BatchIsPending(s.rows, ids);
    AttemptsInTurn(s, ids, reaches, succeeds, |ids|);
    AllAttempts(ids, reaches, succeeds);
    var s' := RunFrom(s, Attempts(ids, reaches, succeeds));
    forall j: nat | j < |s.rows| ensures s'.rows[j] == Outbox.Tick(s.rows, succeeds)[j] {
      assert j in ids <==> Outbox.InBatch(s.rows, j);
    }
  }

  lemma AllAttempts(ids: seq<nat>, reaches: set<nat>, succeeds: set<nat>)
    ensures Attempts(ids, reaches, succeeds)[..|ids|] == Attempts(ids, reaches, succeeds) && ids[..|ids|] == ids
  {}

  lemma BatchIsPending(rows: seq<Outbox.Row>, ids: seq<nat>)
    requires ids == Outbox.PendingIds(rows, Outbox.BATCH)
    ensures forall i :: 0 <= i < |ids| ==> ids[i] < |rows| && rows[ids[i]].status == Outbox.Pending
    ensures forall i, j :: 0 <= i < j < |ids| ==> ids[i] < ids[j]
    ensures forall j: nat :: j < |rows| ==> (j in ids <==> Outbox.InBatch(rows, j))
  {
    Outbox.PendingIdsAreTheBatch(rows);
    forall i | 0 <= i < |ids| ensures ids[i] < |rows| && rows[ids[i]].status == Outbox.Pending {
      assert ids[i] in ids;
    }
  }

  lemma {:induction false} AttemptsInTurn(s: System, ids: seq<nat>, reaches: set<nat>, succeeds: set<nat>, n: nat)
    requires n <= |ids|
    requires forall i :: 0 <= i < |ids| ==> ids[i] < |s.rows| && s.rows[ids[i]].status == Outbox.Pending
    requires forall i, j :: 0 <= i < j < |ids| ==> ids[i] < ids[j]
    ensures var s' := RunFrom(s, Attempts(ids, reaches, succeeds)[..n]);
            && s'.bookings == s.bookings && |s'.rows| == |s.rows|
            && forall j: nat :: j < |s.rows| ==>
                 s'.rows[j] == if j in ids[..n] then Outbox.Attempt(s.rows[j], j in succeeds) else s.rows[j]
  {
    hide Outbox.Attempt, Next;
    var all := Attempts(ids, reaches, succeeds);
    if n == 0 {
      assert all[..0] == [];
    } else {
      var before, id := RunFrom(s, all[..n - 1]), ids[n - 1];
      AttemptsInTurn(s, ids, reaches, succeeds, n - 1);
      assert all[..n][..n - 1] == all[..n - 1] && all[..n][n - 1] == Publish(id, id in reaches, id in succeeds);
      var after := Next(before, Publish(id, id in reaches, id in succeeds));
      assert RunFrom(s, all[..n]) == after;
      InLonger(ids, n, id);
      PublishesOne(before, id, id in reaches, id in succeeds);
      forall j: nat | j < |s.rows|
        ensures after.rows[j] == if j in ids[..n] then Outbox.Attempt(s.rows[j], j in succeeds) else s.rows[j]
      {
        InLonger(ids, n, j);
      }
    }
  }

  lemma PublishesOne(s: System, id: nat, reachesBroker: bool, succeeds: bool)
    requires id < |s.rows| && s.rows[id].status == Outbox.Pending
    ensures var s' := Next(s, Publish(id, reachesBroker, succeeds));
            s'.rows == s.rows[id := Outbox.Attempt(s.rows[id], succeeds)] && s'.bookings == s.bookings
  {
    hide Outbox.Attempt, Flight.Act;
  }

  lemma InLonger(ids: seq<nat>, n: nat, j: nat)
    requires 0 < n <= |ids| && forall i, k :: 0 <= i < k < |ids| ==> ids[i] < ids[k]
    ensures j in ids[..n] <==> j in ids[..n - 1] || j == ids[n - 1]
    ensures ids[n - 1] !in ids[..n - 1]
  {
    assert ids[..n] == ids[..n - 1] + [ids[n - 1]];
  }

  datatype TickPlan = TickPlan(reaches: set<nat>, succeeds: set<nat>)

  /** Ticks one after the other, with nothing else happening. */
  function Ticks(s: System, plans: seq<TickPlan>): seq<Action>
    decreases |plans|
  {
    if plans == [] then []
    else
      var tick := Attempts(Outbox.PendingIds(s.rows, Outbox.BATCH), plans[0].reaches, plans[0].succeeds);
      tick + Ticks(RunFrom(s, tick), plans[1..])
  }

  function Rounds(plans: seq<TickPlan>): seq<Outbox.Round> {
    seq(|plans|, i requires 0 <= i < |plans| => Outbox.Round(plans[i].succeeds, []))
  }

  lemma {:induction false} TicksAreRounds(s: System, plans: seq<TickPlan>)
    ensures var s' := RunFrom(s, Ticks(s, plans));
            s'.rows == Outbox.AfterRounds(s.rows, Rounds(plans)) && s'.bookings == s.bookings
    decreases |plans|
  {
    hide Next, Outbox.Tick, Outbox.PendingIds, Attempts;
    if plans != [] {
      var tick := Attempts(Outbox.PendingIds(s.rows, Outbox.BATCH), plans[0].reaches, plans[0].succeeds);
      TickIsARun(s, plans[0].reaches, plans[0].succeeds);
      var mid := RunFrom(s, tick);
      TicksAreRounds(mid, plans[1..]);
      FromThere(s, tick, Ticks(mid, plans[1..]));
      assert Rounds(plans)[1..] == Rounds(plans[1..]);
      assert mid.rows + [] == mid.rows;
    }
  }

  /** The outbox rows and the broker tell the same story. */
  ghost predicate RowsFit(s: System) {
    && |s.rows| == |s.bookings.log|
    && forall id: nat :: id < |s.rows| ==>
         && s.rows[id].status != Outbox.Processing
         && (s.rows[id].status == Outbox.Published && s.bookings.log[id].kind.ForInventory() ==>
             id in s.inventory.published)
  }

  lemma StepKeepsRowsFit(s: System, a: Action)
    requires RowsFit(s)
    ensures RowsFit(Next(s, a))
  {
    hide BookingSystem.Next, Flight.Transaction;
    if a.Book? {
      LogGrows(s.bookings, a.step);
    }
  }

  lemma {:induction false} RowsAlwaysFit(flights: Flight.Flights, now: int, actions: seq<Action>)
    ensures RowsFit(Run(flights, now, actions))
  {
    hide Next;
    if actions != [] {
      RowsAlwaysFit(flights, now, actions[..|actions| - 1]);
      StepKeepsRowsFit(Run(flights, now, actions[..|actions| - 1]), actions[|actions| - 1]);
    }
  }

  predicate NothingFailed(s: System) { forall id :: 0 <= id < |s.rows| ==> s.rows[id].status != Outbox.Failed }

  /** Every message the broker has accepted has been processed. */
  predicate AllProcessed(s: System) { forall id :: id in s.inventory.published ==> id in s.inventory.db.processed }

  /** From any state, once the worker has ticked P/100 + m times with P attempts left in all and at most m a row,
      nothing is pending: every event has failed its retries or is with the broker, so that the counters are settled
      as soon as no event has failed and the broker's messages have been processed. */
  lemma DrainedThenSettled(flights: Flight.Flights, now: int, actions: seq<Action>, plans: seq<TickPlan>, m: nat,
                           f: int,
                           field: Flight.SeatField)
    requires var rows := Run(flights, now, actions).rows;
             && (forall i :: 0 <= i < |rows| ==> Outbox.Left(rows[i]) <= m)
             && Outbox.BATCH * |plans| >= Outbox.Potential(rows) + Outbox.BATCH * m
    ensures var s := Run(flights, now, actions + Ticks(Run(flights, now, actions), plans));
            && RowsFit(s)
            && (forall id :: 0 <= id < |s.rows| ==> s.rows[id].status in {Outbox.Published, Outbox.Failed})
            && (NothingFailed(s) && AllProcessed(s) ==> SettledFor(s, f, field))
  {
    hide Run, Next, Ticks, Outbox.AfterRounds, Outbox.Potential;
    var before := Run(flights, now, actions);
    RunsOn(flights, now, actions, Ticks(before, plans));
    TicksAreRounds(before, plans);
    Outbox.Drains(before.rows, Rounds(plans), m);
    var s := Run(flights, now, actions + Ticks(before, plans));
    RowsAlwaysFit(flights, now, actions + Ticks(before, plans));
    forall id: nat | id < |s.rows| ensures s.rows[id].status != Outbox.Pending {
      Outbox.NonePending(s.rows, id);
    }
  }

  /** Every publication of a row that is pending now succeeds, in every tick. */
  predicate AllPublish(s: System, plans: seq<TickPlan>) {
    forall t, id: nat :: 0 <= t < |plans| && id < |s.rows| && s.rows[id].status == Outbox.Pending ==>
                           id in plans[t].succeeds
  }

  /** From any reachable state in which nothing has failed, P/100 + m ticks whose publications succeed publish every
      event, so that the counters are settled as soon as the broker's messages have been processed. */
  lemma PublishedThenSettled(flights: Flight.Flights, now: int, actions: seq<Action>, plans: seq<TickPlan>, m: nat,
                             f: int,
                             field: Flight.SeatField)
    requires var s := Run(flights, now, actions);
             && NothingFailed(s) && AllPublish(s, plans)
             && (forall i :: 0 <= i < |s.rows| ==> Outbox.Left(s.rows[i]) <= m)
             && 100 * |plans| >= Outbox.Potential(s.rows) + 100 * m
    ensures var s := Run(flights, now, actions + Ticks(Run(flights, now, actions), plans));
            && (forall id :: 0 <= id < |s.rows| ==> s.rows[id].status == Outbox.Published)
            && |s.rows| == |s.bookings.log|
            && (forall id: nat :: id < |s.bookings.log| && s.bookings.log[id].kind.ForInventory() ==>
                                    id in s.inventory.published)
            && (AllProcessed(s) ==> SettledFor(s, f, field))
  {
    hide Run, Next, Ticks, Outbox.AfterRounds, Outbox.Potential;
    var before := Run(flights, now, actions);
    RowsAlwaysFit(flights, now, actions);
    DrainedThenSettled(flights, now, actions, plans, m, f, field);
    RunsOn(flights, now, actions, Ticks(before, plans));
    TicksAreRounds(before, plans);
    Outbox.SuccessPublishesAll(before.rows, Rounds(plans), m);
  }

  // ---------------------------------------------------------------- messages reach the inventory

  /** In every run no accepted message is lost: until its event is processed it is in a queue or with a handler. */
  lemma {:induction false} NoMessageIsLost(flights: Flight.Flights, now: int, actions: seq<Action>)
    ensures var s := Run(flights, now, actions); Flight.NothingLost(s.bookings.log, s.inventory)
  {
    hide Next, Flight.NothingLost;
    if actions == [] {
      NothingToLose(flights, now);
    } else {
      NoMessageIsLost(flights, now, actions[..|actions| - 1]);
      StepLosesNothing(Run(flights, now, actions[..|actions| - 1]), actions[|actions| - 1]);
    }
  }

  lemma NothingToLose(flights: Flight.Flights, now: int)
    ensures Flight.NothingLost([], Begin(flights, now).inventory)
  {}

  lemma StepLosesNothing(s: System, a: Action)
    requires Flight.NothingLost(s.bookings.log, s.inventory)
    ensures Flight.NothingLost(Next(s, a).bookings.log, Next(s, a).inventory)
  {
    hide BookingSystem.Next, Flight.Act;
    match a
    case Book(step) => LogGrows(s.bookings, step);
    case Publish(id, _, _) => Flight.ActionsLoseNothing(s.bookings.log, s.inventory, Flight.Publish(id));
    case Deliver(delivery) => Flight.ActionsLoseNothing(s.bookings.log, s.inventory, delivery);
  }

  /** One undisturbed delivery of a message. */
  function Delivery(id: nat): seq<Action> {
    [Deliver(Flight.Redeliver(id)), Deliver(Flight.Check(id)), Deliver(Flight.Commit(id, false))]
  }

  /** After any run, one undisturbed delivery of an accepted message processes its event exactly when it is appliable: a
      reserve exactly when its counter covers it. */
  lemma DeliveredExactlyWhenAppliable(flights: Flight.Flights, now: int, actions: seq<Action>, id: nat)
    requires var s := Run(flights, now, actions); id in s.inventory.published && id !in s.inventory.db.processed
    ensures var s := Run(flights, now, actions); var s' := Run(flights, now, actions + Delivery(id));
            && id < |s.bookings.log| && s'.bookings == s.bookings && s'.rows == s.rows
            && (id in s'.inventory.db.processed <==> Flight.Appliable(s.inventory.db.flights, s.bookings.log[id]))
  {
    hide Run, Flight.Act, Flight.Appliable;
    var s := Run(flights, now, actions);
    NoMessageIsLost(flights, now, actions);
    RunsOn(flights, now, actions, Delivery(id));
    ThreeDeliveries(s, Flight.Redeliver(id), Flight.Check(id), Flight.Commit(id, false));
    Flight.DeliveryIsApplied(s.bookings.log, s.inventory, id);
  }

  lemma ThreeDeliveries(s: System, a: Flight.Action, b: Flight.Action, c: Flight.Action)
    requires !a.Publish? && !b.Publish? && !c.Publish?
    ensures var s' := RunFrom(s, [Deliver(a), Deliver(b), Deliver(c)]); var log := s.bookings.log;
            && s'.bookings == s.bookings && s'.rows == s.rows
            && s'.inventory == Flight.Act(log, Flight.Act(log, Flight.Act(log, s.inventory, a), b), c)
  {
    hide Flight.Act, BookingSystem.Next;
    var none: seq<Action>, one, two := [], [Deliver(a)], [Deliver(a), Deliver(b)];
    var three := [Deliver(a), Deliver(b), Deliver(c)];
    assert three[..2] == two && two[..1] == one && one[..0] == none;
    assert RunFrom(s, none) == s;
    assert RunFrom(s, one) == Next(s, Deliver(a));
    assert RunFrom(s, two) == Next(RunFrom(s, one), Deliver(b));
  }
}
