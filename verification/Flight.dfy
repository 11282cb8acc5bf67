/**
 The flight inventory: seat counters per flight and class, the plain seat service, and the event handler
 that consumes booking events at least once and applies each at most once.
 */
module Flight {
  import opened Wrappers

  datatype SeatField = Economy | Business | FirstClass | PremiumEconomy

  function GetSeatField(seatClass: string): Option<SeatField> {
    if seatClass == "ECONOMY" then Some(Economy)
    else if seatClass == "BUSINESS" then Some(Business)
    else if seatClass == "FIRST_CLASS" then Some(FirstClass)
    else if seatClass == "PREMIUM_ECONOMY" then Some(PremiumEconomy)
    else None
  }

  datatype Seats = Seats(economy: int, business: int, firstClass: int, premiumEconomy: int) {
    function Get(f: SeatField): int {
      match f
      case Economy => economy
      case Business => business
      case FirstClass => firstClass
      case PremiumEconomy => premiumEconomy
    }

    function Add(f: SeatField, n: int): Seats {
      match f
      case Economy => this.(economy := economy + n)
      case Business => this.(business := business + n)
      case FirstClass => this.(firstClass := firstClass + n)
      case PremiumEconomy => this.(premiumEconomy := premiumEconomy + n)
    }
  }

  type Flights = map<int, Seats>

  /** The three events the flight service is bound to, and the two notifications it is not. */
  datatype Kind = Reserve | Confirm | Release | CreatedNotice | ConfirmedNotice {
    predicate ForInventory() { Reserve? || Confirm? || Release? }
  }

  datatype Event = Event(kind: Kind, booking: nat, flight: int, seatClass: string, seatCount: nat)

  datatype HandlerError = FlightNotFound | NotEnoughSeats | InvalidSeatClass | DuplicateEvent | StoreFailed

  // ---------------------------------------------------------------- the plain service

  function ReserveSeats(flights: Flights, e: Event): Result<Flights, HandlerError> {
    if e.flight !in flights then Err(FlightNotFound)
    else
      match GetSeatField(e.seatClass)
      case None => Err(InvalidSeatClass)
      case Some(field) =>
        if flights[e.flight].Get(field) < e.seatCount then Err(NotEnoughSeats)
        else Ok(flights[e.flight := flights[e.flight].Add(field, 0 - e.seatCount)])
  }

  /** An increment on a flight that does not exist touches no row. */
  function ReleaseSeats(flights: Flights, e: Event): Result<Flights, HandlerError> {
    match GetSeatField(e.seatClass)
    case None => Err(InvalidSeatClass)
    case Some(field) =>
      Ok(if e.flight in flights then flights[e.flight := flights[e.flight].Add(field, e.seatCount)] else flights)
  }

  function Serve(flights: Flights, e: Event): Result<Flights, HandlerError> {
    match e.kind
    case Reserve => ReserveSeats(flights, e)
    case Release => ReleaseSeats(flights, e)
    case _ => Ok(flights)
  }

  /** The seats a reservation needs are there. */
  predicate Covers(flights: Flights, flight: int, field: Option<SeatField>, seatCount: nat) {
    flight in flights && field.Some? && flights[flight].Get(field.value) >= seatCount
  }

  /** A reservation is accepted exactly when its flight and class are known and the counter covers it, down to the last
      seat; a release exactly when its class is known; each refusal has its reason. */
  lemma AcceptedExactlyWhen(flights: Flights, e: Event)
    ensures ReserveSeats(flights, e).Ok? <==> Covers(flights, e.flight, GetSeatField(e.seatClass), e.seatCount)
    ensures ReleaseSeats(flights, e).Ok? <==> GetSeatField(e.seatClass).Some?
    ensures ReserveSeats(flights, e).Err? ==>
              ReserveSeats(flights, e).error ==
                if e.flight !in flights then FlightNotFound
                else if GetSeatField(e.seatClass).None? then InvalidSeatClass
                else NotEnoughSeats
  {}

  /** Seats of one class, told by the name of the class; 0 for an unknown one. */
  function SeatsNamed(seats: Seats, name: string): int {
    if name == "ECONOMY" then seats.economy
    else if name == "BUSINESS" then seats.business
    else if name == "FIRST_CLASS" then seats.firstClass
    else if name == "PREMIUM_ECONOMY" then seats.premiumEconomy
    else 0
  }

  const CLASS_NAMES := {"ECONOMY", "BUSINESS", "FIRST_CLASS", "PREMIUM_ECONOMY"}

  /** An accepted reservation takes its seats from the counter its class names and from no other, and a release returns
      them there; the classes are these four. */
  lemma ClassNamesItsCounter(flights: Flights, e: Event, name: string)
    requires e.flight in flights && name in CLASS_NAMES
    ensures GetSeatField(e.seatClass).Some? <==> e.seatClass in CLASS_NAMES
    ensures var r := ReserveSeats(flights, e);
            r.Ok? ==>
              && e.flight in r.value
              && SeatsNamed(r.value[e.flight], name) ==
                   SeatsNamed(flights[e.flight], name) - if e.seatClass == name then e.seatCount else 0
    ensures var r := ReleaseSeats(flights, e);
            r.Ok? ==>
              && e.flight in r.value
              && SeatsNamed(r.value[e.flight], name) ==
                   SeatsNamed(flights[e.flight], name) + if e.seatClass == name then e.seatCount else 0
  {}

  /** The plain service on a sequence of events, stopping at the first it refuses. */
  function ServeAll(flights: Flights, es: seq<Event>): Result<Flights, HandlerError> {
    if es == [] then Ok(flights)
    else
      match ServeAll(flights, es[..|es| - 1])
      case Err(x) => Err(x)
      case Ok(before) => Serve(before, es[|es| - 1])
  }

  class FlightService {
    var flights: Flights

    constructor (flights: Flights)
      ensures this.flights == flights
    {
      this.flights := flights;
    }

    method Reserve(e: Event) returns (r: Result<(), HandlerError>)
      modifies this
      ensures match ReserveSeats(old(flights), e)
              case Ok(after) => r == Ok(()) && flights == after
              case Err(x) => r == Err(x) && flights == old(flights)
      ensures r.Ok? <==> Covers(old(flights), e.flight, GetSeatField(e.seatClass), e.seatCount)
    {
      if e.flight !in flights {
        return Err(FlightNotFound);
      }
      var seatField := GetSeatField(e.seatClass);
      if seatField.None? {
        return Err(InvalidSeatClass);
      }
      var currentAvailable := flights[e.flight].Get(seatField.value);
      if currentAvailable < e.seatCount {
        return Err(NotEnoughSeats);
      }
      flights := flights[e.flight := flights[e.flight].Add(seatField.value, 0 - e.seatCount)];
      return Ok(());
    }

    method Release(e: Event) returns (r: Result<(), HandlerError>)
      modifies this
      ensures match ReleaseSeats(old(flights), e)
              case Ok(after) => r == Ok(()) && flights == after
              case Err(x) => r == Err(x) && flights == old(flights)
    {
      var seatField := GetSeatField(e.seatClass);
      if seatField.None? {
        return Err(InvalidSeatClass);
      }
      if e.flight in flights {
        flights := flights[e.flight := flights[e.flight].Add(seatField.value, e.seatCount)];
      }
      return Ok(());
    }
  }

  // ---------------------------------------------------------------- the deduplicating handler

  datatype Db = Db(flights: Flights, processed: set<nat>)

  /** The transaction of a handler: the seat change, then the processed row, whose event id is unique. */
  function Transaction(db: Db, id: nat, e: Event): Result<Db, HandlerError> {
    match Serve(db.flights, e)
    case Err(x) => Err(x)
    case Ok(flights) => if id in db.processed then Err(DuplicateEvent) else Ok(Db(flights, db.processed + {id}))
  }

  class FlightEventHandler {
    var flights: Flights
    var processedEvents: set<nat>

    function View(): Db
      reads this
    {
      Db(flights, processedEvents)
    }

    constructor (flights: Flights)
      ensures View() == Db(flights, {})
    {
      this.flights := flights;
      processedEvents := {};
    }

    /** Inserts the processed row or violates its unique column, which rolls the transaction back to `before`. */
    method SaveProcessed(id: nat, before: Flights) returns (r: Result<(), HandlerError>)
      modifies this
      ensures if id in old(processedEvents) then r == Err(DuplicateEvent) && View() == Db(before, old(processedEvents))
              else r == Ok(()) && View() == Db(old(flights), old(processedEvents) + {id})
    {
      if id in processedEvents {
        flights := before;
        return Err(DuplicateEvent);
      }
      processedEvents := processedEvents + {id};
      return Ok(());
    }

    method ReserveTransaction(id: nat, e: Event) returns (r: Result<(), HandlerError>)
      requires e.kind == Reserve
      modifies this
      ensures match Transaction(old(View()), id, e)
              case Ok(after) => r == Ok(()) && View() == after
              case Err(x) => r == Err(x) && View() == old(View())
      ensures r.Ok? <==>
                Covers(old(flights), e.flight, GetSeatField(e.seatClass), e.seatCount) && id !in old(processedEvents)
    {
      if e.flight !in flights {
        return Err(FlightNotFound);
      }
      var seatField := GetSeatField(e.seatClass);
      if seatField.None? {
        return Err(InvalidSeatClass);
      }
      var currentAvailable := flights[e.flight].Get(seatField.value);
      if currentAvailable < e.seatCount {
        return Err(NotEnoughSeats);
      }
      var before := flights;
      flights := flights[e.flight := flights[e.flight].Add(seatField.value, 0 - e.seatCount)];
      r := SaveProcessed(id, before);
    }

    method ReleaseTransaction(id: nat, e: Event) returns (r: Result<(), HandlerError>)
      requires e.kind == Release
      modifies this
      ensures match Transaction(old(View()), id, e)
              case Ok(after) => r == Ok(()) && View() == after
              case Err(x) => r == Err(x) && View() == old(View())
    {
      var seatField := GetSeatField(e.seatClass);
      if seatField.None? {
        return Err(InvalidSeatClass);
      }
      var before := flights;
      if e.flight in flights {
        flights := flights[e.flight := flights[e.flight].Add(seatField.value, e.seatCount)];
      }
      r := SaveProcessed(id, before);
    }

    /** A delivery that no other handler interferes with: processed before, it changes nothing; else its transaction
        runs. */
    method Handle(id: nat, e: Event) returns (r: Result<(), HandlerError>)
      requires e.kind.ForInventory()
      modifies this
      ensures id in old(processedEvents) ==> r == Ok(()) && View() == old(View())
      ensures id !in old(processedEvents) ==>
                match Transaction(old(View()), id, e)
                case Ok(after) => r == Ok(()) && View() == after
                case Err(x) => r == Err(x) && View() == old(View())
    {
      var alreadyProcessed := id in processedEvents;
      if alreadyProcessed {
        return Ok(());
      }
      if e.kind == Reserve {
        r := ReserveTransaction(id, e);
      } else if e.kind == Release {
        r := ReleaseTransaction(id, e);
      } else {
        r := SaveProcessed(id, flights);
      }
    }
  }

  // ---------------------------------------------------------------- concurrent deliveries

  /** Published ids, messages waiting in the queues, and messages whose handler has passed its processed check. */
  datatype Inventory = Inventory(db: Db, published: set<nat>, queue: multiset<nat>, inflight: multiset<nat>)

  datatype Action =
    | Publish(id: nat)                  // the broker accepts the message, for the first time or again
    | Redeliver(id: nat)                // the broker hands out another copy of a message it once accepted
    | Check(id: nat)                    // a handler takes a message and looks its id up
    | Commit(id: nat, aborts: bool)     // a handler that found nothing runs its transaction; failure requeues

  function Act(log: seq<Event>, inv: Inventory, a: Action): Inventory {
    match a
    case Publish(id) =>
      if id < |log| && log[id].kind.ForInventory() then
        inv.(published := inv.published + {id}, queue := inv.queue + multiset{id})
      else inv
    case Redeliver(id) => if id in inv.published then inv.(queue := inv.queue + multiset{id}) else inv
    case Check(id) =>
      if id !in inv.queue then inv
      else if id in inv.db.processed then inv.(queue := inv.queue - multiset{id})
      else inv.(queue := inv.queue - multiset{id}, inflight := inv.inflight + multiset{id})
    case Commit(id, aborts) =>
      if id !in inv.inflight || id >= |log| then inv
      else
        var rest := inv.inflight - multiset{id};
        match Transaction(inv.db, id, log[id])
        case Ok(after) =>
          if aborts then inv.(inflight := rest, queue := inv.queue + multiset{id})
          else inv.(db := after, inflight := rest)
        case Err(_) => inv.(inflight := rest, queue := inv.queue + multiset{id})
  }

  /** Everything an event needs to be applied. */
  predicate Appliable(flights: Flights, e: Event) {
    match e.kind
    case Reserve => Covers(flights, e.flight, GetSeatField(e.seatClass), e.seatCount)
    case Release => GetSeatField(e.seatClass).Some?
    case _ => true
  }

  /** An accepted message stays with the broker or a handler until its event is processed. */
  ghost predicate NothingLost(log: seq<Event>, inv: Inventory) {
    forall id :: id in inv.published ==>
                   id < |log| && (id in inv.db.processed || id in inv.queue || id in inv.inflight)
  }

  lemma TransactionMarks(db: Db, id: nat, e: Event)
    ensures var r := Transaction(db, id, e);
            && (r.Ok? <==> Appliable(db.flights, e) && id !in db.processed)
            && (r.Ok? ==> r.value.processed == db.processed + {id})
  {
    hide ReserveSeats, ReleaseSeats;
    AcceptedExactlyWhen(db.flights, e);
  }

  lemma ActionsLoseNothing(log: seq<Event>, inv: Inventory, a: Action)
    requires NothingLost(log, inv)
    ensures NothingLost(log, Act(log, inv, a))
  {
    hide Transaction, Appliable;
    if a.Commit? && a.id < |log| {
      TransactionMarks(inv.db, a.id, log[a.id]);
    }
  }

  /** Delivering an accepted message once more, to a handler that is not interfered with, processes its event exactly
      when the flight service has what it needs, and else leaves the database as it was. */
  lemma DeliveryIsApplied(log: seq<Event>, inv: Inventory, id: nat)
    requires id in inv.published && id < |log| && id !in inv.db.processed
    ensures var after := Act(log, Act(log, Act(log, inv, Redeliver(id)), Check(id)), Commit(id, false));
            && (id in after.db.processed <==> Appliable(inv.db.flights, log[id]))
            && (id !in after.db.processed ==> after.db == inv.db)
            && after.db.processed == inv.db.processed + if Appliable(inv.db.flights, log[id]) then {id} else {}
  {
    hide Transaction, Appliable;
    TransactionMarks(inv.db, id, log[id]);
  }

  /** The action is a transaction that commits. */
  predicate Takes(log: seq<Event>, inv: Inventory, a: Action) {
    a.Commit? && a.id in inv.inflight && a.id < |log| && !a.aborts && Transaction(inv.db, a.id, log[a.id]).Ok?
  }

  function ActAll(log: seq<Event>, inv: Inventory, actions: seq<Action>): Inventory {
    if actions == [] then inv else Act(log, ActAll(log, inv, actions[..|actions| - 1]), actions[|actions| - 1])
  }

  /** The ids whose transactions committed, in that order. */
  function TakenBy(log: seq<Event>, inv: Inventory, actions: seq<Action>): seq<nat> {
    if actions == [] then []
    else
      var before, a := actions[..|actions| - 1], actions[|actions| - 1];
      TakenBy(log, inv, before) + if Takes(log, ActAll(log, inv, before), a) then [a.id] else []
  }

  function EventsOf(log: seq<Event>, ids: seq<nat>): seq<Event>
    requires forall i :: 0 <= i < |ids| ==> ids[i] < |log|
  {
    seq(|ids|, i requires 0 <= i < |ids| => log[ids[i]])
  }

  predicate Distinct(ids: seq<nat>) {
    forall i, j :: 0 <= i < j < |ids| ==> ids[i] != ids[j]
  }

  /** `after` is what the plain service makes of the events with these ids, each new to `db` and each once. */
  ghost predicate AppliedOnce(log: seq<Event>, db: Db, ids: seq<nat>, after: Db) {
    && (forall i :: 0 <= i < |ids| ==> ids[i] < |log| && ids[i] !in db.processed)
    && Distinct(ids)
    && (forall id :: id in after.processed <==> id in db.processed || id in ids)
    && ServeAll(db.flights, EventsOf(log, ids)) == Ok(after.flights)
  }

  lemma AppliedOnceMore(log: seq<Event>, db: Db, ids: seq<nat>, mid: Db, id: nat)
    requires AppliedOnce(log, db, ids, mid) && id < |log| && Transaction(mid, id, log[id]).Ok?
    ensures AppliedOnce(log, db, ids + [id], Transaction(mid, id, log[id]).value)
  {
    var longer := ids + [id];
    assert forall i :: 0 <= i < |ids| ==> ids[i] in mid.processed;
    var es := EventsOf(log, longer);
    assert es[..|es| - 1] == EventsOf(log, ids) && es[|es| - 1] == log[id];
  }

  /** However deliveries are duplicated, delayed, reordered, retried or run at the same time, the counters are those
      the plain service leaves when it is called once for each event, in the order in which they were first applied. */
  lemma {:induction false} DeduplicationRefinesPlainService(log: seq<Event>, inv: Inventory, actions: seq<Action>)
    ensures AppliedOnce(log, inv.db, TakenBy(log, inv, actions), ActAll(log, inv, actions).db)
  {
    if actions == [] {
      assert EventsOf(log, []) == [];
    } else {
      var before, a := actions[..|actions| - 1], actions[|actions| - 1];
      DeduplicationRefinesPlainService(log, inv, before);
      if Takes(log, ActAll(log, inv, before), a) {
        AppliedOnceMore(log, inv.db, TakenBy(log, inv, before), ActAll(log, inv, before).db, a.id);
      } else {
        assert TakenBy(log, inv, actions) == TakenBy(log, inv, before);
      }
    }
  }

  // ---------------------------------------------------------------- the counters against the log

  /** What an event takes from the counter of one flight and class. */
  function Signed(e: Event, flight: int, field: SeatField): int {
    if e.flight != flight || GetSeatField(e.seatClass) != Some(field) then 0
    else if e.kind == Reserve then e.seatCount
    else if e.kind == Release then 0 - e.seatCount
    else 0
  }

  /** Processed reserves minus processed releases. */
  function NetProcessed(log: seq<Event>, processed: set<nat>, flight: int, field: SeatField): int {
    if log == [] then 0
    else
      var n := |log| - 1;
      NetProcessed(log[..n], processed, flight, field) + if n in processed then Signed(log[n], flight, field) else 0
  }

  /** The exactly-once law: each counter has moved by each processed event once and by nothing else. */
  ghost predicate Balanced(initial: Flights, log: seq<Event>, inv: Inventory) {
    && inv.db.flights.Keys == initial.Keys
    && (forall id :: id in inv.db.processed ==> id < |log|)
    && (forall f, field :: f in initial ==>
          inv.db.flights[f].Get(field) == initial[f].Get(field) - NetProcessed(log, inv.db.processed, f, field))
  }

  predicate NonNegative(flights: Flights) {
    forall f, field :: f in flights ==> flights[f].Get(field) >= 0
  }

  lemma {:induction false} NetOfOneMore(log: seq<Event>, processed: set<nat>, id: nat, f: int, field: SeatField)
    requires id !in processed
    ensures NetProcessed(log, processed + {id}, f, field) ==
            NetProcessed(log, processed, f, field) + if id < |log| then Signed(log[id], f, field) else 0
  {
    if log != [] {
      NetOfOneMore(log[..|log| - 1], processed, id, f, field);
    }
  }

  lemma {:induction false} NetOfLongerLog(log: seq<Event>, more: seq<Event>, processed: set<nat>, f: int,
                                          field: SeatField)
    requires forall id :: id in processed ==> id < |log|
    ensures NetProcessed(log + more, processed, f, field) == NetProcessed(log, processed, f, field)
  {
    if more == [] {
      assert log + more == log;
    } else {
      NetOfLongerLog(log, more[..|more| - 1], processed, f, field);
      assert (log + more)[..|log + more| - 1] == log + more[..|more| - 1];
    }
  }

  lemma BalancedLongerLog(initial: Flights, log: seq<Event>, more: seq<Event>, inv: Inventory)
    requires Balanced(initial, log, inv)
    ensures Balanced(initial, log + more, inv)
  {
    forall f, field | f in initial
      ensures inv.db.flights[f].Get(field) ==
              initial[f].Get(field) - NetProcessed(log + more, inv.db.processed, f, field)
    {
      NetOfLongerLog(log, more, inv.db.processed, f, field);
    }
  }

  /** One event through the plain service moves each counter by what the event takes, and never below zero. */
  lemma ServeMoves(flights: Flights, e: Event)
    requires Serve(flights, e).Ok?
    ensures var after := Serve(flights, e).value;
            && after.Keys == flights.Keys
            && (forall f, field :: f in flights ==> after[f].Get(field) == flights[f].Get(field) - Signed(e, f, field))
            && (NonNegative(flights) ==> NonNegative(after))
  {
  }

  lemma BalancedStep(initial: Flights, log: seq<Event>, inv: Inventory, a: Action)
    requires Balanced(initial, log, inv)
    ensures Balanced(initial, log, Act(log, inv, a))
    ensures NonNegative(inv.db.flights) ==> NonNegative(Act(log, inv, a).db.flights)
  {
    if Takes(log, inv, a) {
      var after := Act(log, inv, a);
      ServeMoves(inv.db.flights, log[a.id]);
      forall f, field | f in initial
        ensures after.db.flights[f].Get(field) ==
                initial[f].Get(field) - NetProcessed(log, after.db.processed, f, field)
      {
        NetOfOneMore(log, inv.db.processed, a.id, f, field);
      }
    } else {
      assert Act(log, inv, a).db == inv.db;
    }
  }
}
