/**
 Many bookings at once: sagas, completions and cancellations, of one booking or of several, interleaving between
 their reads, transactions and lock calls; the seat locks they share, and the outbox they write to.
 */
module BookingSystem {
  import opened Wrappers
  import opened Saga
  import Flight
  import SeatLock

  /** A booking with the history of its seat locks: when they were granted, and whether they have been given back
      since. */
  datatype Slot = Slot(local: Local, lockedAt: Option<int>, released: bool)

  /** Bookings are numbered as they start, events by their place in the log of the outbox. */
  datatype Bookings = Bookings(slots: seq<Slot>, log: seq<Flight.Event>, locks: SeatLock.Store, now: int)

  datatype Step =
    | Start(dto: Dto)
    | Advance(b: nat, fault: Fault)
    | ReadToComplete(b: nat)
    | ReadToCancel(b: nat)
    | Proceed(b: nat, i: nat, fails: bool)
    | Crash(b: nat)
    | Wait(ms: nat)

  predicate Names(s: Bookings, step: Step) { !step.Start? && !step.Wait? && step.b < |s.slots| }

  function DtoOf(s: Bookings, b: nat): Dto
    requires b < |s.slots|
  {
    s.slots[b].local.stored.dto
  }

  /** The call to the seat locks that step 2 makes, unless it fails before it is made. */
  predicate AsksLocks(s: Bookings, step: Step)
    requires Names(s, step)
  {
    step.Advance? && s.slots[step.b].local.phase == AtStep2 && step.fault == NoFault
  }

  function LockCall(s: Bookings, b: nat): SeatLock.LockOutcome
    requires b < |s.slots|
  {
    SeatLock.Lock(s.locks, DtoOf(s, b).flight, SeatNumbers(DtoOf(s, b)), b, s.now)
  }

  predicate Granted(s: Bookings, step: Step)
    requires Names(s, step)
  {
    AsksLocks(s, step) && LockCall(s, step.b).result.Locked?
  }

  function MoveOf(s: Bookings, step: Step): Move
    requires Names(s, step)
  {
    match step
    case Advance(b, fault) => Advances(Granted(s, step), fault)
    case ReadToComplete(b) => ReadsToComplete
    case ReadToCancel(b) => ReadsToCancel
    case Proceed(b, i, fails) => Proceeds(i, fails)
    case Crash(b) => Crashes
  }

  function OutcomeOf(s: Bookings, step: Step): LocalOutcome
    requires Names(s, step)
  {
    Make(s.slots[step.b].local, MoveOf(s, step))
  }

  function EventOf(b: nat, dto: Dto, k: Flight.Kind): Flight.Event {
    Flight.Event(k, b, dto.flight, EventClass(dto), SeatCount(dto))
  }

  /** The emitted events as outbox rows of a booking. */
  function Tagged(b: nat, dto: Dto, ks: seq<Flight.Kind>): seq<Flight.Event> {
    seq(|ks|, i requires 0 <= i < |ks| => EventOf(b, dto, ks[i]))
  }

  function NextLocks(s: Bookings, step: Step): SeatLock.Store
    requires Names(s, step)
  {
    if AsksLocks(s, step) then LockCall(s, step.b).store
    else if OutcomeOf(s, step).unlocks then SeatLock.Release(s.locks, DtoOf(s, step.b).flight, step.b, s.now)
    else s.locks
  }

  function NextSlot(s: Bookings, step: Step): Slot
    requires Names(s, step)
  {
    var old_, o := s.slots[step.b], OutcomeOf(s, step);
    if Granted(s, step) && SeatNumbers(DtoOf(s, step.b)) != [] then Slot(o.after, Some(s.now), old_.released)
    else if o.unlocks then Slot(o.after, None, true)
    else Slot(o.after, old_.lockedAt, old_.released)
  }

  function Next(s: Bookings, step: Step): Bookings {
    match step
    case Start(dto) => s.(slots := s.slots + [Slot(NewLocal(dto), None, false)])
    case Wait(ms) => s.(now := s.now + ms)
    case _ =>
      if !Names(s, step) then s
      else
        Bookings(s.slots[step.b := NextSlot(s, step)],
                 s.log + Tagged(step.b, DtoOf(s, step.b), OutcomeOf(s, step).emits),
                 NextLocks(s, step), s.now)
  }

  function Begin(now: int): Bookings { Bookings([], [], SeatLock.EMPTY, now) }

  function Run(now: int, steps: seq<Step>): Bookings {
    if steps == [] then Begin(now) else Next(Run(now, steps[..|steps| - 1]), steps[|steps| - 1])
  }

  // ---------------------------------------------------------------- one booking inside a run

  /** What a run does to booking `b`. */
  function MovesOn(now: int, steps: seq<Step>, b: nat): seq<Move> {
    if steps == [] then []
    else
      var before, step := steps[..|steps| - 1], steps[|steps| - 1];
      MovesOn(now, before, b)
      + if Names(Run(now, before), step) && step.b == b then [MoveOf(Run(now, before), step)] else []
  }

  /** The inventory events of booking `b` in the log. */
  function EventsOn(log: seq<Flight.Event>, b: nat): seq<Flight.Kind> {
    if log == [] then []
    else
      var e := log[|log| - 1];
      EventsOn(log[..|log| - 1], b) + if e.booking == b && e.kind.ForInventory() then [e.kind] else []
  }

  lemma EventsOnOne(log: seq<Flight.Event>, e: Flight.Event, b: nat)
    ensures EventsOn(log + [e], b) ==
            EventsOn(log, b) + if e.booking == b && e.kind.ForInventory() then [e.kind] else []
  {
    assert (log + [e])[..|log|] == log;
  }

  lemma TaggedOne(c: nat, dto: Dto, ks: seq<Flight.Kind>)
    requires ks != []
    ensures var n := |ks| - 1; Tagged(c, dto, ks) == Tagged(c, dto, ks[..n]) + [EventOf(c, dto, ks[n])]
    ensures EventOf(c, dto, ks[|ks| - 1]).booking == c && EventOf(c, dto, ks[|ks| - 1]).kind == ks[|ks| - 1]
  {
    hide EventClass, SeatCount;
  }

  lemma {:induction false} EventsOnTagged(log: seq<Flight.Event>, c: nat, dto: Dto, ks: seq<Flight.Kind>, b: nat)
    ensures EventsOn(log + Tagged(c, dto, ks), b) == EventsOn(log, b) + if c == b then Inventory(ks) else []
  {
    hide Tagged, EventOf, EventsOn;
    if ks == [] {
      assert Tagged(c, dto, ks) == [] by { TaggedNone(c, dto); }
      assert log + [] == log;
    } else {
      var n := |ks| - 1;
      EventsOnTagged(log, c, dto, ks[..n], b);
      TaggedOne(c, dto, ks);
      EventsOnOne(log + Tagged(c, dto, ks[..n]), EventOf(c, dto, ks[n]), b);
      assert log + Tagged(c, dto, ks) == (log + Tagged(c, dto, ks[..n])) + [EventOf(c, dto, ks[n])];
    }
  }

  lemma TaggedNone(c: nat, dto: Dto)
    ensures Tagged(c, dto, []) == []
  {}

  /** No interleaving shows in a single booking: inside any run it behaves as if it ran alone on the moves made on it,
      and its events in the shared log are those it emits alone. */
  lemma {:induction false} Projection(now: int, steps: seq<Step>, b: nat)
    ensures var s := Run(now, steps);
            if b < |s.slots| then
              && s.slots[b].local == AfterMoves(DtoOf(s, b), MovesOn(now, steps, b))
              && EventsOn(s.log, b) == Emitted(DtoOf(s, b), MovesOn(now, steps, b))
            else
              MovesOn(now, steps, b) == [] && EventsOn(s.log, b) == []
  {
    hide Make, Inventory, NextLocks, AfterMoves, Emitted, MoveOf, Tagged;
    if steps != [] {
      var before, step := steps[..|steps| - 1], steps[|steps| - 1];
      Projection(now, before, b);
      var s := Run(now, before);
      if Names(s, step) {
        var ms, m, dto := MovesOn(now, before, b), MoveOf(s, step), DtoOf(s, step.b);
        NextKeepsDto(s, step);
        EventsOnTagged(s.log, step.b, dto, OutcomeOf(s, step).emits, b);
        if step.b == b {
          OneMoreMove(dto, ms, m);
        } else {
          assert MovesOn(now, steps, b) == ms;
        }
      } else {
        assert MovesOn(now, steps, b) == MovesOn(now, before, b);
        if step.Start? {
          OneMoreMove(step.dto, [], Crashes);
        }
      }
    }
  }

  lemma NextKeepsDto(s: Bookings, step: Step)
    requires Names(s, step)
    ensures NextSlot(s, step).local == OutcomeOf(s, step).after
    ensures NextSlot(s, step).local.stored.dto == DtoOf(s, step.b)
  {
    hide BookingClass, SeatCount;
  }

  /** In every interleaving the two rows of every booking agree, and its events fit them and what its calls have
      read. */
  lemma EveryBookingConsistent(now: int, steps: seq<Step>, b: nat)
    requires b < |Run(now, steps).slots|
    ensures var s := Run(now, steps);
            && Consistent(s.slots[b].local)
            && EventsFit(s.slots[b].local, EventsOn(s.log, b))
  {
    var dto, ms := DtoOf(Run(now, steps), b), MovesOn(now, steps, b);
    Projection(now, steps, b);
    RowsAlwaysAgree(dto, ms);
    EventLanguage(dto, ms);
  }

  // ---------------------------------------------------------------- seats: log against rows

  function Matches(dto: Dto, flight: int, field: Flight.SeatField): bool {
    dto.flight == flight && Flight.GetSeatField(EventClass(dto)) == Some(field)
  }

  /** The seats a booking is about, if it is about this flight and class. */
  function Block(dto: Dto, flight: int, field: Flight.SeatField): nat {
    if Matches(dto, flight, field) then SeatCount(dto) else 0
  }

  /** Seats of the bookings that hold their seats. */
  function HeldSeats(slots: seq<Slot>, flight: int, field: Flight.SeatField): int {
    if slots == [] then 0
    else
      var s := slots[|slots| - 1].local.stored;
      HeldSeats(slots[..|slots| - 1], flight, field) + Holds(s) * Block(s.dto, flight, field)
  }

  /** Stored reserves minus stored releases. */
  function NetLogged(log: seq<Flight.Event>, flight: int, field: Flight.SeatField): int {
    if log == [] then 0
    else NetLogged(log[..|log| - 1], flight, field) + Flight.Signed(log[|log| - 1], flight, field)
  }

  /** Seats by which one step lets the events drift from the rows. */
  function StepDrift(s: Bookings, step: Step, flight: int, field: Flight.SeatField): int {
    if Names(s, step) then DriftOf(s.slots[step.b].local, MoveOf(s, step)) * Block(DtoOf(s, step.b), flight, field)
    else 0
  }

  function Drift(now: int, steps: seq<Step>, flight: int, field: Flight.SeatField): int {
    if steps == [] then 0
    else
      Drift(now, steps[..|steps| - 1], flight, field)
      + StepDrift(Run(now, steps[..|steps| - 1]), steps[|steps| - 1], flight, field)
  }

  lemma {:induction false} HeldAfterUpdate(slots: seq<Slot>, b: nat, slot: Slot, f: int, field: Flight.SeatField)
    requires b < |slots| && slot.local.stored.dto == slots[b].local.stored.dto
    ensures HeldSeats(slots[b := slot], f, field) ==
            HeldSeats(slots, f, field)
            + (Holds(slot.local.stored) - Holds(slots[b].local.stored)) * Block(slot.local.stored.dto, f, field)
  {
    hide Block, Holds;
    var n, updated := |slots| - 1, slots[b := slot];
    if b == n {
      assert updated[..n] == slots[..n];
      var held, was := Holds(slot.local.stored), Holds(slots[b].local.stored);
      Distribute(held, was, held - was, Block(slot.local.stored.dto, f, field));
    } else {
      HeldAfterUpdate(slots[..n], b, slot, f, field);
      assert updated[..n] == slots[..n][b := slot];
    }
  }

  lemma SignedEvent(b: nat, dto: Dto, k: Flight.Kind, f: int, field: Flight.SeatField)
    ensures Flight.Signed(EventOf(b, dto, k), f, field) == Sign(k) * Block(dto, f, field)
  {}

  lemma {:induction false} NetOfTagged(log: seq<Flight.Event>, b: nat, dto: Dto, ks: seq<Flight.Kind>, f: int,
                                       field: Flight.SeatField)
    ensures NetLogged(log + Tagged(b, dto, ks), f, field) == NetLogged(log, f, field) + Net(ks) * Block(dto, f, field)
  {
    hide EventOf, Block;
    if ks == [] {
      assert log + Tagged(b, dto, ks) == log;
    } else {
      var n := |ks| - 1;
      NetOfTagged(log, b, dto, ks[..n], f, field);
      var longer := log + Tagged(b, dto, ks);
      assert longer[..|longer| - 1] == log + Tagged(b, dto, ks[..n]);
      SignedEvent(b, dto, ks[n], f, field);
      Distribute(Net(ks), Net(ks[..n]), Sign(ks[n]), Block(dto, f, field));
    }
  }

  /** In every run, whatever fails: the seats taken by the stored events are the seats held by the rows, less those by
      which the run has drifted. */
  lemma {:induction false} EventsAccountForRows(now: int, steps: seq<Step>, f: int, field: Flight.SeatField)
    ensures var s := Run(now, steps);
            NetLogged(s.log, f, field) == HeldSeats(s.slots, f, field) - Drift(now, steps, f, field)
  {
    hide HeldSeats, NetLogged, StepDrift, Next;
    if steps == [] {
      NothingHeld(now, f, field);
    } else {
      var before, step := steps[..|steps| - 1], steps[|steps| - 1];
      EventsAccountForRows(now, before, f, field);
      if Names(Run(now, before), step) {
        EveryBookingConsistent(now, before, step.b);
        StepAccounts(Run(now, before), step, f, field);
      } else {
        OtherStepsAccount(Run(now, before), step, f, field);
      }
    }
  }

  lemma NothingHeld(now: int, f: int, field: Flight.SeatField)
    ensures NetLogged(Begin(now).log, f, field) == HeldSeats(Begin(now).slots, f, field) == 0
  {}

  lemma OtherStepsAccount(s: Bookings, step: Step, f: int, field: Flight.SeatField)
    requires !Names(s, step)
    ensures var s' := Next(s, step);
            && NetLogged(s'.log, f, field) == NetLogged(s.log, f, field)
            && HeldSeats(s'.slots, f, field) == HeldSeats(s.slots, f, field)
            && StepDrift(s, step, f, field) == 0
  {
    if step.Start? {
      assert (s.slots + [Slot(NewLocal(step.dto), None, false)])[..|s.slots|] == s.slots;
    }
  }

  lemma StepAccounts(s: Bookings, step: Step, f: int, field: Flight.SeatField)
    requires Names(s, step) && Consistent(s.slots[step.b].local)
    ensures var s' := Next(s, step);
            NetLogged(s'.log, f, field) - HeldSeats(s'.slots, f, field) + StepDrift(s, step, f, field) ==
            NetLogged(s.log, f, field) - HeldSeats(s.slots, f, field)
  {
    hide Make, Inventory, NextLocks, DriftOf, Net, MoveOf, Tagged, Block, Holds;
    var l, m, dto := s.slots[step.b].local, MoveOf(s, step), DtoOf(s, step.b);
    var slot, emits := NextSlot(s, step), OutcomeOf(s, step).emits;
    MoveAccounts(l, m);
    NextKeepsDto(s, step);
    HeldAfterUpdate(s.slots, step.b, slot, f, field);
    NetOfTagged(s.log, step.b, dto, emits, f, field);
    Distribute(Holds(slot.local.stored) - Holds(l.stored), Net(emits), DriftOf(l, m), Block(dto, f, field));
  }

  lemma Distribute(held: int, net: int, drift: int, block: int)
    requires held == net + drift
    ensures held * block == net * block + drift * block
  {}

  // ---------------------------------------------------------------- the drift, booking by booking

  /** Every event of the log carries what its booking asked for. */
  ghost predicate LogFits(slots: seq<Slot>, log: seq<Flight.Event>) {
    forall i :: 0 <= i < |log| ==>
                  && log[i].booking < |slots|
                  && log[i] == EventOf(log[i].booking, slots[log[i].booking].local.stored.dto, log[i].kind)
  }

  lemma {:induction false} LogAlwaysFits(now: int, steps: seq<Step>)
    ensures LogFits(Run(now, steps).slots, Run(now, steps).log)
  {
    hide Next, EventOf;
    if steps != [] {
      LogAlwaysFits(now, steps[..|steps| - 1]);
      StepKeepsLogFits(Run(now, steps[..|steps| - 1]), steps[|steps| - 1]);
    }
  }

  lemma StepKeepsLogFits(s: Bookings, step: Step)
    requires LogFits(s.slots, s.log)
    ensures LogFits(Next(s, step).slots, Next(s, step).log)
  {
    hide Make, NextLocks, NextSlot, MoveOf, EventOf;
    var s' := Next(s, step);
    if Names(s, step) {
      NextKeepsDto(s, step);
      assert forall b: nat :: b < |s.slots| ==> s'.slots[b].local.stored.dto == s.slots[b].local.stored.dto;
      TaggedFits(step.b, DtoOf(s, step.b), OutcomeOf(s, step).emits);
    }
  }

  lemma TaggedFits(b: nat, dto: Dto, ks: seq<Flight.Kind>)
    ensures forall i :: 0 <= i < |ks| ==>
              && Tagged(b, dto, ks)[i] == EventOf(b, dto, ks[i])
              && EventOf(b, dto, ks[i]).booking == b && EventOf(b, dto, ks[i]).kind == ks[i]
  {}

  /** Every event of the shared log asks for what its booking's request asked: its flight, as many seats as the
      request says or names, and the class it names or economy; and the booking row is for as many seats. */
  lemma EventsCarryTheRequest(now: int, steps: seq<Step>, i: nat)
    requires i < |Run(now, steps).log|
    ensures var s := Run(now, steps); var e := s.log[i];
            && e.booking < |s.slots|
            && var dto, row := DtoOf(s, e.booking), s.slots[e.booking].local.stored.booking;
               && e.flight == dto.flight && AsksFor(dto, e.seatCount)
               && e.seatClass == (if dto.seatClass != "" then dto.seatClass else "ECONOMY")
               && (row.Some? ==> row.value.seats == e.seatCount)
  {
    hide Run, AfterMoves, MovesOn;
    var s := Run(now, steps);
    LogAlwaysFits(now, steps);
    var e := s.log[i];
    Projection(now, steps, e.booking);
    RowKeepsRequest(DtoOf(s, e.booking), MovesOn(now, steps, e.booking));
  }

  /** Seats taken by the events of the bookings up to the n-th, booking by booking. */
  function NetByBooking(slots: seq<Slot>, log: seq<Flight.Event>, flight: int, field: Flight.SeatField): int {
    if slots == [] then 0
    else
      var n := |slots| - 1;
      NetByBooking(slots[..n], log, flight, field) +
        Net(EventsOn(log, n)) * Block(slots[n].local.stored.dto, flight, field)
  }

  /** The seats of the booking an event names, if it is one of these. */
  function BlockOf(slots: seq<Slot>, b: nat, flight: int, field: Flight.SeatField): nat {
    if b < |slots| then Block(slots[b].local.stored.dto, flight, field) else 0
  }

  lemma {:induction false} NetByBookingGrows(slots: seq<Slot>, log: seq<Flight.Event>, e: Flight.Event, f: int,
                                             field: Flight.SeatField)
    ensures NetByBooking(slots, log + [e], f, field) ==
            NetByBooking(slots, log, f, field) + Sign(e.kind) * BlockOf(slots, e.booking, f, field)
  {
    hide Block, Net, Sign, EventsOn;
    if slots != [] {
      var n := |slots| - 1;
      NetByBookingGrows(slots[..n], log, e, f, field);
      EventsOnGrow(log, e, n);
      var net, sign, block := Net(EventsOn(log, n)), Sign(e.kind), Block(slots[n].local.stored.dto, f, field);
      if e.booking == n {
        Distribute(net + sign, net, sign, block);
        Distribute(sign, sign, 0, BlockOf(slots[..n], n, f, field));
        assert BlockOf(slots[..n], n, f, field) == 0 && BlockOf(slots, n, f, field) == block;
      } else {
        assert BlockOf(slots[..n], e.booking, f, field) == BlockOf(slots, e.booking, f, field);
      }
    }
  }

  lemma EventsOnGrow(log: seq<Flight.Event>, e: Flight.Event, b: nat)
    ensures Net(EventsOn(log + [e], b)) == Net(EventsOn(log, b)) + if e.booking == b then Sign(e.kind) else 0
  {
    hide Net, EventsOn;
    EventsOnOne(log, e, b);
    NetAppend(EventsOn(log, b), e.kind);
    assert EventsOn(log, b) + [] == EventsOn(log, b);
  }

  lemma {:induction false} NothingByBooking(slots: seq<Slot>, f: int, field: Flight.SeatField)
    ensures NetByBooking(slots, [], f, field) == 0
  {
    if slots != [] {
      NothingByBooking(slots[..|slots| - 1], f, field);
    }
  }

  lemma {:induction false} LogSplitsByBooking(slots: seq<Slot>, log: seq<Flight.Event>, f: int, field: Flight.SeatField)
    requires LogFits(slots, log)
    ensures NetLogged(log, f, field) == NetByBooking(slots, log, f, field)
  {
    hide Block, EventOf, NetByBooking;
    if log == [] {
      NothingByBooking(slots, f, field);
    } else {
      var n := |log| - 1;
      var e := log[n];
      LogSplitsByBooking(slots, log[..n], f, field);
      NetByBookingGrows(slots, log[..n], e, f, field);
      assert log == log[..n] + [e];
      SignedEvent(e.booking, slots[e.booking].local.stored.dto, e.kind, f, field);
    }
  }

  /** The events of every booking have taken no more seats than it holds. */
  ghost predicate WithinRows(slots: seq<Slot>, log: seq<Flight.Event>) {
    forall b: nat :: b < |slots| ==> Net(EventsOn(log, b)) <= Holds(slots[b].local.stored)
  }

  lemma {:induction false} RowsAgainstEvents(slots: seq<Slot>, log: seq<Flight.Event>, f: int, field: Flight.SeatField)
    requires WithinRows(slots, log)
    ensures NetByBooking(slots, log, f, field) <= HeldSeats(slots, f, field)
    ensures NetByBooking(slots, log, f, field) == HeldSeats(slots, f, field) <==>
              forall b: nat :: b < |slots| && Block(slots[b].local.stored.dto, f, field) > 0 ==>
                                 Net(EventsOn(log, b)) == Holds(slots[b].local.stored)
  {
    hide Block, Holds, Net, EventsOn;
    if slots != [] {
      var n := |slots| - 1;
      assert forall b: nat :: b < n ==> slots[..n][b] == slots[b];
      RowsAgainstEvents(slots[..n], log, f, field);
      var net, holds, block := Net(EventsOn(log, n)), Holds(slots[n].local.stored),
          Block(slots[n].local.stored.dto, f, field);
      Distribute(holds, net, holds - net, block);
      assert (holds - net) * block >= 0 && ((holds - net) * block == 0 <==> holds == net || block == 0);
    }
  }

  /** The drift of a counter is never negative, and it is zero exactly when it is zero for every booking on the
      counter. */
  lemma DriftByBooking(now: int, steps: seq<Step>, f: int, field: Flight.SeatField)
    ensures Drift(now, steps, f, field) >= 0
    ensures var s := Run(now, steps);
            Drift(now, steps, f, field) == 0 <==>
              forall b: nat :: b < |s.slots| && Block(DtoOf(s, b), f, field) > 0 ==>
                                 BookingDrift(DtoOf(s, b), MovesOn(now, steps, b)) == 0
  {
    hide Next, Drift, Block, Holds, Net, EventsOn, HeldSeats, NetLogged, NetByBooking, BookingDrift, AfterMoves,
        Emitted, MovesOn;
    var s := Run(now, steps);
    forall b: nat | b < |s.slots|
      ensures Holds(s.slots[b].local.stored) - Net(EventsOn(s.log, b)) ==
              BookingDrift(DtoOf(s, b), MovesOn(now, steps, b)) >= 0
    {
      Projection(now, steps, b);
      DriftLaw(DtoOf(s, b), MovesOn(now, steps, b));
    }
    EventsAccountForRows(now, steps, f, field);
    LogAlwaysFits(now, steps);
    LogSplitsByBooking(s.slots, s.log, f, field);
    RowsAgainstEvents(s.slots, s.log, f, field);
  }
}
