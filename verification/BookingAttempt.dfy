/**
 A booking attempt as a caller meets it, from the first row to payment, with a failure possible at every
 step: what it leaves behind, and that any interleaving in which the booking makes the moves of an attempt
 leaves the same rows and events.
 */
module BookingAttempt {
  import opened Wrappers
  import opened Saga
  import BookingSystem
  import Flight
  import SeatLock

  /** Where a booking attempt fails; a step named with a plain flag either happens or fails without a trace. */
  datatype Faults = Faults(
    step1: bool, lockCall: bool, saveLocked: Fault, reserve: Fault, compensation: Fault, complete: Fault,
      rollback: Fault)

  /** What the payment client answers. */
  datatype Payment = PaymentFails | PaymentRequired | AutoCompleted

  function Then(first: Outcome, second: Outcome): Outcome {
    Outcome(second.stored, second.mem, first.emits + second.emits,
            first.unlocks || second.unlocks, first.ok && second.ok)
  }

  function OrCompensate(o: Outcome, fault: Fault): Outcome {
    if o.ok then o else Then(o, Compensate(o.stored, o.mem, fault))
  }

  function FirstStep(dto: Dto, f: Faults): Outcome { CreateBookingRow(Stored(dto, NEW_SAGA, None), NEW_SAGA, f.step1) }

  function AfterLock(o: Outcome, granted: bool, save: Fault, compensation: Fault): Outcome {
    OrCompensate(if granted then SaveSeatsLocked(o.stored, o.mem, save) else o.(emits := [], ok := false), compensation)
  }

  function AfterReservation(o: Outcome, f: Faults): Outcome {
    OrCompensate(ReserveSeats(o.stored, o.mem, f.reserve), f.compensation)
  }

  /** The whole saga, each step with the compensation its failure triggers. */
  function ExecuteSaga(dto: Dto, granted: bool, f: Faults): Outcome {
    var o1 := FirstStep(dto, f);
    if !o1.ok then o1
    else
      var o2 := Then(o1, AfterLock(o1, granted, f.saveLocked, f.compensation));
      if !o2.ok then o2 else Then(o2, AfterReservation(o2, f))
  }

  /** What follows a saga that went through. */
  function SettlePayment(s: Stored, payment: Payment, f: Faults): Outcome {
    match payment
    case PaymentRequired => Outcome(s, s.saga, [], false, true)
    case PaymentFails => Cancel(s, f.rollback).(ok := false)
    case AutoCompleted =>
      var c := Complete(s, s.saga, f.complete);
      if c.ok then c else Then(c, Cancel(c.stored, f.rollback))
  }

  function CreateBooking(dto: Dto, granted: bool, f: Faults, payment: Payment): Outcome {
    var saga := ExecuteSaga(dto, granted, f);
    if !saga.ok then saga else Then(saga, SettlePayment(saga.stored, payment, f))
  }

  // ---------------------------------------------------------------- all or nothing

  /** The reservation was attempted and failed after its in-memory change. */
  predicate FailedLate(granted: bool, f: Faults) {
    !f.step1 && granted && f.saveLocked == NoFault && f.reserve == Late
  }

  /** A booking attempt goes through exactly when nothing fails. With compensation itself succeeding, one that fails
      anywhere leaves no booking, or a cancelled one; one that succeeds leaves one reserve, and one confirm if it was
      paid for at once. The releases of a cancelled one match its reserves exactly unless the reservation failed
      late, and its locks are given back exactly unless the transaction that was to store them never opened. */
  lemma AllOrNothing(dto: Dto, granted: bool, f: Faults, payment: Payment)
    requires f.compensation == NoFault && f.rollback == NoFault
    ensures CreateBooking(dto, granted, f, payment).ok <==>
              && !f.step1 && granted && f.saveLocked == NoFault && f.reserve == NoFault
              && (payment == PaymentRequired || (payment == AutoCompleted && f.complete == NoFault))
    ensures var o := CreateBooking(dto, granted, f, payment);
            var es := Inventory(o.emits);
            match o.stored.booking
            case None => !o.ok && es == [] && !o.unlocks && o.stored.saga == NEW_SAGA
            case Some(row) =>
              match row.status
              case INITIATED => false
              case PENDING =>
                && o.ok && payment == PaymentRequired && es == [Flight.Reserve]
                && o.stored.saga.status == FlightReserved
              case BOOKED =>
                && o.ok && payment == AutoCompleted && es == [Flight.Reserve, Flight.Confirm]
                && row.paid && o.unlocks
              case CANCELLED =>
                && !o.ok && o.stored.saga.status == Compensated
                && o.unlocks == (granted && f.saveLocked != Early)
                && (Net(es) == 0 <==> !FailedLate(granted, f))
  {
    hide BookingClass, SeatCount, Inventory, Net, ExecuteSaga;
    NetOfAttempts();
    EventsOfAttempts();
    SagaOutcome(dto, granted, f);
    var saga, o := ExecuteSaga(dto, granted, f), CreateBooking(dto, granted, f, payment);
    if saga.ok {
      match payment
      case PaymentRequired => assert o.emits == RESERVED;
      case PaymentFails => assert o.emits == RESERVED + [Flight.Release];
      case AutoCompleted =>
        if f.complete == NoFault {
          assert o.emits == RESERVED + CONFIRMED;
        } else if f.complete == Late {
          assert o.emits == RESERVED + CONFIRMED + [Flight.Release];
        } else {
          assert o.emits == RESERVED + [Flight.Release];
        }
    }
  }

  /** Where the saga of an attempt ends, and what it has emitted by then. */
  lemma SagaOutcome(dto: Dto, granted: bool, f: Faults)
    ensures var o := ExecuteSaga(dto, granted, f);
            && o.ok == (!f.step1 && granted && f.saveLocked == NoFault && f.reserve == NoFault)
            && o.emits == (
                 if f.step1 then []
                 else if o.ok then RESERVED
                 else if FailedLate(granted, f) && f.compensation == NoFault then UNRESERVED
                 else [Flight.CreatedNotice])
            && o.stored.dto == dto
            && (f.step1 ==> o.stored == Stored(dto, NEW_SAGA, None) && !o.unlocks)
            && (!f.step1 ==> o.stored.booking.Some?)
            && (o.ok ==>
                  && o.stored.saga == SagaRow(FlightReserved, 3)
                  && o.stored.booking.value.status == PENDING && !o.unlocks)
            && (!f.step1 && !o.ok && f.compensation == NoFault ==>
                  && o.stored.saga.status == Compensated && o.stored.booking.value.status == CANCELLED
                  && o.unlocks == (granted && f.saveLocked != Early))
  {
    hide BookingClass, SeatCount;
    var o := ExecuteSaga(dto, granted, f);
    if f.step1 {
    } else if !granted || f.saveLocked != NoFault {
      assert o.emits == [Flight.CreatedNotice];
    } else if f.reserve == NoFault {
      assert o.emits == RESERVED;
    } else if f.reserve == Late && f.compensation == NoFault {
      assert o.emits == UNRESERVED;
    } else {
      assert o.emits == [Flight.CreatedNotice];
    }
  }

  /** The seat locks are asked once the booking row exists, unless the call fails. */
  function LockCall(locks: SeatLock.Store, dto: Dto, b: nat, f: Faults, now: int): SeatLock.LockOutcome {
    AskLocks(locks, dto, b, f.step1 || f.lockCall, now)
  }

  function AskLocks(locks: SeatLock.Store, dto: Dto, b: nat, fails: bool, now: int): SeatLock.LockOutcome {
    if fails then SeatLock.LockOutcome(locks, SeatLock.Refused([]))
    else SeatLock.Lock(locks, dto.flight, SeatNumbers(dto), b, now)
  }

  function Unlocked(locks: SeatLock.Store, dto: Dto, b: nat, o: Outcome, now: int): SeatLock.Store {
    if o.unlocks then SeatLock.Release(locks, dto.flight, b, now) else locks
  }

  /** An attempt that ends booked or cancelled holds no seat lock, and every other lock is as it was, except exactly
      when locks were granted and the transaction that was to store them never opened: those stay until they run out. */
  lemma NoLockLeft(locks: SeatLock.Store, dto: Dto, b: nat, f: Faults, payment: Payment, now: int)
    requires f.compensation == NoFault && f.rollback == NoFault
    requires SeatLock.Agree(locks, now) && !locks.BookingLive(dto.flight, b, now)
    ensures var call := LockCall(locks, dto, b, f, now);
            var o := CreateBooking(dto, call.result.Locked?, f, payment);
            var after := Unlocked(call.store, dto, b, o, now);
            o.stored.booking.Some? && o.stored.booking.value.status in {BOOKED, CANCELLED} ==>
              if call.result.Locked? && f.saveLocked == Early && SeatNumbers(dto) != [] then
                after == call.store && after.BookingLive(dto.flight, b, now)
              else
                && !after.BookingLive(dto.flight, b, now)
                && (forall g, s :: after.SeatLive(g, s, now) <==> locks.SeatLive(g, s, now))
                && (forall g, s :: after.SeatLive(g, s, now) ==> after.seats[(g, s)] == locks.seats[(g, s)])
  {
    hide CreateBooking, Inventory, Net, SeatLock.Release, SeatLock.FailedSeats, SeatLock.Validate, SeatLock.WriteSeats;
    var call := LockCall(locks, dto, b, f, now);
    AllOrNothing(dto, call.result.Locked?, f, payment);
    SeatLock.ReleaseExact(locks, dto.flight, b, now);
    if call.result.Locked? {
      SeatLock.LockThenRelease(locks, dto.flight, SeatNumbers(dto), b, now);
    }
  }

  const RESERVED: seq<Flight.Kind> := [Flight.CreatedNotice, Flight.Reserve]
  const UNRESERVED: seq<Flight.Kind> := [Flight.CreatedNotice, Flight.Release]
  const CONFIRMED: seq<Flight.Kind> := [Flight.Confirm, Flight.ConfirmedNotice]

  lemma EventsOfAttempts()
    ensures Inventory([]) == Inventory([Flight.CreatedNotice]) == []
    ensures Inventory(RESERVED) == [Flight.Reserve] && Inventory(UNRESERVED) == [Flight.Release]
    ensures Inventory(RESERVED + CONFIRMED) == [Flight.Reserve, Flight.Confirm]
    ensures Inventory(RESERVED + [Flight.Release]) == [Flight.Reserve, Flight.Release]
    ensures Inventory(RESERVED + CONFIRMED + [Flight.Release]) == [Flight.Reserve, Flight.Confirm, Flight.Release]
  {
    hide Inventory;
    InventoryOfEmits();
    assert RESERVED == [Flight.CreatedNotice] + [Flight.Reserve] &&
        UNRESERVED == [Flight.CreatedNotice] + [Flight.Release];
    InventoryAppend([Flight.CreatedNotice], [Flight.Reserve]);
    InventoryAppend([Flight.CreatedNotice], [Flight.Release]);
    InventoryAppend(RESERVED, CONFIRMED);
    InventoryAppend(RESERVED, [Flight.Release]);
    InventoryAppend(RESERVED + CONFIRMED, [Flight.Release]);
  }

  lemma NetOfAttempts()
    ensures Net([]) == 0 && Net([Flight.Release]) == -1 && Net([Flight.Reserve, Flight.Release]) == 0
    ensures Net([Flight.Reserve, Flight.Confirm, Flight.Release]) == 0
  {
    var rl, rcl := [Flight.Reserve, Flight.Release], [Flight.Reserve, Flight.Confirm, Flight.Release];
    assert [Flight.Release][..0] == [] && [Flight.Reserve][..0] == [];
    assert rl[..1] == [Flight.Reserve] && rcl[..2] == [Flight.Reserve, Flight.Confirm];
    assert [Flight.Reserve, Flight.Confirm][..1] == [Flight.Reserve];
  }

  // ---------------------------------------------------------------- the same attempt as a run of moves

  function MakeAll(l: Local, ms: seq<Move>): LocalOutcome {
    if ms == [] then LocalOutcome(l, [], false)
    else
      var before := MakeAll(l, ms[..|ms| - 1]);
      var o := Make(before.after, ms[|ms| - 1]);
      LocalOutcome(o.after, before.emits + o.emits, before.unlocks || o.unlocks)
  }

  lemma {:induction false} InOrder(l: Local, ms: seq<Move>, more: seq<Move>)
    ensures var first := MakeAll(l, ms); var second := MakeAll(first.after, more);
            MakeAll(l, ms + more) ==
              LocalOutcome(second.after, first.emits + second.emits, first.unlocks || second.unlocks)
  {
    hide Make;
    if more == [] {
      assert ms + more == ms && MakeAll(l, ms).emits + [] == MakeAll(l, ms).emits;
    } else {
      InOrder(l, ms, more[..|more| - 1]);
      assert (ms + more)[..|ms + more| - 1] == ms + more[..|more| - 1];
    }
  }

  lemma UpToThree(l: Local, a: Move, b: Move, c: Move)
    ensures var x := Make(l, a); var y := Make(x.after, b); var z := Make(y.after, c);
            && MakeAll(l, []) == LocalOutcome(l, [], false) && MakeAll(l, [a]) == x
            && MakeAll(l, [a, b]) == LocalOutcome(y.after, x.emits + y.emits, x.unlocks || y.unlocks)
            && MakeAll(l, [a, b, c]) ==
                 LocalOutcome(z.after, x.emits + y.emits + z.emits, x.unlocks || y.unlocks || z.unlocks)
  {
    hide Make;
    var one, two, three := [a], [a, b], [a, b, c];
    assert one[..0] == [] && two[..1] == one && three[..2] == two;
    assert MakeAll(l, one[..0]) == LocalOutcome(l, [], false);
    assert [] + Make(l, a).emits == Make(l, a).emits;
  }

  lemma {:induction false} FromTheStart(dto: Dto, ms: seq<Move>)
    ensures AfterMoves(dto, ms) == MakeAll(NewLocal(dto), ms).after
    ensures Emitted(dto, ms) == Inventory(MakeAll(NewLocal(dto), ms).emits)
  {
    hide Inventory, BookingClass, SeatCount;
    InventoryOfEmits();
    if ms != [] {
      FromTheStart(dto, ms[..|ms| - 1]);
      var before := MakeAll(NewLocal(dto), ms[..|ms| - 1]);
      InventoryAppend(before.emits, Make(before.after, ms[|ms| - 1]).emits);
    }
  }

  function Stage(fails: bool): Fault { if fails then Early else NoFault }

  function Await(fault: Fault): Move { Advances(false, fault) }

  /** Compensation opens its transaction and releases the locks, then commits. */
  function CompensationMoves(fault: Fault): seq<Move> {
    match fault
    case NoFault => [Await(NoFault), Await(NoFault)]
    case Early => [Await(Early)]
    case Late => [Await(NoFault), Await(Late)]
  }

  function LockMoves(granted: bool, f: Faults): seq<Move> {
    if !granted then [Advances(false, Stage(f.lockCall))] + CompensationMoves(f.compensation)
    else
      [Advances(true, NoFault), Await(f.saveLocked)]
      + if f.saveLocked == NoFault then [] else CompensationMoves(f.compensation)
  }

  function ReserveMoves(f: Faults): seq<Move> {
    [Await(f.reserve)] + if f.reserve == NoFault then [] else CompensationMoves(f.compensation)
  }

  /** The moves of a call that nobody interferes with; `i` is its place among the calls of the booking. */
  function CallMoves(i: nat, fault: Fault): seq<Move> {
    match fault
    case NoFault => [Proceeds(i, false), Proceeds(i, false)]
    case Early => [Proceeds(i, true)]
    case Late => [Proceeds(i, false), Proceeds(i, true)]
  }

  function CompleteMoves(i: nat, fault: Fault): seq<Move> { [ReadsToComplete] + CallMoves(i, fault) }

  function CancelMoves(i: nat, fault: Fault): seq<Move> { [ReadsToCancel] + CallMoves(i, fault) }

  function SagaMoves(granted: bool, f: Faults): seq<Move> {
    [Await(Stage(f.step1))]
    + if f.step1 then []
      else LockMoves(granted, f) + if granted && f.saveLocked == NoFault then ReserveMoves(f) else []
  }

  function PaymentMoves(payment: Payment, f: Faults): seq<Move> {
    match payment
    case PaymentRequired => []
    case PaymentFails => CancelMoves(0, f.rollback)
    case AutoCompleted =>
      CompleteMoves(0, f.complete) + if f.complete == NoFault then [] else CancelMoves(1, f.rollback)
  }

  /** The moves of a whole attempt, whose saga asks the locks once and is answered `granted`. */
  function AttemptMoves(granted: bool, f: Faults, payment: Payment): seq<Move> {
    SagaMoves(granted, f) + if ExecuteSagaSucceeds(granted, f) then PaymentMoves(payment, f) else []
  }

  predicate ExecuteSagaSucceeds(granted: bool, f: Faults) {
    !f.step1 && granted && f.saveLocked == NoFault && f.reserve == NoFault
  }

  /** A run of moves comes to an outcome and leaves the booking in a phase. */
  predicate ComesTo(r: LocalOutcome, o: Outcome, phase: Phase, calls: nat) {
    && r.after.stored == o.stored && r.emits == o.emits && r.unlocks == o.unlocks
    && r.after.phase == phase && |r.after.calls| == calls
  }

  lemma CompensationRun(l: Local, fault: Fault)
    requires l.phase == AtCompensate && l.mem.status != Compensated
    ensures ComesTo(MakeAll(l, CompensationMoves(fault)), Compensate(l.stored, l.mem, fault), Idle, |l.calls|)
  {
    hide MakeAll;
    UpToThree(l, Await(if fault == Early then Early else NoFault), Await(fault), Crashes);
    assert [] + UndoEvents(l.mem) == UndoEvents(l.mem);
  }

  lemma CompletionSteps(l: Local, i: nat, fault: Fault)
    requires i < |l.calls| && l.calls[i].Completing?
    ensures var o := Complete(l.stored, l.calls[i].read, fault);
            var y := Make(l, Proceeds(i, fault == Early)); var z := Make(y.after, Proceeds(i, fault == Late));
            && z.after.phase == y.after.phase == l.phase && |z.after.calls| == |y.after.calls| == |l.calls|
            && z.after.stored == o.stored && y.emits + z.emits == o.emits && (y.unlocks || z.unlocks) == o.unlocks
            && (fault == Early ==> y.after.stored == o.stored && y.emits == o.emits && y.unlocks == o.unlocks)
  {}

  lemma CancellationSteps(l: Local, i: nat, fault: Fault)
    requires i < |l.calls| && l.calls[i].Cancelling?
    ensures var o := Compensate(l.stored, l.calls[i].read, fault);
            var y := Make(l, Proceeds(i, fault == Early)); var z := Make(y.after, Proceeds(i, fault == Late));
            && z.after.phase == y.after.phase == l.phase && |z.after.calls| == |y.after.calls| == |l.calls|
            && z.after.stored == o.stored && y.emits + z.emits == o.emits && (y.unlocks || z.unlocks) == o.unlocks
            && (fault == Early ==> y.after.stored == o.stored && y.emits == o.emits && y.unlocks == o.unlocks)
  {}

  lemma ThreeOfACall(l: Local, read: Move, i: nat, fault: Fault)
    ensures var x := Make(l, read); var y := Make(x.after, Proceeds(i, fault == Early));
            var z := Make(y.after, Proceeds(i, fault == Late));
            MakeAll(l, [read] + CallMoves(i, fault)) ==
              if fault == Early then LocalOutcome(y.after, x.emits + y.emits, x.unlocks || y.unlocks)
              else LocalOutcome(z.after, x.emits + y.emits + z.emits, x.unlocks || y.unlocks || z.unlocks)
  {
    hide Make, MakeAll;
    UpToThree(l, read, Proceeds(i, fault == Early), Proceeds(i, fault == Late));
    assert [read] + [Proceeds(i, true)] == [read, Proceeds(i, true)];
    assert [read] + [Proceeds(i, false), Proceeds(i, fault == Late)] ==
        [read, Proceeds(i, false), Proceeds(i, fault == Late)];
  }

  lemma CallBegins(l: Local)
    requires Settled(l)
    ensures Make(l, ReadsToComplete) == LocalOutcome(l.(calls := l.calls + [Completing(l.stored.saga)]), [], false)
    ensures Make(l, ReadsToCancel) == LocalOutcome(l.(calls := l.calls + [Cancelling(l.stored.saga)]), [], false)
  {}

  /** A completion that nobody interferes with is the completion from the row as it stands. */
  lemma CompletionAlone(l: Local, fault: Fault)
    requires Settled(l)
    ensures ComesTo(MakeAll(l, CompleteMoves(|l.calls|, fault)), Complete(l.stored, l.stored.saga, fault), Idle,
                    |l.calls| + 1)
  {
    hide Make, MakeAll, Complete, CallMoves;
    CallBegins(l);
    ThreeOfACall(l, ReadsToComplete, |l.calls|, fault);
    CompletionSteps(Make(l, ReadsToComplete).after, |l.calls|, fault);
    NothingBefore(Make(Make(l, ReadsToComplete).after, Proceeds(|l.calls|, fault == Early)).emits);
  }

  /** So is a cancellation. */
  lemma CancellationAlone(l: Local, fault: Fault)
    requires Settled(l)
    ensures ComesTo(MakeAll(l, CancelMoves(|l.calls|, fault)), Cancel(l.stored, fault), Idle, |l.calls| + 1)
  {
    hide Make, MakeAll, Compensate, CallMoves;
    CallBegins(l);
    ThreeOfACall(l, ReadsToCancel, |l.calls|, fault);
    CancellationSteps(Make(l, ReadsToCancel).after, |l.calls|, fault);
    NothingBefore(Make(Make(l, ReadsToCancel).after, Proceeds(|l.calls|, fault == Early)).emits);
  }

  lemma FirstStepRun(dto: Dto, f: Faults)
    ensures var r, o := MakeAll(NewLocal(dto), [Await(Stage(f.step1))]), FirstStep(dto, f);
            && ComesTo(r, o, if o.ok then AtStep2 else Idle, 0)
            && (o.ok ==> r.after.mem == o.mem == SagaRow(Initiated, 1)) && !o.unlocks
  {
    hide BookingClass, SeatCount;
    UpToThree(NewLocal(dto), Await(Stage(f.step1)), Crashes, Crashes);
  }

  lemma LockRun(l: Local, o: Outcome, granted: bool, f: Faults)
    requires l.phase == AtStep2 && l.mem == o.mem == SagaRow(Initiated, 1) && l.stored == o.stored && !o.unlocks
    ensures var r, o' := MakeAll(l, LockMoves(granted, f)), AfterLock(o, granted, f.saveLocked, f.compensation);
            && ComesTo(r, o', if o'.ok then AtStep3 else Idle, |l.calls|)
            && o'.ok == (granted && f.saveLocked == NoFault)
            && (o'.ok ==> r.after.mem == o'.mem == SagaRow(SeatsLocked, 2))
  {
    hide Compensate, MakeAll;
    var first := if granted then [Advances(true, NoFault), Await(f.saveLocked)]
                 else [Advances(false, Stage(f.lockCall))];
    UpToThree(l, first[0], Await(f.saveLocked), Crashes);
    var mid := MakeAll(l, first).after;
    if granted && f.saveLocked == NoFault {
      assert first + [] == first;
    } else {
      CompensationRun(mid, f.compensation);
      InOrder(l, first, CompensationMoves(f.compensation));
      NothingBefore(Compensate(mid.stored, mid.mem, f.compensation).emits);
    }
  }

  lemma NothingBefore(ks: seq<Flight.Kind>)
    ensures [] + ks == ks && [] + [] + ks == ks
  {}

  lemma ReserveRun(l: Local, f: Faults)
    requires l.phase == AtStep3 && l.mem == SagaRow(SeatsLocked, 2)
    ensures var o := OrCompensate(ReserveSeats(l.stored, l.mem, f.reserve), f.compensation);
            && ComesTo(MakeAll(l, ReserveMoves(f)), o, Idle, |l.calls|) && o.ok == (f.reserve == NoFault)
  {
    hide Compensate, MakeAll;
    UpToThree(l, Await(f.reserve), Crashes, Crashes);
    var first := [Await(f.reserve)];
    var mid := MakeAll(l, first).after;
    if f.reserve == NoFault {
      assert first + [] == first;
    } else {
      CompensationRun(mid, f.compensation);
      InOrder(l, first, CompensationMoves(f.compensation));
      NothingBefore(Compensate(mid.stored, mid.mem, f.compensation).emits);
    }
  }

  /** The sequential saga is one of the runs of moves: the same rows, the same events and the same lock releases. */
  lemma SagaIsARun(dto: Dto, granted: bool, f: Faults)
    ensures ComesTo(MakeAll(NewLocal(dto), SagaMoves(granted, f)), ExecuteSaga(dto, granted, f), Idle, 0)
  {
    hide Make, MakeAll, Compensate, ReserveSeats, AfterLock, LockMoves, ReserveMoves;
    FirstStepFails(dto, f);
    if f.step1 {
      FirstStepRun(dto, f);
      assert [Await(Stage(f.step1))] + [] == [Await(Stage(f.step1))];
    } else {
      AfterFirst(dto, granted, f);
    }
  }

  lemma FirstStepFails(dto: Dto, f: Faults)
    ensures FirstStep(dto, f).ok == !f.step1
  {}

  lemma AfterFirst(dto: Dto, granted: bool, f: Faults)
    requires !f.step1
    ensures ComesTo(MakeAll(NewLocal(dto), SagaMoves(granted, f)), ExecuteSaga(dto, granted, f), Idle, 0)
  {
    hide Make, MakeAll, Compensate, CreateBookingRow, ReserveSeats, AfterLock, LockMoves, ReserveMoves, OrCompensate,
        FirstStep;
    var l, first, o1 := NewLocal(dto), [Await(Stage(f.step1))], FirstStep(dto, f);
    FirstStepRun(dto, f);
    FirstStepFails(dto, f);
    var mid := MakeAll(l, first).after;
    LockRun(mid, o1, granted, f);
    InOrder(l, first, LockMoves(granted, f));
    var o2 := AfterLock(o1, granted, f.saveLocked, f.compensation);
    if o2.ok {
      var locked := MakeAll(mid, LockMoves(granted, f)).after;
      ReserveRun(locked, f);
      InOrder(l, first + LockMoves(granted, f), ReserveMoves(f));
      assert SagaMoves(granted, f) == first + LockMoves(granted, f) + ReserveMoves(f);
    } else {
      assert SagaMoves(granted, f) == first + LockMoves(granted, f);
    }
  }

  lemma PaymentRun(l: Local, payment: Payment, f: Faults)
    requires Settled(l) && l.calls == [] && l.stored.saga.status == FlightReserved
    ensures var r, o := MakeAll(l, PaymentMoves(payment, f)), SettlePayment(l.stored, payment, f);
            r.after.stored == o.stored && r.emits == o.emits && r.unlocks == o.unlocks
  {
    hide Make, MakeAll, Compensate, CompleteMoves, CancelMoves;
    UpToThree(l, Crashes, Crashes, Crashes);
    match payment
    case PaymentRequired =>
    case PaymentFails => CancellationAlone(l, f.rollback);
    case AutoCompleted =>
      CompletionAlone(l, f.complete);
      var mid := MakeAll(l, CompleteMoves(0, f.complete)).after;
      if f.complete == NoFault {
        assert CompleteMoves(0, f.complete) + [] == CompleteMoves(0, f.complete);
      } else {
        CancellationAlone(mid, f.rollback);
        InOrder(l, CompleteMoves(0, f.complete), CancelMoves(1, f.rollback));
      }
  }

  /** A whole attempt, payment included, is a run of moves with the same rows, events and lock releases. */
  lemma AttemptIsARun(dto: Dto, granted: bool, f: Faults, payment: Payment)
    ensures var r, o := MakeAll(NewLocal(dto), AttemptMoves(granted, f, payment)),
            CreateBooking(dto, granted, f, payment);
            r.after.stored == o.stored && r.emits == o.emits && r.unlocks == o.unlocks
  {
    hide Make, MakeAll, ExecuteSaga, SettlePayment, SagaMoves, PaymentMoves;
    var l, saga := NewLocal(dto), ExecuteSaga(dto, granted, f);
    SagaIsARun(dto, granted, f);
    SagaOutcome(dto, granted, f);
    if saga.ok {
      var mid := MakeAll(l, SagaMoves(granted, f)).after;
      assert mid.calls == [];
      PaymentRun(mid, payment, f);
      InOrder(l, SagaMoves(granted, f), PaymentMoves(payment, f));
    } else {
      assert SagaMoves(granted, f) + [] == SagaMoves(granted, f);
    }
  }

  /** However other bookings interleave: where a booking has made the moves of an attempt, its rows and its events in
      the shared log are those of the attempt. */
  lemma AttemptInsideAnyRun(now: int, steps: seq<BookingSystem.Step>, b: nat, granted: bool, f: Faults,
                            payment: Payment)
    requires b < |BookingSystem.Run(now, steps).slots|
    requires BookingSystem.MovesOn(now, steps, b) == AttemptMoves(granted, f, payment)
    ensures var s := BookingSystem.Run(now, steps);
            var o := CreateBooking(BookingSystem.DtoOf(s, b), granted, f, payment);
            s.slots[b].local.stored == o.stored && BookingSystem.EventsOn(s.log, b) == Inventory(o.emits)
  {
    hide MakeAll, CreateBooking, AttemptMoves, BookingSystem.Run, AfterMoves, Emitted;
    var dto := BookingSystem.DtoOf(BookingSystem.Run(now, steps), b);
    BookingSystem.Projection(now, steps, b);
    FromTheStart(dto, AttemptMoves(granted, f, payment));
    AttemptIsARun(dto, granted, f, payment);
  }
}
