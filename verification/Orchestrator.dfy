/**
 The orchestrator and the booking service as classes over their tables. A transaction that fails puts its
 tables back; the saga object in memory keeps what it was given.
 */
module Orchestrator {
  import opened Wrappers
  import opened Saga
  import BookingAttempt
  import BookingSystem
  import Flight
  import SeatLock

  /** The saga row as the running call holds it in memory. */
  class SagaState {
    const bookingId: nat
    var status: SagaStatus
    var currentStep: nat

    function View(): SagaRow
      reads this
    {
      SagaRow(status, currentStep)
    }

    constructor (bookingId: nat, row: SagaRow)
      ensures this.bookingId == bookingId && View() == row
    {
      this.bookingId, status, currentStep := bookingId, row.status, row.step;
    }
  }

  /** The two tables and the locks, as one value. */
  datatype Tables = Tables(rows: seq<Stored>, outbox: seq<Flight.Event>, locks: SeatLock.Store)

  /** The tables after an outcome for booking `b`. */
  function Applied(t: Tables, b: nat, o: Outcome, now: int): Tables
    requires b < |t.rows|
  {
    Tables(t.rows[b := o.stored],
           t.outbox + BookingSystem.Tagged(b, t.rows[b].dto, o.emits),
           BookingAttempt.Unlocked(t.locks, t.rows[b].dto, b, o, now))
  }

  lemma AppliedTwice(t: Tables, b: nat, first: Outcome, second: Outcome, now: int)
    requires b < |t.rows| && first.stored.dto == t.rows[b].dto && !first.unlocks
    ensures Applied(Applied(t, b, first, now), b, second, now) == Applied(t, b, BookingAttempt.Then(first, second), now)
  {}

  lemma AppliedQuietly(t: Tables, b: nat, o: Outcome, now: int)
    requires b < |t.rows| && !o.unlocks && o.emits == []
    ensures Applied(t, b, o, now) == t.(rows := t.rows[b := o.stored])
  {}

  class BookingSagaOrchestrator {
    var rows: seq<Stored>
    var outbox: seq<Flight.Event>
    const seatLocks: SeatLock.SeatLockService

    constructor (seatLocks: SeatLock.SeatLockService)
      ensures rows == [] && outbox == [] && this.seatLocks == seatLocks
    {
      this.seatLocks := seatLocks;
      rows, outbox := [], [];
    }

    function View(): Tables
      reads this, seatLocks
    {
      Tables(rows, outbox, seatLocks.View())
    }

    method StoreEvent(b: nat, kind: Flight.Kind)
      requires b < |rows|
      modifies this`outbox
      ensures outbox == old(outbox) + [BookingSystem.EventOf(b, rows[b].dto, kind)]
    {
      outbox := outbox + [BookingSystem.EventOf(b, rows[b].dto, kind)];
    }

    method ExecuteStep1(saga: SagaState, fails: bool) returns (ok: bool)
      requires saga.bookingId < |rows|
      modifies this, saga
      ensures var o := CreateBookingRow(old(rows[saga.bookingId]), old(saga.View()), fails);
              && View() == Applied(old(View()), saga.bookingId, o, 0)
              && saga.View() == o.mem && ok == o.ok
    {
      var b := saga.bookingId;
      if saga.currentStep >= 1 {
        return true;
      }
      if fails {
        return false;
      }
      var dto := rows[b].dto;
      rows := rows[b := rows[b].(booking := Some(BookingRow(INITIATED, false, BookingClass(dto), SeatCount(dto))))];
      saga.currentStep := 1;
      saga.status := Initiated;
      rows := rows[b := rows[b].(saga := saga.View())];
      StoreEvent(b, Flight.CreatedNotice);
      return true;
    }

    /** The transaction of step 2. */
    method SaveLocked(saga: SagaState, fault: Fault) returns (ok: bool)
      requires saga.bookingId < |rows|
      modifies this`rows, saga
      ensures var b := saga.bookingId; var o := SaveSeatsLocked(old(rows[b]), old(saga.View()), fault);
              && rows == old(rows)[b := o.stored] && saga.View() == o.mem && ok == o.ok
              && !o.unlocks && o.emits == [] && o.stored.dto == old(rows[b]).dto
    {
      if fault != Early {
        saga.currentStep := 2;
        saga.status := SeatsLocked;
        if fault == NoFault {
          rows := rows[saga.bookingId := rows[saga.bookingId].(saga := saga.View())];
        }
      }
      return fault == NoFault;
    }

    method ExecuteStep2(saga: SagaState, lockCallFails: bool, save: Fault, compensation: Fault,
                        now: int) returns (ok: bool)
      requires saga.bookingId < |rows|
      modifies this, saga, seatLocks
      ensures old(saga.currentStep) >= 2 ==> ok && View() == old(View()) && saga.View() == old(saga.View())
      ensures old(saga.currentStep) < 2 ==>
                var b := saga.bookingId; var row := old(rows[b]);
                var call := BookingAttempt.AskLocks(old(seatLocks.View()), row.dto, b, lockCallFails, now);
                var o := BookingAttempt.AfterLock(Outcome(row, old(saga.View()), [], false, true), call.result.Locked?,
                                                  save, compensation);
                View() == Applied(old(View()).(locks := call.store), b, o, now) && saga.View() == o.mem && ok == o.ok
    {
      hide SeatLock.Lock, SeatLock.Release, Saga.Compensate, SaveSeatsLocked, Applied;
      if saga.currentStep >= 2 {
        return true;
      }
      var b := saga.bookingId;
      var dto := rows[b].dto;
      ghost var o := Outcome(rows[b], saga.View(), [], false, false);
      ok := false;
      if !lockCallFails {
        var locked := seatLocks.LockSeats(dto.flight, SeatNumbers(dto), b, now);
        ok := locked.Locked?;
      }
      ghost var t := View();
      if ok {
        o := SaveSeatsLocked(rows[b], saga.View(), save);
        ok := SaveLocked(saga, save);
      }
      AppliedQuietly(t, b, o, now);
      assert View() == Applied(t, b, o, now);
      if !ok {
        AppliedTwice(t, b, o, Saga.Compensate(o.stored, o.mem, compensation), now);
        Compensate(saga, compensation, now);
      }
    }

    method ExecuteStep3(saga: SagaState, fault: Fault, compensation: Fault, now: int) returns (ok: bool)
      requires saga.bookingId < |rows|
      modifies this, saga, seatLocks
      ensures var b := saga.bookingId;
              var o := BookingAttempt.OrCompensate(ReserveSeats(old(rows[b]), old(saga.View()), fault), compensation);
              View() == Applied(old(View()), b, o, now) && saga.View() == o.mem && ok == o.ok
    {
      var b := saga.bookingId;
      if saga.currentStep >= 3 {
        return true;
      }
      ok := fault == NoFault;
      if fault != Early {
        var rowsBefore, outboxBefore := rows, outbox;
        StoreEvent(b, Flight.Reserve);
        saga.currentStep := 3;
        saga.status := FlightReserved;
        rows := rows[b := rows[b].(saga := saga.View())];
        rows := rows[b := rows[b].(booking := WithStatus(rows[b].booking, PENDING))];
        if fault == Late {
          rows, outbox := rowsBefore, outboxBefore;
        }
      }
      if !ok {
        Compensate(saga, compensation, now);
      }
    }

    /** Compensation by the saga row as `saga` holds it, whatever the row has become since. */
    method Compensate(saga: SagaState, fault: Fault, now: int)
      requires saga.bookingId < |rows|
      modifies this, saga, seatLocks
      ensures var o := Saga.Compensate(old(rows[saga.bookingId]), old(saga.View()), fault);
              && View() == Applied(old(View()), saga.bookingId, o, now)
              && saga.View() == o.mem
    {
      var b := saga.bookingId;
      if saga.status == Compensated {
        return;
      }
      var rowsBefore, outboxBefore := rows, outbox;
      saga.status := Compensating;
      if fault == Early {
        return;
      }
      rows := rows[b := rows[b].(saga := saga.View())];
      if saga.currentStep >= 3 {
        StoreEvent(b, Flight.Release);
      }
      if saga.currentStep >= 2 {
        seatLocks.ReleaseSeats(rows[b].dto.flight, b, now);
      }
      if fault == Late {
        rows, outbox := rowsBefore, outboxBefore;
        return;
      }
      rows := rows[b := rows[b].(booking := WithStatus(rows[b].booking, CANCELLED))];
      saga.status := Compensated;
      rows := rows[b := rows[b].(saga := saga.View())];
    }

    /** The rest of a completion that has read its saga row into `saga`, whatever the row has become since. */
    method CompleteFrom(saga: SagaState, fault: Fault, now: int) returns (ok: bool)
      requires saga.bookingId < |rows|
      modifies this, saga, seatLocks
      ensures var o := Complete(old(rows[saga.bookingId]), old(saga.View()), fault);
              View() == Applied(old(View()), saga.bookingId, o, now) && ok == o.ok
    {
      var b := saga.bookingId;
      if saga.status == BookingConfirmed {
        return true;
      }
      if fault == Early {
        return false;
      }
      StoreEvent(b, Flight.Confirm);
      var booking := if rows[b].booking.Some? then Some(rows[b].booking.value.(status := BOOKED, paid := true))
                     else None;
      rows := rows[b := rows[b].(booking := booking)];
      saga.currentStep := 6;
      saga.status := BookingConfirmed;
      rows := rows[b := rows[b].(saga := saga.View())];
      StoreEvent(b, Flight.ConfirmedNotice);
      if fault == Late {
        return false;
      }
      seatLocks.ReleaseSeats(rows[b].dto.flight, b, now);
      return true;
    }

    /** Answers false when there is no such saga, and when an error reaches the caller. */
    method CompleteBooking(b: nat, fault: Fault, now: int) returns (ok: bool)
      modifies this, seatLocks
      ensures b >= |old(rows)| ==> !ok && View() == old(View())
      ensures b < |old(rows)| ==>
                var o := Complete(old(rows)[b], old(rows)[b].saga, fault);
                View() == Applied(old(View()), b, o, now) && ok == o.ok
    {
      if b >= |rows| {
        return false;
      }
      var saga := new SagaState(b, rows[b].saga);
      ok := CompleteFrom(saga, fault, now);
    }

    method CancelBooking(b: nat, fault: Fault, now: int) returns (found: bool)
      modifies this, seatLocks
      ensures found == (b < |old(rows)|)
      ensures !found ==> View() == old(View())
      ensures found ==> View() == Applied(old(View()), b, Cancel(old(rows)[b], fault), now)
    {
      if b >= |rows| {
        return false;
      }
      var saga := new SagaState(b, rows[b].saga);
      Compensate(saga, fault, now);
      return true;
    }

    /** The tables when a new booking has its saga row and its seat locks have been asked. */
    ghost function Started(before: Tables, dto: Dto, f: BookingAttempt.Faults, now: int): Tables {
      Tables(before.rows + [Stored(dto, NEW_SAGA, None)], before.outbox,
             BookingAttempt.LockCall(before.locks, dto, |before.rows|, f, now).store)
    }

    method ExecuteBookingSaga(dto: Dto, f: BookingAttempt.Faults, now: int) returns (b: nat, ok: bool)
      modifies this, seatLocks
      ensures b == |old(rows)|
      ensures var call := BookingAttempt.LockCall(old(seatLocks.View()), dto, b, f, now);
              var o := BookingAttempt.ExecuteSaga(dto, call.result.Locked?, f);
              View() == Applied(Started(old(View()), dto, f, now), b, o, now) && ok == o.ok
    {
      hide SeatLock.Lock, SeatLock.Release, BookingSystem.Tagged, BookingClass, SeatCount;
      b := |rows|;
      rows := rows + [Stored(dto, NEW_SAGA, None)];
      var saga := new SagaState(b, NEW_SAGA);
      ghost var t, o := Started(old(View()), dto, f, now), BookingAttempt.FirstStep(dto, f);
      ok := ExecuteStep1(saga, f.step1);
      if ok {
        ok := ExecuteStep2(saga, f.lockCall, f.saveLocked, f.compensation, now);
        ghost var call := BookingAttempt.LockCall(old(seatLocks.View()), dto, b, f, now);
        ghost var o2 := BookingAttempt.AfterLock(o, call.result.Locked?, f.saveLocked, f.compensation);
        AppliedTwice(t, b, o, o2, now);
        o := BookingAttempt.Then(o, o2);
        assert View() == Applied(t, b, o, now);
      }
      if ok {
        ok := ExecuteStep3(saga, f.reserve, f.compensation, now);
        AppliedTwice(t, b, o, BookingAttempt.AfterReservation(o, f), now);
      }
    }
  }

  class BookingService {
    const sagaOrchestrator: BookingSagaOrchestrator

    constructor (sagaOrchestrator: BookingSagaOrchestrator)
      ensures this.sagaOrchestrator == sagaOrchestrator
    {
      this.sagaOrchestrator := sagaOrchestrator;
    }

    /** A payment event: refused without a transaction id or a booking row, and else a completion. */
    method CompleteBookingFromPaymentEvent(b: nat, transactionId: string, fault: Fault, now: int) returns (ok: bool)
      modifies sagaOrchestrator, sagaOrchestrator.seatLocks
      ensures var so := sagaOrchestrator; var rows := old(so.rows);
              if transactionId == "" || b >= |rows| || rows[b].booking.None? then !ok && so.View() == old(so.View())
              else
                var o := Complete(rows[b], rows[b].saga, fault);
                so.View() == Applied(old(so.View()), b, o, now) && ok == o.ok
    {
      if transactionId == "" || b >= |sagaOrchestrator.rows| || sagaOrchestrator.rows[b].booking.None? {
        return false;
      }
      ok := sagaOrchestrator.CompleteBooking(b, fault, now);
    }

    method CancelBooking(b: nat, fault: Fault, now: int) returns (ok: bool)
      modifies sagaOrchestrator, sagaOrchestrator.seatLocks
      ensures var so := sagaOrchestrator; var rows := old(so.rows);
              if b >= |rows| || rows[b].booking.None? then !ok && so.View() == old(so.View())
              else so.View() == Applied(old(so.View()), b, Cancel(rows[b], fault), now) && ok
    {
      if b >= |sagaOrchestrator.rows| || sagaOrchestrator.rows[b].booking.None? {
        return false;
      }
      ok := sagaOrchestrator.CancelBooking(b, fault, now);
    }

    method CheckSeatAvailability(flight: int, seats: seq<string>, now: int) returns (availability: map<string, bool>,
                                 all: bool)
      ensures availability.Keys == set s | s in seats
      ensures forall s :: s in seats ==> availability[s] == !sagaOrchestrator.seatLocks.View().SeatLive(flight, s, now)
      ensures all <==> forall s :: s in seats ==> !sagaOrchestrator.seatLocks.View().SeatLive(flight, s, now)
    {
      var locked := sagaOrchestrator.seatLocks.AreSeatsLocked(flight, seats, now);
      availability := map s | s in locked :: !locked[s];
      all := forall s :: s in availability ==> availability[s];
    }

    method PrepareBookingForPayment(b: nat, payment: BookingAttempt.Payment, f: BookingAttempt.Faults,
                                    now: int) returns (ok: bool)
      requires b < |sagaOrchestrator.rows|
      modifies sagaOrchestrator, sagaOrchestrator.seatLocks
      ensures var o := BookingAttempt.SettlePayment(old(sagaOrchestrator.rows)[b], payment, f);
              sagaOrchestrator.View() == Applied(old(sagaOrchestrator.View()), b, o, now) && ok == o.ok
    {
      ok := payment != BookingAttempt.PaymentFails;
      ghost var t := sagaOrchestrator.View();
      if payment == BookingAttempt.AutoCompleted {
        ok := sagaOrchestrator.CompleteBooking(b, f.complete, now);
        if !ok {
          AppliedTwice(t, b, Complete(t.rows[b], t.rows[b].saga, f.complete),
                       Cancel(sagaOrchestrator.rows[b], f.rollback), now);
        }
      }
      if !ok {
        var found := sagaOrchestrator.CancelBooking(b, f.rollback, now);
      }
    }

    method CreateBooking(dto: Dto, payment: BookingAttempt.Payment, f: BookingAttempt.Faults,
                         now: int) returns (b: nat, ok: bool)
      modifies sagaOrchestrator, sagaOrchestrator.seatLocks
      ensures b == |old(sagaOrchestrator.rows)|
      ensures var so := sagaOrchestrator;
              var call := BookingAttempt.LockCall(old(so.seatLocks.View()), dto, b, f, now);
              var o := BookingAttempt.CreateBooking(dto, call.result.Locked?, f, payment);
              so.View() == Applied(so.Started(old(so.View()), dto, f, now), b, o, now) && ok == o.ok
    {
      hide BookingAttempt.ExecuteSaga, BookingAttempt.SettlePayment, SeatLock.Lock, SeatLock.Release,
          BookingSystem.Tagged;
      ghost var t := sagaOrchestrator.Started(sagaOrchestrator.View(), dto, f, now);
      b, ok := sagaOrchestrator.ExecuteBookingSaga(dto, f, now);
      if ok {
        ghost var call := BookingAttempt.LockCall(old(sagaOrchestrator.seatLocks.View()), dto, b, f, now);
        ghost var granted := call.result.Locked?;
        ghost var o := BookingAttempt.ExecuteSaga(dto, granted, f);
        BookingAttempt.SagaOutcome(dto, granted, f);
        ok := PrepareBookingForPayment(b, payment, f, now);
        AppliedTwice(t, b, o, BookingAttempt.SettlePayment(o.stored, payment, f), now);
      }
    }
  }
}
