/** The seat locks of interleaved sagas: bookings that still count on their locks do hold them, and hold disjoint
    seats. */
module SharedLocks {
  import opened Wrappers
  import opened Saga
  import opened BookingSystem
  import Flight
  import SeatLock

  ghost predicate NoEntry(locks: SeatLock.Store, b: nat) {
    forall f: int :: (f, b) !in locks.bookings
  }

  /** The lock history of a booking against the lock store. */
  ghost predicate HistoryFits(slot: Slot, b: nat, locks: SeatLock.Store, now: int) {
    var dto, saga := slot.local.stored.dto, slot.local.stored.saga;
    && (slot.local.phase in {AtStep1, AtStep2} ==> NoEntry(locks, b))
    && (slot.lockedAt.Some? ==>
          var t := slot.lockedAt.value;
          && t <= now
          && (now < t + SeatLock.LOCK_MS ==>
                && (dto.flight, b) in locks.bookings
                && locks.bookings[(dto.flight, b)] == SeatLock.BookingEntry(SeatNumbers(dto), t, t + SeatLock.LOCK_MS)))
    && (&& SeatNumbers(dto) != [] && !slot.released
        && (slot.local.phase == AtStep2Save || saga.status in {SeatsLocked, FlightReserved}) ==>
          slot.lockedAt.Some?)
  }

  ghost predicate LocksFit(s: Bookings) {
    && SeatLock.Agree(s.locks, s.now)
    && (forall b: nat :: b < |s.slots| ==> Consistent(s.slots[b].local) && HistoryFits(s.slots[b], b, s.locks, s.now))
    && (forall b: nat :: b >= |s.slots| ==> NoEntry(s.locks, b))
  }

  lemma AgreeAfterStep(s: Bookings, step: Step)
    requires Names(s, step) && SeatLock.Agree(s.locks, s.now)
    ensures SeatLock.Agree(NextLocks(s, step), s.now)
  {
    var dto := DtoOf(s, step.b);
    SeatLock.AgreeReleased(s.locks, dto.flight, step.b, s.now);
    if !s.locks.BookingLive(dto.flight, step.b, s.now) &&
      SeatLock.FailedSeats(s.locks, dto.flight, SeatNumbers(dto), step.b, s.now) == [] {
      SeatLock.AgreeWritten(s.locks, dto.flight, SeatNumbers(dto), step.b, s.now);
    }
  }

  /** A step on one booking leaves the lock entries of every other booking alone. */
  lemma OtherEntriesStay(s: Bookings, step: Step, f: int, b: nat)
    requires Names(s, step) && b != step.b
    ensures (f, b) in NextLocks(s, step).bookings <==> (f, b) in s.locks.bookings
    ensures (f, b) in s.locks.bookings ==> NextLocks(s, step).bookings[(f, b)] == s.locks.bookings[(f, b)]
  {
    hide Make;
  }

  lemma OwnHistoryFits(s: Bookings, step: Step)
    requires Names(s, step) && Consistent(s.slots[step.b].local)
    requires HistoryFits(s.slots[step.b], step.b, s.locks, s.now)
    ensures HistoryFits(NextSlot(s, step), step.b, NextLocks(s, step), s.now)
  {
    if AsksLocks(s, step) {
      AskedHistoryFits(s, step);
    } else {
      MovedHistoryFits(s, step);
    }
  }

  lemma AskedHistoryFits(s: Bookings, step: Step)
    requires Names(s, step) && AsksLocks(s, step) && Consistent(s.slots[step.b].local)
    requires HistoryFits(s.slots[step.b], step.b, s.locks, s.now)
    ensures HistoryFits(NextSlot(s, step), step.b, NextLocks(s, step), s.now)
  {
    hide BookingClass, SeatCount, SeatLock.FailedSeats, SeatLock.WriteSeats, SeatLock.Validate, SeatLock.Release;
  }

  lemma MovedHistoryFits(s: Bookings, step: Step)
    requires Names(s, step) && !AsksLocks(s, step) && Consistent(s.slots[step.b].local)
    requires HistoryFits(s.slots[step.b], step.b, s.locks, s.now)
    ensures HistoryFits(NextSlot(s, step), step.b, NextLocks(s, step), s.now)
  {
    if step.Advance? {
      AdvancedHistoryFits(s, step);
    } else {
      CalledHistoryFits(s, step);
    }
  }

  lemma AdvancedHistoryFits(s: Bookings, step: Step)
    requires Names(s, step) && step.Advance? && !AsksLocks(s, step) && Consistent(s.slots[step.b].local)
    requires HistoryFits(s.slots[step.b], step.b, s.locks, s.now)
    ensures HistoryFits(NextSlot(s, step), step.b, NextLocks(s, step), s.now)
  {
    hide BookingClass, SeatCount, LockCall, CallsAgree;
  }

  lemma CalledHistoryFits(s: Bookings, step: Step)
    requires Names(s, step) && !step.Advance? && Consistent(s.slots[step.b].local)
    requires HistoryFits(s.slots[step.b], step.b, s.locks, s.now)
    ensures HistoryFits(NextSlot(s, step), step.b, NextLocks(s, step), s.now)
  {
    hide LockCall, RowsAgree, MemoryAgrees;
  }

  lemma StepKeepsLocksFit(s: Bookings, step: Step)
    requires LocksFit(s)
    ensures LocksFit(Next(s, step))
  {
    hide Make, NextLocks, NextSlot, MoveOf, Tagged, HistoryFits;
    var s' := Next(s, step);
    if Names(s, step) {
      AgreeAfterStep(s, step);
      OwnHistoryFits(s, step);
      NextKeepsDto(s, step);
      MovesKeepConsistent(s.slots[step.b].local, MoveOf(s, step));
      forall b: nat | b < |s.slots| && b != step.b ensures HistoryFits(s.slots[b], b, s'.locks, s.now) {
        OthersHistoryFits(s, step, b);
      }
      forall b: nat, f: int | b >= |s.slots| ensures (f, b) !in s'.locks.bookings {
        assert NoEntry(s.locks, b);
        OtherEntriesStay(s, step, f, b);
      }
    } else if step.Start? {
      NewHistoryFits(step.dto, |s.slots|, s.locks, s.now);
    } else if step.Wait? {
      SeatLock.AgreeLater(s.locks, s.now, s'.now);
      forall b: nat | b < |s.slots| ensures HistoryFits(s.slots[b], b, s.locks, s'.now) {
        LaterHistoryFits(s.slots[b], b, s.locks, s.now, s'.now);
      }
    }
  }

  lemma OthersHistoryFits(s: Bookings, step: Step, b: nat)
    requires Names(s, step) && b < |s.slots| && b != step.b && HistoryFits(s.slots[b], b, s.locks, s.now)
    ensures HistoryFits(s.slots[b], b, NextLocks(s, step), s.now)
  {
    hide NextLocks;
    forall f: int ensures (f, b) in NextLocks(s, step).bookings <==> (f, b) in s.locks.bookings {
      OtherEntriesStay(s, step, f, b);
    }
    OtherEntriesStay(s, step, DtoOf(s, b).flight, b);
  }

  lemma NewHistoryFits(dto: Dto, b: nat, locks: SeatLock.Store, now: int)
    requires NoEntry(locks, b)
    ensures HistoryFits(Slot(NewLocal(dto), None, false), b, locks, now) && Consistent(NewLocal(dto))
  {}

  lemma LaterHistoryFits(slot: Slot, b: nat, locks: SeatLock.Store, now: int, later: int)
    requires HistoryFits(slot, b, locks, now) && now <= later
    ensures HistoryFits(slot, b, locks, later)
  {}

  lemma {:induction false} LocksAlwaysFit(now: int, steps: seq<Step>)
    ensures LocksFit(Run(now, steps))
  {
    hide Next, LocksFit;
    if steps == [] {
      BeginFits(now);
    } else {
      LocksAlwaysFit(now, steps[..|steps| - 1]);
      StepKeepsLocksFit(Run(now, steps[..|steps| - 1]), steps[|steps| - 1]);
    }
  }

  lemma BeginFits(now: int)
    ensures LocksFit(Begin(now))
  {}

  /** The booking is between locking its seats and leaving the saga, its locks have not run out, and no compensation or
      completion has reached its lock release. */
  predicate CountsOnLocks(s: Bookings, b: nat)
    requires b < |s.slots|
  {
    && s.slots[b].local.stored.saga.status in {SeatsLocked, FlightReserved}
    && !s.slots[b].released
    && (s.slots[b].lockedAt.Some? ==> s.now < s.slots[b].lockedAt.value + SeatLock.LOCK_MS)
  }

  /** In every interleaving, bookings that count on their locks hold disjoint seats of a flight. */
  lemma LiveSagasHoldDisjointSeats(now: int, steps: seq<Step>, b: nat, c: nat)
    requires var s := Run(now, steps);
             && b < |s.slots| && c < |s.slots| && b != c
             && CountsOnLocks(s, b) && CountsOnLocks(s, c) && DtoOf(s, b).flight == DtoOf(s, c).flight
    ensures var s := Run(now, steps);
            forall seat :: seat in SeatNumbers(DtoOf(s, b)) ==> seat !in SeatNumbers(DtoOf(s, c))
  {
    var s := Run(now, steps);
    LocksAlwaysFit(now, steps);
    if SeatNumbers(DtoOf(s, b)) != [] && SeatNumbers(DtoOf(s, c)) != [] {
      assert HistoryFits(s.slots[b], b, s.locks, s.now) && HistoryFits(s.slots[c], c, s.locks, s.now);
      SeatLock.Exclusion(s.locks, s.now, DtoOf(s, b).flight, b, c);
    }
  }

  // ---------------------------------------------------------------- where this ends

  /** A cancellation of `b` by a row it read while the booking was in the saga is about to release the locks. */
  predicate AboutToRelease(s: Bookings, b: nat, i: nat)
    requires b < |s.slots|
  {
    var calls := s.slots[b].local.calls;
    i < |calls| && calls[i].Cancelling? && calls[i].read.status != Compensated && calls[i].read.step >= 2
  }

  predicate ValidSeats(dto: Dto) { SeatNumbers(dto) != [] && SeatLock.Validate(SeatNumbers(dto)).None? }

  /** A cancellation gives its seats away before it commits, and whether or not it ever does: when it takes the step
      of its lock release the booking stays stored as it was, and a newcomer is granted the seats exactly if that
      step succeeds. */
  lemma GrantedExactlyWhenReleased(now: int, steps: seq<Step>, b: nat, i: nat, fails: bool, c: nat)
    requires var s := Run(now, steps);
             b < |s.slots| <= c && CountsOnLocks(s, b) && AboutToRelease(s, b, i) && ValidSeats(DtoOf(s, b))
    ensures var s := Run(now, steps); var s' := Run(now, steps + [Proceed(b, i, fails)]);
            && s'.slots[b].local.stored == s.slots[b].local.stored
            && (SeatLock.Lock(s'.locks, DtoOf(s, b).flight, SeatNumbers(DtoOf(s, b)), c, s'.now).result.Locked? <==>
                !fails)
  {
    hide Next, LocksFit, SeatLock.Lock, SeatLock.Release, SeatLock.Validate, SeatLock.Agree, CountsOnLocks,
        AboutToRelease;
    var s, step := Run(now, steps), Proceed(b, i, fails);
    assert (steps + [step])[..|steps|] == steps;
    LocksAlwaysFit(now, steps);
    LocksAlwaysFit(now, steps + [step]);
    var s' := Run(now, steps + [step]);
    var f, seats := DtoOf(s, b).flight, SeatNumbers(DtoOf(s, b));
    OwnsItsSeats(s, b);
    LockRelease(s, b, i, fails);
    NewcomerHasNone(s', c);
    SeatLock.ReleaseExact(s.locks, f, b, s.now);
    assert seats[0] in seats;
    SeatLock.LockAllOrNothing(s'.locks, f, seats, c, s'.now);
  }

  lemma LockRelease(s: Bookings, b: nat, i: nat, fails: bool)
    requires b < |s.slots| && AboutToRelease(s, b, i)
    ensures var s' := Next(s, Proceed(b, i, fails)); var l := s.slots[b].local;
            && s'.now == s.now
            && s'.slots == s.slots[b := if fails then s.slots[b].(local := l.(calls := l.calls[i := Ended]))
                                        else Slot(l.(calls := l.calls[i := Undoing(l.calls[i].read)]), None, true)]
            && s'.locks == if fails then s.locks else SeatLock.Release(s.locks, DtoOf(s, b).flight, b, s.now)
  {
    hide SeatLock.Release;
    var kept: seq<Flight.Event> := [];
    assert s.log + kept == s.log;
  }

  lemma OwnsItsSeats(s: Bookings, b: nat)
    requires LocksFit(s) && b < |s.slots| && CountsOnLocks(s, b) && SeatNumbers(DtoOf(s, b)) != []
    ensures SeatLock.Agree(s.locks, s.now) && Consistent(s.slots[b].local)
    ensures forall seat :: seat in SeatNumbers(DtoOf(s, b)) ==>
              && s.locks.SeatLive(DtoOf(s, b).flight, seat, s.now)
              && s.locks.seats[(DtoOf(s, b).flight, seat)].owner == b
  {
    assert HistoryFits(s.slots[b], b, s.locks, s.now);
    assert SeatLock.BookingOwnsItsSeats(s.locks, DtoOf(s, b).flight, b, s.now);
  }

  lemma NewcomerHasNone(s: Bookings, c: nat)
    requires LocksFit(s) && c >= |s.slots|
    ensures SeatLock.Agree(s.locks, s.now) && forall f :: !s.locks.BookingLive(f, c, s.now)
  {
    assert NoEntry(s.locks, c);
  }

  /** The next booking, asking for the same seats, up to the point where they are locked. */
  function NextBooking(s: Bookings, dto: Dto): seq<Step> {
    var c := |s.slots|;
    [Start(dto), Advance(c, NoFault), Advance(c, NoFault), Advance(c, NoFault)]
  }

  /** A cancellation that releases the locks and then aborts, followed by the next booking for the same seats. */
  function GivenAway(s: Bookings, b: nat): seq<Step>
    requires b < |s.slots|
  {
    var i := |s.slots[b].local.calls|;
    [ReadToCancel(b), Proceed(b, i, false), Proceed(b, i, true)] + NextBooking(s, DtoOf(s, b))
  }

  /** So two live sagas do come to hold the same seats: from any state in which a booking counts on its locks, a
      cancellation that aborts leaves it as it was, and the booking that comes next locks its seats. */
  lemma AbortedCancellationGivesSeatsAway(now: int, steps: seq<Step>, b: nat)
    requires var s := Run(now, steps);
             b < |s.slots| && CountsOnLocks(s, b) && Settled(s.slots[b].local) && ValidSeats(DtoOf(s, b))
    ensures var s := Run(now, steps); var c := |s.slots|; var s' := Run(now, steps + GivenAway(s, b));
            && |s'.slots| == c + 1 && DtoOf(s', c) == DtoOf(s', b) == DtoOf(s, b)
            && s'.slots[b].local.stored == s.slots[b].local.stored
            && s'.slots[c].local.stored.saga.status == SeatsLocked && CountsOnLocks(s', c)
  {
    hide Run, Next, LocksFit, SeatLock.Lock, SeatLock.Release, SeatLock.Validate;
    var s, dto := Run(now, steps), DtoOf(Run(now, steps), b);
    var c, i := |s.slots|, |s.slots[b].local.calls|;
    var read, released, aborted := ReadToCancel(b), Proceed(b, i, false), Proceed(b, i, true);
    LocksAlwaysFit(now, steps);
    OwnsItsSeats(s, b);
    OneMoreStep(now, steps, read);
    CancellationRead(s, b);
    var s0 := Run(now, steps + [read]);
    GrantedExactlyWhenReleased(now, steps + [read], b, i, false, c);
    OneMoreStep(now, steps + [read], released);
    LockRelease(s0, b, i, false);
    var s1 := Run(now, steps + [read] + [released]);
    OneMoreStep(now, steps + [read] + [released], aborted);
    Abort(s1, b, i);
    BooksAndLocks(Next(s1, aborted), dto);
    var go := Advance(c, NoFault);
    FourMoreSteps(now, steps + [read] + [released] + [aborted], Start(dto), go, go, go);
    assert steps + [read] + [released] + [aborted] + [Start(dto), go, go, go] == steps + GivenAway(s, b);
  }

  lemma CancellationRead(s: Bookings, b: nat)
    requires b < |s.slots| && Settled(s.slots[b].local)
    ensures var s' := Next(s, ReadToCancel(b)); var l := s.slots[b].local;
            && s'.slots == s.slots[b := s.slots[b].(local := l.(calls := l.calls + [Cancelling(l.stored.saga)]))]
            && s'.locks == s.locks && s'.now == s.now
  {
    var kept: seq<Flight.Event> := [];
    assert s.log + kept == s.log;
  }

  lemma OneMoreStep(now: int, steps: seq<Step>, step: Step)
    ensures Run(now, steps + [step]) == Next(Run(now, steps), step)
  {
    hide Next;
    assert (steps + [step])[..|steps|] == steps;
  }

  lemma FourMoreSteps(now: int, steps: seq<Step>, a: Step, b: Step, c: Step, d: Step)
    ensures Run(now, steps + [a, b, c, d]) == Next(Next(Next(Next(Run(now, steps), a), b), c), d)
  {
    hide Next, Run;
    OneMoreStep(now, steps, a);
    OneMoreStep(now, steps + [a], b);
    OneMoreStep(now, steps + [a] + [b], c);
    OneMoreStep(now, steps + [a] + [b] + [c], d);
    assert steps + [a] + [b] + [c] + [d] == steps + [a, b, c, d];
  }

  lemma Abort(s: Bookings, b: nat, i: nat)
    requires b < |s.slots| && i < |s.slots[b].local.calls| && s.slots[b].local.calls[i].Undoing?
    ensures var s' := Next(s, Proceed(b, i, true)); var l := s.slots[b].local;
            && s'.slots == s.slots[b := s.slots[b].(local := l.(calls := l.calls[i := Ended]))]
            && s'.locks == s.locks && s'.now == s.now
  {
    var kept: seq<Flight.Event> := [];
    assert s.log + kept == s.log;
  }

  /** A booking that starts where its seats would be granted locks them in its first three awaits. */
  lemma BooksAndLocks(s: Bookings, dto: Dto)
    requires SeatNumbers(dto) != []
    requires SeatLock.Lock(s.locks, dto.flight, SeatNumbers(dto), |s.slots|, s.now).result.Locked?
    ensures var c := |s.slots|;
            var s' := Next(Next(Next(Next(s, Start(dto)), Advance(c, NoFault)), Advance(c, NoFault)),
                           Advance(c, NoFault));
            && |s'.slots| == c + 1 && s'.slots[..c] == s.slots && DtoOf(s', c) == dto
            && s'.slots[c].local.stored.saga.status == SeatsLocked && CountsOnLocks(s', c)
  {
    hide Next, SeatLock.Lock, SeatLock.Release, SeatLock.Validate, CountsOnLocks;
    var c := |s.slots|;
    var s1 := Next(s, Start(dto));
    Started(s, dto);
    var s2 := Next(s1, Advance(c, NoFault));
    BookingRowCreated(s1, c);
    var s3 := Next(s2, Advance(c, NoFault));
    SeatsGranted(s2, c);
    LockSaved(s3, c);
  }

  lemma Started(s: Bookings, dto: Dto)
    ensures var s' := Next(s, Start(dto));
            s'.slots == s.slots + [Slot(NewLocal(dto), None, false)] && s'.locks == s.locks && s'.now == s.now
  {}

  lemma BookingRowCreated(s: Bookings, c: nat)
    requires c < |s.slots| && s.slots[c] == Slot(NewLocal(DtoOf(s, c)), None, false)
    ensures var s' := Next(s, Advance(c, NoFault));
            && |s'.slots| == |s.slots| && s'.slots[..c] == s.slots[..c] && s'.locks == s.locks && s'.now == s.now
            && s'.slots[c].local.phase == AtStep2 && DtoOf(s', c) == DtoOf(s, c) && !s'.slots[c].released
  {
    hide BookingClass, SeatCount, Tagged;
  }

  lemma SeatsGranted(s: Bookings, c: nat)
    requires c < |s.slots| && s.slots[c].local.phase == AtStep2 && SeatNumbers(DtoOf(s, c)) != [] &&
            !s.slots[c].released
    requires LockCall(s, c).result.Locked?
    ensures var s' := Next(s, Advance(c, NoFault));
            && |s'.slots| == |s.slots| && s'.slots[..c] == s.slots[..c] && s'.now == s.now
            && s'.slots[c].local.phase == AtStep2Save && DtoOf(s', c) == DtoOf(s, c)
            && !s'.slots[c].released && s'.slots[c].lockedAt == Some(s.now)
  {
    hide SeatLock.Lock, SeatLock.Release, Tagged;
  }

  lemma LockSaved(s: Bookings, c: nat)
    requires c < |s.slots| && s.slots[c].local.phase == AtStep2Save && !s.slots[c].released &&
            s.slots[c].lockedAt == Some(s.now)
    ensures var s' := Next(s, Advance(c, NoFault));
            && |s'.slots| == |s.slots| && s'.slots[..c] == s.slots[..c] && DtoOf(s', c) == DtoOf(s, c)
            && s'.slots[c].local.stored.saga.status == SeatsLocked && CountsOnLocks(s', c)
  {
    hide SeatLock.Lock, SeatLock.Release, Tagged;
  }
}
