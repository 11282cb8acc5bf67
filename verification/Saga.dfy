/**
 The booking saga of one booking: what each step reads, stores, emits into the outbox and does to the seat
 locks, and where a failure leaves the stored rows and the copy of the saga row held in memory.

 A step that fails takes a `Fault`: `Early` fails before the in-memory copy changes or the locks are
 touched, `Late` after it. A transaction that fails stores and emits nothing in either case.
 */
module Saga {
  import opened Wrappers
  import Flight
  import SeatLock

  datatype SagaStatus = Initiated | SeatsLocked | FlightReserved | BookingConfirmed | Compensating | Compensated

  datatype BookingStatus = INITIATED | PENDING | BOOKED | CANCELLED

  /** Absent numbers and texts are 0 and "": the source treats them alike. */
  datatype Dto = Dto(flight: int, seats: nat, seatNumbers: Option<seq<string>>, seatClass: string,
                     seatPreference: string)

  datatype SagaRow = SagaRow(status: SagaStatus, step: nat)

  datatype BookingRow = BookingRow(status: BookingStatus, paid: bool, seatClass: string, seats: nat)

  /** Everything stored about one booking. */
  datatype Stored = Stored(dto: Dto, saga: SagaRow, booking: Option<BookingRow>)

  datatype Fault = NoFault | Early | Late

  datatype Outcome = Outcome(stored: Stored, mem: SagaRow, emits: seq<Flight.Kind>, unlocks: bool, ok: bool)

  const NEW_SAGA := SagaRow(Initiated, 0)

  // ---------------------------------------------------------------- reading the request

  function SeatNumbers(dto: Dto): seq<string> { if dto.seatNumbers.Some? then dto.seatNumbers.value else [] }

  function SeatCount(dto: Dto): nat {
    if dto.seats != 0 then dto.seats else if dto.seatNumbers.Some? then |dto.seatNumbers.value| else 1
  }

  /** The class written into inventory events. */
  function EventClass(dto: Dto): string { if dto.seatClass != "" then dto.seatClass else "ECONOMY" }

  /** The class written into the booking row, which also listens to the seat preference. */
  function BookingClass(dto: Dto): string {
    var preferred := SeatLock.Upper(dto.seatPreference);
    if dto.seatClass != "" then dto.seatClass
    else if dto.seatPreference != "" && Flight.GetSeatField(preferred).Some? then preferred
    else "ECONOMY"
  }

  /** A booking is charged to the class its row names, except when only a preference names another class. */
  lemma ChargedClass(dto: Dto)
    ensures EventClass(dto) == BookingClass(dto) <==>
              || dto.seatClass != ""
              || Flight.GetSeatField(SeatLock.Upper(dto.seatPreference)) in {None, Some(Flight.Economy)}
  {}

  // ---------------------------------------------------------------- the steps

  function CreateBookingRow(s: Stored, mem: SagaRow, fails: bool): Outcome {
    if mem.step >= 1 then Outcome(s, mem, [], false, true)
    else if fails then Outcome(s, mem, [], false, false)
    else
      var row := BookingRow(INITIATED, false, BookingClass(s.dto), SeatCount(s.dto));
      Outcome(s.(saga := SagaRow(Initiated, 1), booking := Some(row)), SagaRow(Initiated, 1), [Flight.CreatedNotice],
              false, true)
  }

  /** Stores that the seats are locked. An `Early` fault is a transaction that never opens, so the in-memory copy
      stays. */
  function SaveSeatsLocked(s: Stored, mem: SagaRow, fault: Fault): Outcome {
    var locked := SagaRow(SeatsLocked, 2);
    match fault
    case Early => Outcome(s, mem, [], false, false)
    case Late => Outcome(s, locked, [], false, false)
    case NoFault => Outcome(s.(saga := locked), locked, [], false, true)
  }

  function WithStatus(booking: Option<BookingRow>, status: BookingStatus): Option<BookingRow> {
    if booking.Some? then Some(booking.value.(status := status)) else None
  }

  function ReserveSeats(s: Stored, mem: SagaRow, fault: Fault): Outcome {
    var reserved := SagaRow(FlightReserved, 3);
    if mem.step >= 3 then Outcome(s, mem, [], false, true)
    else
      match fault
      case Early => Outcome(s, mem, [], false, false)
      case Late => Outcome(s, reserved, [], false, false)
      case NoFault =>
        Outcome(s.(saga := reserved, booking := WithStatus(s.booking, PENDING)), reserved, [Flight.Reserve], false,
                true)
  }

  /** What the transaction of a compensation makes of the rows, told by the in-memory copy alone. */
  function Undone(s: Stored, mem: SagaRow): Stored {
    s.(saga := SagaRow(Compensated, mem.step), booking := WithStatus(s.booking, CANCELLED))
  }

  function UndoEvents(mem: SagaRow): seq<Flight.Kind> { if mem.step >= 3 then [Flight.Release] else [] }

  /** Compensation trusts the in-memory copy. A `Late` fault comes after the seat locks are gone. Its errors are
      swallowed. */
  function Compensate(s: Stored, mem: SagaRow, fault: Fault): Outcome {
    if mem.status == Compensated then Outcome(s, mem, [], false, true)
    else
      match fault
      case Early => Outcome(s, mem.(status := Compensating), [], false, false)
      case Late => Outcome(s, mem.(status := Compensating), [], mem.step >= 2, false)
      case NoFault => Outcome(Undone(s, mem), SagaRow(Compensated, mem.step), UndoEvents(mem), mem.step >= 2, true)
  }

  /** What the transaction of a completion makes of the rows, whatever they are. */
  function Confirmed(s: Stored): Stored {
    var booking := if s.booking.Some? then Some(s.booking.value.(status := BOOKED, paid := true)) else None;
    s.(saga := SagaRow(BookingConfirmed, 6), booking := booking)
  }

  /** Completion trusts the row it has read. An `Early` fault aborts the transaction; a `Late` one is the lock
      release failing after it committed. */
  function Complete(s: Stored, read: SagaRow, fault: Fault): Outcome {
    if read.status == BookingConfirmed then Outcome(s, read, [], false, true)
    else if fault == Early then Outcome(s, read, [], false, false)
    else
      Outcome(Confirmed(s), SagaRow(BookingConfirmed, 6), [Flight.Confirm, Flight.ConfirmedNotice], fault == NoFault,
              fault == NoFault)
  }

  function Cancel(s: Stored, fault: Fault): Outcome { Compensate(s, s.saga, fault) }

  // ---------------------------------------------------------------- a booking with everything that runs on it

  /** Where the call that executes a saga stands between two of its awaits. */
  datatype Phase = Idle | AtStep1 | AtStep2 | AtStep2Save | AtStep3 | AtCompensate | AtUndo

  /** A completion or cancellation under way, with the saga row it read as it began. */
  datatype Call =
    | Completing(read: SagaRow)   // its transaction comes next
    | Unlocking                   // it has committed and its lock release comes next
    | Cancelling(read: SagaRow)   // its transaction opens next and releases the locks
    | Undoing(read: SagaRow)      // its locks are released and its transaction commits next
    | Ended

  /** The rows, the saga call with its in-memory copy, and the other calls in the order in which they began. */
  datatype Local = Local(stored: Stored, phase: Phase, mem: SagaRow, calls: seq<Call>)

  datatype LocalOutcome = LocalOutcome(after: Local, emits: seq<Flight.Kind>, unlocks: bool)

  function NewLocal(dto: Dto): Local { Local(Stored(dto, NEW_SAGA, None), AtStep1, NEW_SAGA, []) }

  /** The next await of the running saga. `granted` is the answer of the seat locks, which step 2 alone asks. */
  function Advance(l: Local, granted: bool, fault: Fault): LocalOutcome {
    match l.phase
    case Idle => LocalOutcome(l, [], false)
    case AtStep1 =>
      var o := CreateBookingRow(l.stored, l.mem, fault != NoFault);
      LocalOutcome(l.(stored := o.stored, phase := if o.ok then AtStep2 else Idle, mem := o.mem), o.emits, false)
    case AtStep2 => LocalOutcome(l.(phase := if granted then AtStep2Save else AtCompensate), [], false)
    case AtStep2Save =>
      var o := SaveSeatsLocked(l.stored, l.mem, fault);
      LocalOutcome(l.(stored := o.stored, phase := if o.ok then AtStep3 else AtCompensate, mem := o.mem), o.emits,
                   false)
    case AtStep3 =>
      var o := ReserveSeats(l.stored, l.mem, fault);
      LocalOutcome(l.(stored := o.stored, phase := if o.ok then Idle else AtCompensate, mem := o.mem), o.emits, false)
    case AtCompensate =>
      if l.mem.status == Compensated || fault != NoFault then LocalOutcome(l.(phase := Idle), [], false)
      else LocalOutcome(l.(phase := AtUndo), [], l.mem.step >= 2)
    case AtUndo =>
      if fault != NoFault then LocalOutcome(l.(phase := Idle), [], false)
      else LocalOutcome(l.(stored := Undone(l.stored, l.mem), phase := Idle), UndoEvents(l.mem), false)
  }

  /** Completions and cancellations find their booking row first, and begin only when its saga is not running. */
  predicate Settled(l: Local) { l.phase == Idle && l.stored.booking.Some? }

  function BeginCall(l: Local, call: Call): LocalOutcome {
    LocalOutcome(if Settled(l) then l.(calls := l.calls + [call]) else l, [], false)
  }

  /** The next await of call `i`; a call that fails, or is never heard of again, has no further effect. */
  function Proceed(l: Local, i: nat, fails: bool): LocalOutcome {
    if i >= |l.calls| then LocalOutcome(l, [], false)
    else
      var ended := l.(calls := l.calls[i := Ended]);
      match l.calls[i]
      case Completing(read) =>
        if read.status == BookingConfirmed || fails then LocalOutcome(ended, [], false)
        else LocalOutcome(l.(stored := Confirmed(l.stored), calls := l.calls[i := Unlocking]),
                          [Flight.Confirm, Flight.ConfirmedNotice], false)
      case Unlocking => LocalOutcome(ended, [], !fails)
      case Cancelling(read) =>
        if read.status == Compensated || fails then LocalOutcome(ended, [], false)
        else LocalOutcome(l.(calls := l.calls[i := Undoing(read)]), [], read.step >= 2)
      case Undoing(read) =>
        if fails then LocalOutcome(ended, [], false)
        else LocalOutcome(ended.(stored := Undone(l.stored, read)), UndoEvents(read), false)
      case Ended => LocalOutcome(l, [], false)
  }

  /** Everything that can happen to one booking. A crash loses the in-memory copy and leaves the rows. */
  datatype Move =
    | Advances(granted: bool, fault: Fault)
    | ReadsToComplete
    | ReadsToCancel
    | Proceeds(i: nat, fails: bool)
    | Crashes

  function Make(l: Local, m: Move): LocalOutcome {
    match m
    case Advances(granted, fault) => Advance(l, granted, fault)
    case ReadsToComplete => BeginCall(l, Completing(l.stored.saga))
    case ReadsToCancel => BeginCall(l, Cancelling(l.stored.saga))
    case Proceeds(i, fails) => Proceed(l, i, fails)
    case Crashes => LocalOutcome(l.(phase := Idle), [], false)
  }

  // ---------------------------------------------------------------- commits

  /** The transaction of a completion commits. */
  predicate Completes(l: Local, m: Move) {
    && m.Proceeds? && !m.fails && m.i < |l.calls| && l.calls[m.i].Completing?
    && l.calls[m.i].read.status != BookingConfirmed
  }

  /** The transaction of a cancellation commits. */
  predicate Cancels(l: Local, m: Move) { m.Proceeds? && !m.fails && m.i < |l.calls| && l.calls[m.i].Undoing? }

  /** A call commits although the saga row is no longer the one it read. */
  predicate CommitsStale(l: Local, m: Move) {
    (Completes(l, m) || Cancels(l, m)) && l.calls[m.i].read != l.stored.saga
  }

  /** A call commits what another call has committed already: it confirms a confirmed booking, or releases the seats
      of a cancelled one. */
  predicate Repeats(l: Local, m: Move) {
    || (Completes(l, m) && l.stored.saga.status == BookingConfirmed)
    || (Cancels(l, m) && l.stored.saga.status == Compensated && l.calls[m.i].read.step >= 3)
  }

  // ---------------------------------------------------------------- the rows agree

  /** The saga row and the booking row of a booking tell the same story, and no compensation is ever stored half
      done. */
  predicate RowsAgree(s: Stored) {
    && s.saga.status != Compensating
    && (s.booking.None? <==> s.saga.step == 0)
    && match s.saga.status
       case Initiated =>
         s.saga.step <= 1 && (s.booking.Some? ==> s.booking.value.status == INITIATED && !s.booking.value.paid)
       case SeatsLocked => s.saga.step == 2 && s.booking.value.status == INITIATED && !s.booking.value.paid
       case FlightReserved => s.saga.step == 3 && s.booking.value.status == PENDING && !s.booking.value.paid
       case BookingConfirmed => s.saga.step == 6 && s.booking.value.status == BOOKED && s.booking.value.paid
       case Compensated => s.booking.Some? && s.booking.value.status == CANCELLED
       case Compensating => false
  }

  /** What the running saga remembers, against what is stored. */
  predicate MemoryAgrees(l: Local) {
    match l.phase
    case Idle => true
    case AtStep1 => l.mem == l.stored.saga == NEW_SAGA
    case AtStep2 => l.mem == l.stored.saga == SagaRow(Initiated, 1)
    case AtStep2Save => l.mem == l.stored.saga == SagaRow(Initiated, 1)
    case AtStep3 => l.mem == l.stored.saga == SagaRow(SeatsLocked, 2)
    case _ =>
      || (l.mem == l.stored.saga && l.mem in {SagaRow(Initiated, 1), SagaRow(SeatsLocked, 2)})
      || (l.mem == SagaRow(SeatsLocked, 2) && l.stored.saga == SagaRow(Initiated, 1))
      || (l.mem == SagaRow(FlightReserved, 3) && l.stored.saga == SagaRow(SeatsLocked, 2))
  }

  /** What the calls have read. */
  predicate CallsAgree(l: Local) {
    && (l.calls != [] ==> Settled(l))
    && forall i :: 0 <= i < |l.calls| ==>
         match l.calls[i]
         case Completing(read) => read.step >= 1
         case Cancelling(read) => read.step >= 1
         case Undoing(read) => read.step >= 1 && read.status != Compensated
         case _ => true
  }

  predicate Consistent(l: Local) { RowsAgree(l.stored) && MemoryAgrees(l) && CallsAgree(l) }

  lemma MovesKeepConsistent(l: Local, m: Move)
    requires Consistent(l)
    ensures Consistent(Make(l, m).after) && Make(l, m).after.stored.dto == l.stored.dto
  {
    hide Consistent, Make;
    if m.Advances? {
      AdvanceKeepsConsistent(l, m);
    } else {
      CallsKeepConsistent(l, m);
    }
  }

  lemma AdvanceKeepsConsistent(l: Local, m: Move)
    requires m.Advances? && Consistent(l)
    ensures Consistent(Make(l, m).after) && Make(l, m).after.stored.dto == l.stored.dto
  {
    hide BookingClass, SeatCount;
  }

  lemma CallsKeepConsistent(l: Local, m: Move)
    requires !m.Advances? && Consistent(l)
    ensures Consistent(Make(l, m).after) && Make(l, m).after.stored.dto == l.stored.dto
  {
    if m.Proceeds? {
      ProceedKeepsConsistent(l, m.i, m.fails);
    }
  }

  lemma ProceedKeepsConsistent(l: Local, i: nat, fails: bool)
    requires Consistent(l)
    ensures Consistent(Proceed(l, i, fails).after) && Proceed(l, i, fails).after.stored.dto == l.stored.dto
  {}

  // ---------------------------------------------------------------- the events of one booking

  /** The events meant for the inventory. */
  function Inventory(es: seq<Flight.Kind>): seq<Flight.Kind> {
    if es == [] then []
    else Inventory(es[..|es| - 1]) + if es[|es| - 1].ForInventory() then [es[|es| - 1]] else []
  }

  predicate StartsReserved(es: seq<Flight.Kind>) { es != [] && es[0] == Flight.Reserve }

  /** An optional reserve, then confirms and releases. */
  predicate Shaped(es: seq<Flight.Kind>) {
    forall i :: 0 <= i < |es| ==> es[i].Confirm? || es[i].Release? || (i == 0 && es[i].Reserve?)
  }

  /** How often an event repeats the one before it. */
  function Stutters(es: seq<Flight.Kind>): nat {
    if |es| < 2 then 0 else Stutters(es[..|es| - 1]) + if es[|es| - 1] == es[|es| - 2] then 1 else 0
  }

  /** An optional reserve, then confirms and releases in strict alternation. */
  predicate InLanguage(es: seq<Flight.Kind>) {
    Shaped(es) && forall i :: 0 <= i < |es| - 1 ==> es[i] != es[i + 1]
  }

  lemma {:induction false} LanguageIsStutterFree(es: seq<Flight.Kind>)
    requires Shaped(es)
    ensures InLanguage(es) <==> Stutters(es) == 0
  {
    if |es| >= 2 {
      var n := |es| - 1;
      LanguageIsStutterFree(es[..n]);
      assert InLanguage(es) <==> InLanguage(es[..n]) && es[n - 1] != es[n] by {
        assert forall i :: 0 <= i < n ==> es[..n][i] == es[i];
        assert InLanguage(es) && n > 0 ==> es[n - 1] != es[n - 1 + 1];
      }
    }
  }

  /** The saga row and what the cancellations have read, against the events emitted so far. */
  predicate EventsFit(l: Local, es: seq<Flight.Kind>) {
    && Shaped(es)
    && (match l.stored.saga.status
        case BookingConfirmed => es != [] && es[|es| - 1] == Flight.Confirm
        case Compensated => StartsReserved(es) ==> es[|es| - 1] == Flight.Release
        case FlightReserved => es == [Flight.Reserve]
        case _ => es == [])
    && (StartsReserved(es) ==>
          && l.stored.saga.step >= 3
          && forall i :: 0 <= i < |l.calls| && (l.calls[i].Cancelling? || l.calls[i].Undoing?) ==>
             l.calls[i].read.step >= 3)
  }

  lemma InventoryAppend(es: seq<Flight.Kind>, more: seq<Flight.Kind>)
    requires |more| <= 2
    ensures Inventory(es + more) == Inventory(es) + Inventory(more)
  {
    if |more| == 1 {
      assert (es + more)[..|es|] == es && more[..0] == [];
    } else if |more| == 2 {
      var whole, one := es + more, es + [more[0]];
      assert whole[..|whole| - 1] == one && one[..|es|] == es;
      assert more[..1] == [more[0]] && [more[0]][..0] == [];
    } else {
      assert es + more == es;
    }
  }

  /** Everything a single move can emit. */
  lemma InventoryOfEmits()
    ensures Inventory([]) == [] && Inventory([Flight.CreatedNotice]) == []
    ensures Inventory([Flight.Reserve]) == [Flight.Reserve] && Inventory([Flight.Release]) == [Flight.Release]
    ensures Inventory([Flight.Confirm, Flight.ConfirmedNotice]) == [Flight.Confirm]
  {
    var created, reserve, release := [Flight.CreatedNotice], [Flight.Reserve], [Flight.Release];
    var confirm := [Flight.Confirm, Flight.ConfirmedNotice];
    assert created[..0] == [] && reserve[..0] == [] && release[..0] == [];
    assert confirm[..1] == [Flight.Confirm] && [Flight.Confirm][..0] == [];
  }

  /** What a move emits, told from its kind. */
  lemma EmitsOf(l: Local, m: Move)
    requires Consistent(l)
    ensures var es := Inventory(Make(l, m).emits);
            if Completes(l, m) then es == [Flight.Confirm]
            else if Cancels(l, m) then es == UndoEvents(l.calls[m.i].read)
            else if m.Advances? && l.phase == AtStep3 && m.fault == NoFault then es == [Flight.Reserve]
            else if m.Advances? && l.phase == AtUndo && m.fault == NoFault then es == UndoEvents(l.mem)
            else es == []
  {
    hide Inventory, BookingClass, SeatCount;
    InventoryOfEmits();
  }

  lemma MovesKeepEventsFit(l: Local, m: Move, es: seq<Flight.Kind>)
    requires Consistent(l) && EventsFit(l, es)
    ensures EventsFit(Make(l, m).after, es + Inventory(Make(l, m).emits))
  {
    hide Inventory, Make, Shaped, EventsFit, Consistent;
    if m.Proceeds? {
      ProceedKeepsEventsFit(l, m, es);
    } else if m.Advances? {
      AdvanceKeepsEventsFit(l, m, es);
    } else {
      BeginKeepsEventsFit(l, m, es);
    }
  }

  lemma ProceedKeepsEventsFit(l: Local, m: Move, es: seq<Flight.Kind>)
    requires m.Proceeds? && Consistent(l) && EventsFit(l, es)
    ensures EventsFit(Make(l, m).after, es + Inventory(Make(l, m).emits))
  {
    hide Inventory;
    EmitsOf(l, m);
    assert es + [] == es;
  }

  lemma AdvanceKeepsEventsFit(l: Local, m: Move, es: seq<Flight.Kind>)
    requires m.Advances? && Consistent(l) && EventsFit(l, es)
    ensures EventsFit(Make(l, m).after, es + Inventory(Make(l, m).emits))
  {
    hide Inventory, BookingClass, SeatCount;
    EmitsOf(l, m);
    assert es + [] == es;
    assert [] + [Flight.Reserve] == [Flight.Reserve];
  }

  lemma BeginKeepsEventsFit(l: Local, m: Move, es: seq<Flight.Kind>)
    requires !m.Proceeds? && !m.Advances? && Consistent(l) && EventsFit(l, es)
    ensures EventsFit(Make(l, m).after, es + Inventory(Make(l, m).emits))
  {
    hide Inventory;
    EmitsOf(l, m);
    assert es + [] == es;
  }

  // ---------------------------------------------------------------- runs of one booking

  function AfterMoves(dto: Dto, ms: seq<Move>): Local {
    if ms == [] then NewLocal(dto) else Make(AfterMoves(dto, ms[..|ms| - 1]), ms[|ms| - 1]).after
  }

  function Emitted(dto: Dto, ms: seq<Move>): seq<Flight.Kind> {
    if ms == [] then []
    else Emitted(dto, ms[..|ms| - 1]) + Inventory(Make(AfterMoves(dto, ms[..|ms| - 1]), ms[|ms| - 1]).emits)
  }

  lemma OneMoreMove(dto: Dto, ms: seq<Move>, m: Move)
    ensures AfterMoves(dto, []) == NewLocal(dto) && Emitted(dto, []) == []
    ensures AfterMoves(dto, ms + [m]) == Make(AfterMoves(dto, ms), m).after
    ensures Emitted(dto, ms + [m]) == Emitted(dto, ms) + Inventory(Make(AfterMoves(dto, ms), m).emits)
  {
    assert (ms + [m])[..|ms|] == ms;
  }

  /** In every run, with failures and crashes anywhere and calls overlapping in any way, the two rows of a booking
      agree. */
  lemma {:induction false} RowsAlwaysAgree(dto: Dto, ms: seq<Move>)
    ensures Consistent(AfterMoves(dto, ms)) && AfterMoves(dto, ms).stored.dto == dto
  {
    if ms != [] {
      RowsAlwaysAgree(dto, ms[..|ms| - 1]);
      MovesKeepConsistent(AfterMoves(dto, ms[..|ms| - 1]), ms[|ms| - 1]);
    }
  }

  /** How many moves of a run repeat a commit. */
  function RepeatCount(dto: Dto, ms: seq<Move>): nat {
    if ms == [] then 0
    else RepeatCount(dto, ms[..|ms| - 1]) + if Repeats(AfterMoves(dto, ms[..|ms| - 1]), ms[|ms| - 1]) then 1 else 0
  }

  /** How many moves of a run commit from a row that has changed since. */
  function StaleCount(dto: Dto, ms: seq<Move>): nat {
    if ms == [] then 0
    else StaleCount(dto, ms[..|ms| - 1]) + if CommitsStale(AfterMoves(dto, ms[..|ms| - 1]), ms[|ms| - 1]) then 1 else 0
  }

  /** The stutter of the events so far: none before the first call begins, one for each repetition once reserved, and
      none as long as no call has committed from a stale row. */
  predicate StutterFits(l: Local, es: seq<Flight.Kind>, repeats: nat, stale: nat) {
    && (l.phase != Idle ==> repeats == 0)
    && (StartsReserved(es) ==> Stutters(es) == repeats)
    && (stale == 0 ==>
          && Stutters(es) == 0
          && (l.stored.saga.status == Compensated && es != [] ==> es[|es| - 1] == Flight.Release))
  }

  lemma StutterMore(es: seq<Flight.Kind>, k: Flight.Kind)
    ensures Stutters(es + [k]) == Stutters(es) + if es != [] && es[|es| - 1] == k then 1 else 0
    ensures es == [] ==> Stutters(es) == 0
  {
    assert (es + [k])[..|es|] == es;
  }

  lemma MovesKeepStutterFit(l: Local, m: Move, es: seq<Flight.Kind>, repeats: nat, stale: nat)
    requires Consistent(l) && EventsFit(l, es) && StutterFits(l, es, repeats, stale)
    ensures StutterFits(Make(l, m).after, es + Inventory(Make(l, m).emits),
                        repeats + (if Repeats(l, m) then 1 else 0), stale + (if CommitsStale(l, m) then 1 else 0))
  {
    hide Inventory, Stutters, BookingClass, SeatCount;
    EmitsOf(l, m);
    var more := Inventory(Make(l, m).emits);
    if more == [] {
      assert es + more == es;
    } else {
      StutterMore(es, more[0]);
    }
  }

  /** In every run the inventory events of a booking are an optional reserve followed by confirms and releases. Once
      reserved, they repeat themselves exactly as often as a call commits what another has committed already; and as
      long as no call commits from a row that has changed since it was read, duplicate calls or not, they strictly
      alternate. */
  lemma {:induction false} EventLanguage(dto: Dto, ms: seq<Move>)
    ensures EventsFit(AfterMoves(dto, ms), Emitted(dto, ms))
    ensures StartsReserved(Emitted(dto, ms)) ==> Stutters(Emitted(dto, ms)) == RepeatCount(dto, ms)
    ensures StartsReserved(Emitted(dto, ms)) ==> (InLanguage(Emitted(dto, ms)) <==> RepeatCount(dto, ms) == 0)
    ensures StaleCount(dto, ms) == 0 ==> InLanguage(Emitted(dto, ms))
  {
    hide Make, Inventory, InLanguage;
    EventsFitTheRun(dto, ms);
    LanguageIsStutterFree(Emitted(dto, ms));
  }

  lemma {:induction false} EventsFitTheRun(dto: Dto, ms: seq<Move>)
    ensures EventsFit(AfterMoves(dto, ms), Emitted(dto, ms))
    ensures StutterFits(AfterMoves(dto, ms), Emitted(dto, ms), RepeatCount(dto, ms), StaleCount(dto, ms))
  {
    hide Make, Inventory, EventsFit, StutterFits, Repeats, CommitsStale, Consistent;
    if ms == [] {
      NothingYet(dto);
    } else {
      var before, m := ms[..|ms| - 1], ms[|ms| - 1];
      EventsFitTheRun(dto, before);
      RowsAlwaysAgree(dto, before);
      MovesKeepEventsFit(AfterMoves(dto, before), m, Emitted(dto, before));
      MovesKeepStutterFit(AfterMoves(dto, before), m, Emitted(dto, before), RepeatCount(dto, before),
                          StaleCount(dto, before));
    }
  }

  lemma NothingYet(dto: Dto)
    ensures EventsFit(NewLocal(dto), []) && StutterFits(NewLocal(dto), [], 0, 0)
  {}

  // ---------------------------------------------------------------- what rows and notices say

  /** The seats a request asks for: as many as it says, else as many as it names, else one. */
  ghost predicate AsksFor(dto: Dto, n: nat) {
    && (dto.seats > 0 ==> n == dto.seats)
    && (dto.seats == 0 && dto.seatNumbers.Some? ==> n == |dto.seatNumbers.value|)
    && (dto.seats == 0 && dto.seatNumbers.None? ==> n == 1)
  }

  /** In every run the booking row, once there is one, is for the seats and the class of its request. */
  lemma {:induction false} RowKeepsRequest(dto: Dto, ms: seq<Move>)
    ensures var row := AfterMoves(dto, ms).stored.booking;
            row.Some? ==>
              && AsksFor(dto, row.value.seats) && row.value.seats == SeatCount(dto)
              && row.value.seatClass == BookingClass(dto)
              && (dto.seatClass != "" ==> row.value.seatClass == dto.seatClass)
  {
    hide BookingClass, SeatLock.Upper, Flight.GetSeatField;
    if ms != [] {
      var l := AfterMoves(dto, ms[..|ms| - 1]);
      RowKeepsRequest(dto, ms[..|ms| - 1]);
      RowsAlwaysAgree(dto, ms[..|ms| - 1]);
      MoveKeepsRequest(l, ms[|ms| - 1]);
      NamedClassIsStored(dto);
    }
  }

  lemma NamedClassIsStored(dto: Dto)
    ensures dto.seatClass != "" ==> BookingClass(dto) == dto.seatClass
    ensures AsksFor(dto, SeatCount(dto))
  {}

  lemma MoveKeepsRequest(l: Local, m: Move)
    requires Consistent(l)
    ensures var row := Make(l, m).after.stored.booking;
            row.Some? ==>
              if l.stored.booking.Some? then
                && row.value.seats == l.stored.booking.value.seats
                && row.value.seatClass == l.stored.booking.value.seatClass
              else
                row.value.seats == SeatCount(l.stored.dto) && row.value.seatClass == BookingClass(l.stored.dto)
  {
    hide BookingClass, SeatCount;
  }

  /** How many events of a kind a run has emitted, notices included. */
  function Tally(dto: Dto, ms: seq<Move>, k: Flight.Kind): nat {
    if ms == [] then 0
    else
      Tally(dto, ms[..|ms| - 1], k) + Occurrences(Make(AfterMoves(dto, ms[..|ms| - 1]), ms[|ms| - 1]).emits, k)
  }

  function Occurrences(es: seq<Flight.Kind>, k: Flight.Kind): nat {
    if es == [] then 0 else Occurrences(es[..|es| - 1], k) + if es[|es| - 1] == k then 1 else 0
  }

  /** In every run a booking has been announced once if its row exists, and not otherwise, and there is one confirmation
      notice for each completion that committed. */
  lemma {:induction false} NoticesFit(dto: Dto, ms: seq<Move>)
    ensures Tally(dto, ms, Flight.CreatedNotice) == if AfterMoves(dto, ms).stored.booking.Some? then 1 else 0
    ensures Tally(dto, ms, Flight.ConfirmedNotice) == CompletionCount(dto, ms) == Tally(dto, ms, Flight.Confirm)
  {
    hide Make, Completes, Occurrences;
    if ms != [] {
      NoticesFit(dto, ms[..|ms| - 1]);
      RowsAlwaysAgree(dto, ms[..|ms| - 1]);
      MoveNotices(AfterMoves(dto, ms[..|ms| - 1]), ms[|ms| - 1]);
    }
  }

  lemma MoveNotices(l: Local, m: Move)
    requires Consistent(l)
    ensures var o := Make(l, m); var once := if Completes(l, m) then 1 else 0;
            && (l.stored.booking.Some? ==> o.after.stored.booking.Some?)
            && Occurrences(o.emits, Flight.CreatedNotice) ==
                 (if l.stored.booking.None? && o.after.stored.booking.Some? then 1 else 0)
            && Occurrences(o.emits, Flight.ConfirmedNotice) == Occurrences(o.emits, Flight.Confirm) == once
  {
    hide BookingClass, SeatCount, Occurrences;
    NoticesOfEmits();
  }

  lemma NoticesOfEmits()
    ensures forall k :: Occurrences([], k) == 0
    ensures forall k :: Occurrences([Flight.CreatedNotice], k) == if k == Flight.CreatedNotice then 1 else 0
    ensures forall k :: Occurrences([Flight.Reserve], k) == if k == Flight.Reserve then 1 else 0
    ensures forall k :: Occurrences([Flight.Release], k) == if k == Flight.Release then 1 else 0
    ensures forall k :: Occurrences([Flight.Confirm, Flight.ConfirmedNotice], k) ==
                          if k == Flight.Confirm || k == Flight.ConfirmedNotice then 1 else 0
  {
    var created, reserve, release := [Flight.CreatedNotice], [Flight.Reserve], [Flight.Release];
    var confirm := [Flight.Confirm, Flight.ConfirmedNotice];
    assert created[..0] == [] && reserve[..0] == [] && release[..0] == [];
    assert confirm[..1] == [Flight.Confirm] && [Flight.Confirm][..0] == [];
  }

  // ---------------------------------------------------------------- payment events without a cancellation

  /** No cancellation is under way. */
  predicate NobodyCancels(l: Local) {
    forall i :: 0 <= i < |l.calls| ==> !l.calls[i].Cancelling? && !l.calls[i].Undoing?
  }

  /** How many completions commit in a run. */
  function CompletionCount(dto: Dto, ms: seq<Move>): nat {
    if ms == [] then 0
    else
      CompletionCount(dto, ms[..|ms| - 1])
      + if Completes(AfterMoves(dto, ms[..|ms| - 1]), ms[|ms| - 1]) then 1 else 0
  }

  /** A move other than the beginning of a cancellation on a reserved or confirmed booking that nobody cancels. */
  lemma WithoutCancel(l: Local, m: Move)
    requires Consistent(l) && l.phase == Idle && l.stored.saga.status in {FlightReserved, BookingConfirmed}
    requires NobodyCancels(l) && !m.ReadsToCancel?
    ensures var confirmed := l.stored.saga.status == BookingConfirmed;
            && Make(l, m).after.phase == Idle && NobodyCancels(Make(l, m).after)
            && Make(l, m).after.stored.saga.status ==
               (if confirmed || Completes(l, m) then BookingConfirmed else FlightReserved)
            && Inventory(Make(l, m).emits) == (if Completes(l, m) then [Flight.Confirm] else [])
            && (Repeats(l, m) <==> confirmed && Completes(l, m))
  {
    hide Inventory;
    EmitsOf(l, m);
  }

  /** From a reserved booking that nobody cancels, a run of payment events, overlapping or not, emits one confirm for
      each completion that commits. Every one after the first repeats a commit, so exactly one is emitted if one
      commits and none repeats, as when each payment event reads the row after the one before it has committed. */
  lemma {:induction false} OneConfirm(dto: Dto, ms: seq<Move>, more: seq<Move>)
    requires AfterMoves(dto, ms).phase == Idle && AfterMoves(dto, ms).stored.saga.status == FlightReserved
    requires NobodyCancels(AfterMoves(dto, ms)) && forall i :: 0 <= i < |more| ==> !more[i].ReadsToCancel?
    ensures AfterMoves(dto, ms + more).phase == Idle && NobodyCancels(AfterMoves(dto, ms + more))
    ensures var commits := CompletionCount(dto, ms + more) - CompletionCount(dto, ms);
            && commits >= 0
            && Emitted(dto, ms + more) == [Flight.Reserve] + seq(commits, _ => Flight.Confirm)
            && AfterMoves(dto, ms + more).stored.saga.status ==
               (if commits > 0 then BookingConfirmed else FlightReserved)
            && RepeatCount(dto, ms + more) - RepeatCount(dto, ms) == (if commits > 0 then commits - 1 else 0)
  {
    hide Inventory, Make, NobodyCancels, Repeats, Completes, AfterMoves, Emitted, CompletionCount, RepeatCount;
    if more == [] {
      assert ms + more == ms;
      EventLanguage(dto, ms);
      assert [Flight.Reserve] + seq(0, _ => Flight.Confirm) == [Flight.Reserve];
    } else {
      var fewer, last := more[..|more| - 1], more[|more| - 1];
      OneConfirm(dto, ms, fewer);
      assert ms + more == ms + fewer + [last];
      OneMoreMove(dto, ms + fewer, last);
      OneMoreCounted(dto, ms + fewer, last);
      RowsAlwaysAgree(dto, ms + fewer);
      WithoutCancel(AfterMoves(dto, ms + fewer), last);
      var n := CompletionCount(dto, ms + fewer) - CompletionCount(dto, ms);
      ConfirmsMore(n);
    }
  }

  lemma OneMoreCounted(dto: Dto, ms: seq<Move>, m: Move)
    ensures CompletionCount(dto, ms + [m]) ==
            CompletionCount(dto, ms) + if Completes(AfterMoves(dto, ms), m) then 1 else 0
    ensures RepeatCount(dto, ms + [m]) == RepeatCount(dto, ms) + if Repeats(AfterMoves(dto, ms), m) then 1 else 0
  {
    hide Make, Completes, Repeats;
    assert (ms + [m])[..|ms|] == ms;
  }

  lemma ConfirmsMore(n: nat)
    ensures [Flight.Reserve] + seq(n, _ => Flight.Confirm) + [Flight.Confirm] ==
            [Flight.Reserve] + seq(n + 1, _ => Flight.Confirm)
    ensures [Flight.Reserve] + seq(n, _ => Flight.Confirm) + [] == [Flight.Reserve] + seq(n, _ => Flight.Confirm)
  {}

  // ---------------------------------------------------------------- seats a booking holds

  /** A reserved or confirmed booking holds its seats. */
  function Holds(s: Stored): int {
    if s.saga.status in {FlightReserved, BookingConfirmed} then 1 else 0
  }

  function Sign(k: Flight.Kind): int {
    match k case Reserve => 1 case Release => -1 case _ => 0
  }

  /** Reserves minus releases. */
  function Net(es: seq<Flight.Kind>): int {
    if es == [] then 0 else Net(es[..|es| - 1]) + Sign(es[|es| - 1])
  }

  function Releases(mem: SagaRow): int { if mem.step >= 3 then 1 else 0 }

  /** By how many seat blocks a move lets the events drift from the rows: a completion that commits on a row that
      holds no seats, a compensation that releases what the row does not hold, or one that cancels without a release
      what it does. */
  function DriftOf(l: Local, m: Move): int {
    if Completes(l, m) then 1 - Holds(l.stored)
    else if Cancels(l, m) then Releases(l.calls[m.i].read) - Holds(l.stored)
    else if m.Advances? && l.phase == AtUndo && m.fault == NoFault then Releases(l.mem) - Holds(l.stored)
    else 0
  }

  /** Every move changes what the booking holds by what its events take and by its drift. */
  lemma MoveAccounts(l: Local, m: Move)
    requires Consistent(l)
    ensures Holds(Make(l, m).after.stored) - Holds(l.stored) == Net(Make(l, m).emits) + DriftOf(l, m)
  {
    hide Net, BookingClass, SeatCount;
    NetOfEmits();
  }

  lemma NetOfEmits()
    ensures Net([]) == Net([Flight.CreatedNotice]) == Net([Flight.Confirm, Flight.ConfirmedNotice]) == 0
    ensures Net([Flight.Reserve]) == 1 && Net([Flight.Release]) == -1
  {
    var created, reserve, release := [Flight.CreatedNotice], [Flight.Reserve], [Flight.Release];
    var confirm := [Flight.Confirm, Flight.ConfirmedNotice];
    assert created[..0] == [] && reserve[..0] == [] && release[..0] == [];
    assert confirm[..1] == [Flight.Confirm] && [Flight.Confirm][..0] == [];
  }

  /** The drift of a whole run of one booking. */
  function BookingDrift(dto: Dto, ms: seq<Move>): int {
    if ms == [] then 0 else BookingDrift(dto, ms[..|ms| - 1]) + DriftOf(AfterMoves(dto, ms[..|ms| - 1]), ms[|ms| - 1])
  }

  /** The move gives seats away: a completion commits on a row that holds none, or a compensation releases what its row
      does not hold. */
  predicate Gives(l: Local, m: Move) {
    && Holds(l.stored) == 0
    && (|| Completes(l, m)
        || (Cancels(l, m) && l.calls[m.i].read.step >= 3)
        || (m.Advances? && l.phase == AtUndo && m.fault == NoFault && l.mem.step >= 3))
  }

  /** The move keeps seats back: a cancellation from a row read before any reservation ends, without a release, a
      booking that holds its seats by now. */
  predicate KeepsBack(l: Local, m: Move) {
    Holds(l.stored) == 1 && Cancels(l, m) && l.calls[m.i].read.step < 3
  }

  lemma DriftIsGivenLessKept(l: Local, m: Move)
    requires Consistent(l)
    ensures DriftOf(l, m) == (if Gives(l, m) then 1 else 0) - (if KeepsBack(l, m) then 1 else 0)
  {}

  function GiveCount(dto: Dto, ms: seq<Move>): nat {
    if ms == [] then 0
    else GiveCount(dto, ms[..|ms| - 1]) + if Gives(AfterMoves(dto, ms[..|ms| - 1]), ms[|ms| - 1]) then 1 else 0
  }

  function KeepCount(dto: Dto, ms: seq<Move>): nat {
    if ms == [] then 0
    else KeepCount(dto, ms[..|ms| - 1]) + if KeepsBack(AfterMoves(dto, ms[..|ms| - 1]), ms[|ms| - 1]) then 1 else 0
  }

  lemma NetAppend(es: seq<Flight.Kind>, k: Flight.Kind)
    ensures Net(es + [k]) == Net(es) + Sign(k)
  {
    assert (es + [k])[..|es|] == es;
  }

  /** The notices among the emitted events take no seats. */
  lemma NetOfInventory(l: Local, m: Move, es: seq<Flight.Kind>)
    requires Consistent(l)
    ensures Net(es + Inventory(Make(l, m).emits)) == Net(es) + Net(Make(l, m).emits)
  {
    hide Inventory, Net, BookingClass, SeatCount;
    InventoryOfEmits();
    NetOfEmits();
    EmitsOf(l, m);
    var more := Inventory(Make(l, m).emits);
    if more == [] {
      assert es + more == es;
    } else {
      NetAppend(es, more[0]);
    }
  }

  lemma {:induction false} NetOfShaped(es: seq<Flight.Kind>)
    requires Shaped(es)
    ensures Net(es) <= if StartsReserved(es) then 1 else 0
    ensures es != [] && es[|es| - 1] == Flight.Release ==> Net(es) <= if StartsReserved(es) then 0 else -1
  {
    if es != [] {
      NetOfShaped(es[..|es| - 1]);
    }
  }

  /** The books of one booking, over every run: what it holds is what its events have taken, plus its drift. The
      drift is the moves that give seats away less those that keep them back, and never negative; once the booking
      has been reserved no move keeps seats back, so that the drift is zero exactly when no move gives any away. */
  lemma {:induction false} DriftLaw(dto: Dto, ms: seq<Move>)
    ensures Holds(AfterMoves(dto, ms).stored) - Net(Emitted(dto, ms)) == BookingDrift(dto, ms) >= 0
    ensures BookingDrift(dto, ms) == GiveCount(dto, ms) - KeepCount(dto, ms)
    ensures StartsReserved(Emitted(dto, ms)) ==> KeepCount(dto, ms) == 0
    ensures AfterMoves(dto, ms).phase != Idle ==> GiveCount(dto, ms) == KeepCount(dto, ms) == 0
  {
    hide Make, Inventory, DriftOf, Gives, KeepsBack, Net, EventsFit, Consistent;
    EventLanguage(dto, ms);
    WithinHolds(AfterMoves(dto, ms), Emitted(dto, ms));
    if ms == [] {
      NetOfEmits();
    } else {
      var before, m := ms[..|ms| - 1], ms[|ms| - 1];
      DriftLaw(dto, before);
      EventLanguage(dto, before);
      RowsAlwaysAgree(dto, before);
      MoveAccounts(AfterMoves(dto, before), m);
      DriftIsGivenLessKept(AfterMoves(dto, before), m);
      NetOfInventory(AfterMoves(dto, before), m, Emitted(dto, before));
      DriftStep(AfterMoves(dto, before), m, Emitted(dto, before));
    }
  }

  lemma WithinHolds(l: Local, es: seq<Flight.Kind>)
    requires EventsFit(l, es)
    ensures Net(es) <= Holds(l.stored)
  {
    hide Net;
    NetOfShaped(es);
  }

  lemma DriftStep(l: Local, m: Move, es: seq<Flight.Kind>)
    requires Consistent(l) && EventsFit(l, es)
    ensures StartsReserved(es + Inventory(Make(l, m).emits)) ==> !KeepsBack(l, m)
    ensures !StartsReserved(es) && StartsReserved(es + Inventory(Make(l, m).emits)) ==> l.phase != Idle
    ensures Make(l, m).after.phase != Idle ==> l.phase != Idle && !Gives(l, m) && !KeepsBack(l, m)
  {
    hide Inventory, BookingClass, SeatCount;
    EmitsOf(l, m);
  }

  // ---------------------------------------------------------------- the ways to drift and to repeat do occur

  /** Three awaits that succeed bring a new saga to its reservation. */
  lemma ReachesReservation(dto: Dto)
    ensures var go := Advances(true, NoFault); var l := AfterMoves(dto, [go, go, go]);
            && l.phase == AtStep3 && l.mem == l.stored.saga == SagaRow(SeatsLocked, 2) && l.calls == []
            && l.stored.booking.Some?
            && Emitted(dto, [go, go, go]) == []
  {
    hide Inventory, AfterMoves, Emitted, Make, NewLocal;
    var go := Advances(true, NoFault);
    assert [] + [go] == [go] && [go] + [go] == [go, go] && [go, go] + [go] == [go, go, go];
    InventoryOfEmits();
    OneMoreMove(dto, [], go);
    FirstAwait(dto);
    OneMoreMove(dto, [go], go);
    SecondAwait(AfterMoves(dto, [go]));
    OneMoreMove(dto, [go, go], go);
  }

  lemma FirstAwait(dto: Dto)
    ensures var o := Make(NewLocal(dto), Advances(true, NoFault));
            && o.after.phase == AtStep2 && o.after.mem == o.after.stored.saga == SagaRow(Initiated, 1)
            && o.after.calls == []
            && o.after.stored.booking.Some? && o.emits == [Flight.CreatedNotice]
  {
    hide BookingClass, SeatCount;
  }

  lemma SecondAwait(l: Local)
    requires l.phase == AtStep2 && l.mem == l.stored.saga
    ensures var go := Advances(true, NoFault); var x := Make(l, go); var y := Make(x.after, go);
            && x.emits == y.emits == []
            && y.after.phase == AtStep3 && y.after.mem == y.after.stored.saga == SagaRow(SeatsLocked, 2)
            && y.after.calls == l.calls
            && y.after.stored.booking == l.stored.booking
  {}

  function Reserving(): seq<Move> {
    var go := Advances(true, NoFault);
    [go, go, go] + [go]
  }

  lemma Reserved(dto: Dto)
    ensures var l := AfterMoves(dto, Reserving());
            && l.phase == Idle && l.stored.saga == SagaRow(FlightReserved, 3) && l.calls == []
            && l.stored.booking.Some? && l.stored.booking.value.status == PENDING
            && Emitted(dto, Reserving()) == [Flight.Reserve]
  {
    hide BookingClass, SeatCount, Inventory, AfterMoves, Emitted;
    var go := Advances(true, NoFault);
    InventoryOfEmits();
    ReachesReservation(dto);
    OneMoreMove(dto, [go, go, go], go);
  }

  /** A reservation that fails after its in-memory change is compensated by a release of seats nobody reserved. */
  lemma LateFailureReleasesTheUnreserved(dto: Dto)
    ensures var go := Advances(true, NoFault);
            var ms := [go, go, go] + [Advances(true, Late)] + [go] + [go];
            && Emitted(dto, ms) == [Flight.Release]
            && AfterMoves(dto, ms).stored.saga.status == Compensated
  {
    hide BookingClass, SeatCount, Inventory, AfterMoves, Emitted;
    var go := Advances(true, NoFault);
    InventoryOfEmits();
    ReachesReservation(dto);
    OneMoreMove(dto, [go, go, go], Advances(true, Late));
    OneMoreMove(dto, [go, go, go] + [Advances(true, Late)], go);
    OneMoreMove(dto, [go, go, go] + [Advances(true, Late)] + [go], go);
  }

  /** Completion asks only whether the saga is confirmed, so a payment event after a cancellation books seats that the
      inventory has been told to give back. */
  lemma CompletionAfterCancellation(dto: Dto)
    ensures var ms := Reserving() + [ReadsToCancel] + [Proceeds(0, false)] + [Proceeds(0, false)]
                      + [ReadsToComplete] + [Proceeds(1, false)];
            && Emitted(dto, ms) == [Flight.Reserve, Flight.Release, Flight.Confirm]
            && AfterMoves(dto, ms).stored.saga.status == BookingConfirmed
            && AfterMoves(dto, ms).stored.booking.Some? && AfterMoves(dto, ms).stored.booking.value.status == BOOKED
  {
    hide BookingClass, SeatCount, Inventory, AfterMoves, Emitted, Reserving;
    InventoryOfEmits();
    Reserved(dto);
    var ms, next := Reserving(), Proceeds(0, false);
    OneMoreMove(dto, ms, ReadsToCancel);
    OneMoreMove(dto, ms + [ReadsToCancel], next);
    OneMoreMove(dto, ms + [ReadsToCancel] + [next], next);
    OneMoreMove(dto, ms + [ReadsToCancel] + [next] + [next], ReadsToComplete);
    OneMoreMove(dto, ms + [ReadsToCancel] + [next] + [next] + [ReadsToComplete], Proceeds(1, false));
  }

  /** Two payment events that both read the reserved row confirm twice. */
  lemma OverlappingCompletions(dto: Dto)
    ensures Emitted(dto, Reserving() + [ReadsToComplete] + [ReadsToComplete] + [Proceeds(0, false)] +
                    [Proceeds(1, false)])
              == [Flight.Reserve, Flight.Confirm, Flight.Confirm]
  {
    hide BookingClass, SeatCount, Inventory, AfterMoves, Emitted, Reserving;
    InventoryOfEmits();
    Reserved(dto);
    var ms, read := Reserving(), ReadsToComplete;
    OneMoreMove(dto, ms, read);
    OneMoreMove(dto, ms + [read], read);
    OneMoreMove(dto, ms + [read] + [read], Proceeds(0, false));
    OneMoreMove(dto, ms + [read] + [read] + [Proceeds(0, false)], Proceeds(1, false));
  }

  lemma BothRelease(l: Local)
    requires Settled(l) && l.calls == [] && l.stored.saga == SagaRow(FlightReserved, 3)
    ensures var a := Make(l, ReadsToCancel); var b := Make(a.after, ReadsToCancel);
            var c := Make(b.after, Proceeds(0, false)); var d := Make(c.after, Proceeds(1, false));
            var e := Make(d.after, Proceeds(0, false)); var z := Make(e.after, Proceeds(1, false));
            && a.emits == b.emits == c.emits == d.emits == [] && e.emits == z.emits == [Flight.Release]
            && z.after.stored.saga.status == Compensated
  {}

  /** Two cancellations that both read the reserved row release its seats twice. */
  lemma OverlappingCancellations(dto: Dto)
    ensures var ms := Reserving() + [ReadsToCancel] + [ReadsToCancel] + [Proceeds(0, false)] + [Proceeds(1, false)]
                      + [Proceeds(0, false)] + [Proceeds(1, false)];
            Emitted(dto, ms) == [Flight.Reserve, Flight.Release, Flight.Release] && BookingDrift(dto, ms) == 1
  {
    hide Make, Inventory, AfterMoves, Emitted, Reserving, BookingDrift, Net;
    InventoryOfEmits();
    Reserved(dto);
    var ms, read, p, q := Reserving(), ReadsToCancel, Proceeds(0, false), Proceeds(1, false);
    BothRelease(AfterMoves(dto, ms));
    OneMoreMove(dto, ms, read);
    OneMoreMove(dto, ms + [read], read);
    OneMoreMove(dto, ms + [read] + [read], p);
    OneMoreMove(dto, ms + [read] + [read] + [p], q);
    OneMoreMove(dto, ms + [read] + [read] + [p] + [q], p);
    OneMoreMove(dto, ms + [read] + [read] + [p] + [q] + [p], q);
    NetOfEmits();
    DriftLaw(dto, ms + [read] + [read] + [p] + [q] + [p] + [q]);
    NetAppend([Flight.Reserve], Flight.Release);
    NetAppend([Flight.Reserve, Flight.Release], Flight.Release);
    assert [Flight.Reserve] + [Flight.Release] == [Flight.Reserve, Flight.Release];
    assert [Flight.Reserve, Flight.Release] + [Flight.Release] == [Flight.Reserve, Flight.Release, Flight.Release];
  }
}
