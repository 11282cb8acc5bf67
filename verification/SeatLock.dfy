/**
 Seat locks: one key per locked seat naming its owner, and one key per booking listing its seats, each
 with a time to live. A key is visible until the instant its time to live has run out. Times are
 milliseconds of one clock. Seats are compared as the raw strings the caller passed.
 */
module SeatLock {
  import opened Wrappers

  type Seat = string
  type BookingId = nat

  /** LOCK_TTL, 900 seconds, in milliseconds. */
  const LOCK_MS: int := 900000

  datatype SeatEntry = SeatEntry(owner: BookingId, expiresAt: int, end: int)

  datatype BookingEntry = BookingEntry(seats: seq<Seat>, timestamp: int, end: int)

  datatype Store = Store(seats: map<(int, Seat), SeatEntry>, bookings: map<(int, BookingId), BookingEntry>) {
    predicate SeatLive(flight: int, seat: Seat, now: int) {
      (flight, seat) in seats && now < seats[(flight, seat)].end
    }

    predicate BookingLive(flight: int, booking: BookingId, now: int) {
      (flight, booking) in bookings && now < bookings[(flight, booking)].end
    }
  }

  const EMPTY := Store(map[], map[])

  datatype LockError = DuplicateSeats | InvalidSeats

  datatype LockResult =
    | Locked(seats: seq<Seat>, expiresAt: int)
    | Refused(failedSeats: seq<Seat>)
    | Rejected(error: LockError)

  // ---------------------------------------------------------------- validation of seat numbers

  predicate Blank(c: char) { c == ' ' || c == '\t' || c == '\n' || c == '\r' || c == '\U{0B}' || c == '\U{0C}' }

  function Trim(s: string): string {
    if s != [] && Blank(s[0]) then Trim(s[1..])
    else if s != [] && Blank(s[|s| - 1]) then Trim(s[..|s| - 1])
    else s
  }

  function Upper(s: string): string {
    seq(|s|, i requires 0 <= i < |s| => if 'a' <= s[i] <= 'z' then (s[i] as int - 32) as char else s[i])
  }

  function Normalize(s: Seat): string { Upper(Trim(s)) }

  /** The normalised seats, blank ones dropped. */
  function Normalized(seats: seq<Seat>): seq<string> {
    if seats == [] then []
    else
      var n := Normalize(seats[|seats| - 1]);
      Normalized(seats[..|seats| - 1]) + if n == "" then [] else [n]
  }

  predicate Digit(c: char) { '0' <= c <= '9' }

  /** A row of one to three digits not starting with 0, then one letter. */
  predicate SeatPattern(s: string) {
    && 2 <= |s| <= 4
    && '1' <= s[0] <= '9'
    && (forall i :: 1 <= i < |s| - 1 ==> Digit(s[i]))
    && 'A' <= s[|s| - 1] <= 'Z'
  }

  function Validate(seats: seq<Seat>): Option<LockError> {
    var ns := Normalized(seats);
    if exists i, j :: 0 <= i < j < |ns| && ns[i] == ns[j] then Some(DuplicateSeats)
    else if exists n :: n in ns && !SeatPattern(n) then Some(InvalidSeats)
    else None
  }

  // ---------------------------------------------------------------- the operations on the store

  /** Held by another booking whose recorded expiry is still ahead. */
  predicate Taken(st: Store, flight: int, seat: Seat, booking: BookingId, now: int) {
    && st.SeatLive(flight, seat, now)
    && st.seats[(flight, seat)].owner != booking
    && st.seats[(flight, seat)].expiresAt > now
  }

  function FailedSeats(st: Store, flight: int, seats: seq<Seat>, booking: BookingId, now: int): seq<Seat> {
    if seats == [] then []
    else
      FailedSeats(st, flight, seats[..|seats| - 1], booking, now)
      + if Taken(st, flight, seats[|seats| - 1], booking, now) then [seats[|seats| - 1]] else []
  }

  function WriteSeats(m: map<(int, Seat), SeatEntry>, flight: int, seats: seq<Seat>, e: SeatEntry): map<(int, Seat),
                      SeatEntry> {
    m + map s | s in seats :: (flight, s) := e
  }

  lemma WriteOneMore(m: map<(int, Seat), SeatEntry>, flight: int, seats: seq<Seat>, seat: Seat, e: SeatEntry)
    ensures WriteSeats(m, flight, seats + [seat], e) == WriteSeats(m, flight, seats, e)[(flight, seat) := e]
  {
    hide WriteSeats;
    var longer, one := WriteSeats(m, flight, seats + [seat], e), WriteSeats(m, flight, seats, e)[(flight, seat) := e];
    forall k: (int, Seat) ensures k in longer <==> k in one {
      WriteSeatsAt(m, flight, seats + [seat], e, k);
      WriteSeatsAt(m, flight, seats, e, k);
    }
    forall k | k in longer ensures longer[k] == one[k] {
      WriteSeatsAt(m, flight, seats + [seat], e, k);
      WriteSeatsAt(m, flight, seats, e, k);
    }
  }

  lemma WriteSeatsAt(m: map<(int, Seat), SeatEntry>, flight: int, seats: seq<Seat>, e: SeatEntry, k: (int, Seat))
    ensures var written := k.0 == flight && k.1 in seats;
            && (k in WriteSeats(m, flight, seats, e) <==> k in m || written)
            && (k in WriteSeats(m, flight, seats, e) ==>
                WriteSeats(m, flight, seats, e)[k] == if written then e else m[k])
  {}

  function WriteLock(st: Store, flight: int, seats: seq<Seat>, booking: BookingId, now: int): Store {
    var end := now + LOCK_MS;
    Store(WriteSeats(st.seats, flight, seats, SeatEntry(booking, end, end)),
          st.bookings[(flight, booking) := BookingEntry(seats, now, end)])
  }

  datatype LockOutcome = LockOutcome(store: Store, result: LockResult)

  function Lock(st: Store, flight: int, seats: seq<Seat>, booking: BookingId, now: int): LockOutcome {
    if Validate(seats).Some? then LockOutcome(st, Rejected(Validate(seats).value))
    else if st.BookingLive(flight, booking, now) then
      var e := st.bookings[(flight, booking)];
      LockOutcome(st, Locked(e.seats, e.timestamp + LOCK_MS))
    else if seats == [] then LockOutcome(st, Locked([], now + LOCK_MS))
    else
      var failed := FailedSeats(st, flight, seats, booking, now);
      if failed == [] then LockOutcome(WriteLock(st, flight, seats, booking, now), Locked(seats, now + LOCK_MS))
      else LockOutcome(st, Refused(failed))
  }

  function Release(st: Store, flight: int, booking: BookingId, now: int): Store {
    if st.BookingLive(flight, booking, now) then
      Store(st.seats - (set s | s in st.bookings[(flight, booking)].seats :: (flight, s)),
            st.bookings - {(flight, booking)})
    else st
  }

  /** What is left of a time to live, in whole seconds, rounded as the store rounds it. */
  function Ttl(end: int, now: int): int { (end - now + 500) / 1000 }

  function ExtendEnd(end: int, now: int, extra: nat): int {
    if now < end && Ttl(end, now) > 0 then now + (Ttl(end, now) + extra) * 1000 else end
  }

  /** Moves the times to live of a booking's keys; the expiry recorded inside the keys stays. */
  function Extend(st: Store, flight: int, booking: BookingId, extra: nat, now: int): Store {
    if st.BookingLive(flight, booking, now) then
      var e := st.bookings[(flight, booking)];
      Store(map k | k in st.seats ::
              if k.0 == flight && k.1 in e.seats then st.seats[k].(end := ExtendEnd(st.seats[k].end, now, extra))
              else st.seats[k],
            st.bookings[(flight, booking) := e.(end := ExtendEnd(e.end, now, extra))])
    else st
  }

  function Locks(st: Store, flight: int, seats: seq<Seat>, now: int): map<Seat, bool> {
    map s | s in seats :: st.SeatLive(flight, s, now)
  }

  // ---------------------------------------------------------------- the service

  class SeatLockService {
    var seats: map<(int, Seat), SeatEntry>
    var bookings: map<(int, BookingId), BookingEntry>

    function View(): Store
      reads this
    {
      Store(seats, bookings)
    }

    constructor ()
      ensures View() == EMPTY
    {
      seats, bookings := map[], map[];
    }

    /** The script's first loop. */
    method FindFailed(flight: int, booking: BookingId, timestamp: int, requested: seq<Seat>) returns (failed: seq<Seat>)
      ensures failed == FailedSeats(View(), flight, requested, booking, timestamp)
    {
      failed := [];
      for i := 0 to |requested|
        invariant failed == FailedSeats(View(), flight, requested[..i], booking, timestamp)
      {
        var key := (flight, requested[i]);
        assert requested[..i + 1][..i] == requested[..i];
        if key in seats && timestamp < seats[key].end {
          if seats[key].owner != booking && seats[key].expiresAt > timestamp {
            failed := failed + [requested[i]];
          }
        }
      }
      assert requested[..|requested|] == requested;
    }

    /** The script: check every seat, then write every seat and the booking, or nothing. */
    method Eval(flight: int, booking: BookingId, timestamp: int, requested: seq<Seat>)
      returns (success: bool, failed: seq<Seat>)
      modifies this
      ensures failed == FailedSeats(old(View()), flight, requested, booking, timestamp)
      ensures success == (failed == [])
      ensures View() == if success then WriteLock(old(View()), flight, requested, booking, timestamp) else old(View())
    {
      hide FailedSeats;
      failed := FindFailed(flight, booking, timestamp, requested);
      success := failed == [];
      if success {
        var entry := SeatEntry(booking, timestamp + LOCK_MS, timestamp + LOCK_MS);
        assert seats == WriteSeats(old(seats), flight, [], entry);
        for i := 0 to |requested|
          invariant seats == WriteSeats(old(seats), flight, requested[..i], entry)
          invariant bookings == old(bookings)
        {
          hide WriteSeats;
          WriteOneMore(old(seats), flight, requested[..i], requested[i], entry);
          assert requested[..i + 1] == requested[..i] + [requested[i]];
          seats := seats[(flight, requested[i]) := entry];
        }
        assert requested[..|requested|] == requested;
        bookings := bookings[(flight, booking) := BookingEntry(requested, timestamp, timestamp + LOCK_MS)];
      }
    }

    method LockSeats(flight: int, requested: seq<Seat>, booking: BookingId, timestamp: int) returns (r: LockResult)
      modifies this
      ensures LockOutcome(View(), r) == Lock(old(View()), flight, requested, booking, timestamp)
    {
      var invalid := Validate(requested);
      if invalid.Some? {
        return Rejected(invalid.value);
      }
      if View().BookingLive(flight, booking, timestamp) {
        var existing := bookings[(flight, booking)];
        return Locked(existing.seats, existing.timestamp + LOCK_MS);
      }
      if requested == [] {
        return Locked([], timestamp + LOCK_MS);
      }
      var success, failed := Eval(flight, booking, timestamp, requested);
      if success {
        return Locked(requested, timestamp + LOCK_MS);
      }
      return Refused(failed);
    }

    method ReleaseSeats(flight: int, booking: BookingId, now: int)
      modifies this
      ensures View() == Release(old(View()), flight, booking, now)
    {
      if !View().BookingLive(flight, booking, now) {
        return;
      }
      var listed := bookings[(flight, booking)].seats;
      for i := 0 to |listed|
        invariant seats == old(seats) - set s | s in listed[..i] :: (flight, s)
        invariant bookings == old(bookings)
      {
        seats := seats - {(flight, listed[i])};
      }
      assert listed[..|listed|] == listed;
      bookings := bookings - {(flight, booking)};
    }

    method ExtendLock(flight: int, booking: BookingId, extra: nat, now: int) returns (extended: bool)
      modifies this
      ensures View() == Extend(old(View()), flight, booking, extra, now)
      ensures extended == old(View()).BookingLive(flight, booking, now)
    {
      if !View().BookingLive(flight, booking, now) {
        return false;
      }
      var e := bookings[(flight, booking)];
      var ends := map k | k in seats && k.0 == flight && k.1 in e.seats :: ExtendEnd(seats[k].end, now, extra);
      seats := map k | k in seats :: if k in ends then seats[k].(end := ends[k]) else seats[k];
      bookings := bookings[(flight, booking) := e.(end := ExtendEnd(e.end, now, extra))];
      return true;
    }

    method AreSeatsLocked(flight: int, queried: seq<Seat>, now: int) returns (result: map<Seat, bool>)
      ensures result == Locks(View(), flight, queried, now)
    {
      result := map[];
      for i := 0 to |queried|
        invariant result == Locks(View(), flight, queried[..i], now)
      {
        result := result[queried[i] := View().SeatLive(flight, queried[i], now)];
      }
      assert queried[..|queried|] == queried;
    }
  }

  // ---------------------------------------------------------------- the two indexes agree

  /** Every live booking key owns each of its seats until the same instant, and every live seat key is listed by its
      owner. */
  ghost predicate Agree(st: Store, now: int) {
    && (forall f, b: BookingId :: st.BookingLive(f, b, now) ==> BookingOwnsItsSeats(st, f, b, now))
    && (forall f, s :: st.SeatLive(f, s, now) ==> OwnerListsSeat(st, f, s, now))
  }

  predicate BookingOwnsItsSeats(st: Store, f: int, b: BookingId, now: int)
    requires st.BookingLive(f, b, now)
  {
    var e := st.bookings[(f, b)];
    && e.end == e.timestamp + LOCK_MS
    && forall s :: s in e.seats ==> st.SeatLive(f, s, now) && st.seats[(f, s)] == SeatEntry(b, e.end, e.end)
  }

  predicate OwnerListsSeat(st: Store, f: int, s: Seat, now: int)
    requires st.SeatLive(f, s, now)
  {
    var owner := st.seats[(f, s)].owner;
    st.BookingLive(f, owner, now) && s in st.bookings[(f, owner)].seats
  }

  datatype Action =
    | LockSeats(flight: int, seats: seq<Seat>, booking: BookingId)
    | ReleaseSeats(flight: int, booking: BookingId)
    | Wait(ms: nat)

  datatype Clocked = Clocked(store: Store, now: int)

  function Perform(c: Clocked, a: Action): Clocked {
    match a
    case LockSeats(f, seats, b) => c.(store := Lock(c.store, f, seats, b, c.now).store)
    case ReleaseSeats(f, b) => c.(store := Release(c.store, f, b, c.now))
    case Wait(ms) => c.(now := c.now + ms)
  }

  function Run(c: Clocked, actions: seq<Action>): Clocked {
    if actions == [] then c else Perform(Run(c, actions[..|actions| - 1]), actions[|actions| - 1])
  }

  lemma {:induction false} FailedSeatsAre(st: Store, f: int, seats: seq<Seat>, b: BookingId, now: int)
    ensures forall s :: s in FailedSeats(st, f, seats, b, now) <==> s in seats && Taken(st, f, s, b, now)
  {
    if seats != [] {
      FailedSeatsAre(st, f, seats[..|seats| - 1], b, now);
      assert seats == seats[..|seats| - 1] + [seats[|seats| - 1]];
    }
  }

  lemma AgreeLater(st: Store, now: int, later: int)
    requires Agree(st, now) && now <= later
    ensures Agree(st, later)
  {
    forall f, b: BookingId | st.BookingLive(f, b, later) ensures BookingOwnsItsSeats(st, f, b, later) {
      assert BookingOwnsItsSeats(st, f, b, now);
    }
    forall f, s | st.SeatLive(f, s, later) ensures OwnerListsSeat(st, f, s, later) {
      assert OwnerListsSeat(st, f, s, now);
      assert BookingOwnsItsSeats(st, f, st.seats[(f, s)].owner, now);
    }
  }

  lemma AgreeWritten(st: Store, f: int, seats: seq<Seat>, b: BookingId, now: int)
    requires Agree(st, now) && !st.BookingLive(f, b, now)
    requires FailedSeats(st, f, seats, b, now) == []
    ensures Agree(WriteLock(st, f, seats, b, now), now)
  {
    hide FailedSeats;
    var st' := WriteLock(st, f, seats, b, now);
    LiveSeatsAreTaken(st, f, seats, b, now);
    forall f', b': BookingId | st'.BookingLive(f', b', now) ensures BookingOwnsItsSeats(st', f', b', now) {
      if (f', b') != (f, b) {
        assert BookingOwnsItsSeats(st, f', b', now);
      }
    }
    forall f', s | st'.SeatLive(f', s, now) ensures OwnerListsSeat(st', f', s, now) {
      if f' != f || s !in seats {
        assert OwnerListsSeat(st, f', s, now);
      }
    }
  }

  lemma AgreeReleased(st: Store, f: int, b: BookingId, now: int)
    requires Agree(st, now)
    ensures Agree(Release(st, f, b, now), now)
  {
    if st.BookingLive(f, b, now) {
      var st', gone := Release(st, f, b, now), st.bookings[(f, b)].seats;
      assert BookingOwnsItsSeats(st, f, b, now);
      forall f', b': BookingId | st'.BookingLive(f', b', now) ensures BookingOwnsItsSeats(st', f', b', now) {
        assert BookingOwnsItsSeats(st, f', b', now);
      }
      forall f', s | st'.SeatLive(f', s, now) ensures OwnerListsSeat(st', f', s, now) {
        assert OwnerListsSeat(st, f', s, now);
      }
    }
  }

  /** The two indexes agree in every state of every run of locks, releases and waits. */
  lemma {:induction false} IndexesAgree(actions: seq<Action>, start: int)
    ensures var c := Run(Clocked(EMPTY, start), actions); Agree(c.store, c.now)
  {
    if actions != [] {
      IndexesAgree(actions[..|actions| - 1], start);
      var c := Run(Clocked(EMPTY, start), actions[..|actions| - 1]);
      match actions[|actions| - 1]
      case LockSeats(f, seats, b) =>
        if !c.store.BookingLive(f, b, c.now) && FailedSeats(c.store, f, seats, b, c.now) == [] {
          AgreeWritten(c.store, f, seats, b, c.now);
        }
      case ReleaseSeats(f, b) => AgreeReleased(c.store, f, b, c.now);
      case Wait(ms) => AgreeLater(c.store, c.now, c.now + ms);
    }
  }

  // ---------------------------------------------------------------- what follows from agreement

  /** Two bookings with live locks on one flight have no seat in common. */
  lemma Exclusion(st: Store, now: int, f: int, b: BookingId, b': BookingId)
    requires Agree(st, now) && st.BookingLive(f, b, now) && st.BookingLive(f, b', now) && b != b'
    ensures forall s :: s in st.bookings[(f, b)].seats ==> s !in st.bookings[(f, b')].seats
  {
    assert BookingOwnsItsSeats(st, f, b, now) && BookingOwnsItsSeats(st, f, b', now);
  }

  /** A first lock call for a booking takes every seat it asked for, or leaves the store as it was; it is refused
      exactly when some seat it asked for has a live lock. */
  lemma LockAllOrNothing(st: Store, f: int, seats: seq<Seat>, b: BookingId, now: int)
    requires Agree(st, now) && !st.BookingLive(f, b, now) && Validate(seats).None?
    ensures var o := Lock(st, f, seats, b, now);
            if exists s :: s in seats && st.SeatLive(f, s, now) then
              o.store == st && o.result.Refused?
            else
              && o.result == Locked(seats, now + LOCK_MS)
              && (forall s :: s in seats ==> o.store.SeatLive(f, s, now) && o.store.seats[(f, s)].owner == b)
              && (forall f', s :: f' != f || s !in seats ==>
                    (o.store.SeatLive(f', s, now) <==> st.SeatLive(f', s, now)) &&
                    (st.SeatLive(f', s, now) ==> o.store.seats[(f', s)] == st.seats[(f', s)]))
  {
    hide FailedSeats, Validate, WriteLock;
    var failed := FailedSeats(st, f, seats, b, now);
    LiveSeatsAreTaken(st, f, seats, b, now);
    assert failed != [] ==> failed[0] in failed;
    if failed == [] {
      Written(st, f, seats, b, now);
    }
  }

  lemma Written(st: Store, f: int, seats: seq<Seat>, b: BookingId, now: int)
    ensures var st' := WriteLock(st, f, seats, b, now);
            && (forall s :: s in seats ==> st'.SeatLive(f, s, now) && st'.seats[(f, s)].owner == b)
            && (forall f', s :: f' != f || s !in seats ==>
                  (st'.SeatLive(f', s, now) <==> st.SeatLive(f', s, now)) &&
                  (st.SeatLive(f', s, now) ==> st'.seats[(f', s)] == st.seats[(f', s)]))
  {}

  /** For a booking without a live lock, a seat is in the way exactly when its key is visible. */
  lemma LiveSeatsAreTaken(st: Store, f: int, seats: seq<Seat>, b: BookingId, now: int)
    requires Agree(st, now) && !st.BookingLive(f, b, now)
    ensures forall s :: s in FailedSeats(st, f, seats, b, now) <==> s in seats && st.SeatLive(f, s, now)
  {
    FailedSeatsAre(st, f, seats, b, now);
    forall s | st.SeatLive(f, s, now) ensures Taken(st, f, s, b, now) {
      assert OwnerListsSeat(st, f, s, now);
      assert BookingOwnsItsSeats(st, f, st.seats[(f, s)].owner, now);
    }
  }

  /** Releasing removes exactly the locks the booking owns on the flight. */
  lemma ReleaseExact(st: Store, f: int, b: BookingId, now: int)
    requires Agree(st, now)
    ensures var st' := Release(st, f, b, now);
            && !st'.BookingLive(f, b, now)
            && (forall f', s :: st'.SeatLive(f', s, now) <==>
                  st.SeatLive(f', s, now) && !(f' == f && st.seats[(f', s)].owner == b))
            && (forall f', s :: st'.SeatLive(f', s, now) ==> st'.seats[(f', s)] == st.seats[(f', s)])
            && (forall f', b': BookingId :: st'.BookingLive(f', b', now) <==>
                st.BookingLive(f', b', now) && (f', b') != (f, b))
  {
    var st' := Release(st, f, b, now);
    if st.BookingLive(f, b, now) {
      assert BookingOwnsItsSeats(st, f, b, now);
    }
    forall f', s | st.SeatLive(f', s, now)
      ensures st'.SeatLive(f', s, now) <==> !(f' == f && st.seats[(f', s)].owner == b)
    {
      assert OwnerListsSeat(st, f', s, now);
    }
  }

  /** The availability query and the lock decision agree: the seats a fresh booking would fail on are those the query
      reports locked, and it would be granted its seats exactly when the query reports none. */
  lemma AvailabilityMatchesLock(st: Store, f: int, seats: seq<Seat>, b: BookingId, now: int)
    requires Agree(st, now) && !st.BookingLive(f, b, now) && Validate(seats).None?
    ensures var q := Locks(st, f, seats, now);
            && (forall s :: s in seats ==> (s in FailedSeats(st, f, seats, b, now) <==> q[s]))
            && (Lock(st, f, seats, b, now).result.Locked? <==> forall s :: s in q ==> !q[s])
  {
    LiveSeatsAreTaken(st, f, seats, b, now);
    var failed := FailedSeats(st, f, seats, b, now);
    assert failed != [] ==> failed[0] in failed;
  }

  /** A granted lock followed by its release gives back what was visible before. */
  lemma LockThenRelease(st: Store, f: int, seats: seq<Seat>, b: BookingId, now: int)
    requires Agree(st, now) && !st.BookingLive(f, b, now) && Lock(st, f, seats, b, now).result.Locked?
    ensures var st' := Release(Lock(st, f, seats, b, now).store, f, b, now);
            && (forall f', s :: st'.SeatLive(f', s, now) <==> st.SeatLive(f', s, now))
            && (forall f', s :: st'.SeatLive(f', s, now) ==> st'.seats[(f', s)] == st.seats[(f', s)])
            && (forall f', b': BookingId :: st'.BookingLive(f', b', now) <==> st.BookingLive(f', b', now))
  {
    LiveSeatsAreTaken(st, f, seats, b, now);
  }

  // ---------------------------------------------------------------- what a call is answered

  /** A first lock that is granted lasts fifteen minutes to the millisecond, which is what the caller is told; asking
      again while it lasts, for whatever valid seats, answers with the first call's seats and expiry and changes
      nothing. */
  lemma GrantedForFifteenMinutes(st: Store, f: int, seats: seq<Seat>, b: BookingId, now: int, t: int, again: seq<Seat>)
    requires !st.BookingLive(f, b, now) && seats != [] && Lock(st, f, seats, b, now).result.Locked? && now <= t
    ensures var o := Lock(st, f, seats, b, now);
            && o.result == Locked(seats, now + 900000)
            && (o.store.BookingLive(f, b, t) <==> t < now + 900000)
            && (forall s :: s in seats ==> (o.store.SeatLive(f, s, t) <==> t < now + 900000))
            && (t < now + 900000 && Validate(again).None? ==>
                  Lock(o.store, f, again, b, t) == LockOutcome(o.store, Locked(seats, now + 900000)))
  {
    hide Validate, FailedSeats, WriteSeats;
    var entry := SeatEntry(b, now + LOCK_MS, now + LOCK_MS);
    forall s | s in seats ensures (f, s) in WriteSeats(st.seats, f, seats, entry)
                                  && WriteSeats(st.seats, f, seats, entry)[(f, s)] == entry {
      WriteSeatsAt(st.seats, f, seats, entry, (f, s));
    }
  }

  /** A request without seats is granted and locks nothing. */
  lemma NothingAskedNothingLocked(st: Store, f: int, b: BookingId, now: int)
    requires !st.BookingLive(f, b, now)
    ensures Lock(st, f, [], b, now) == LockOutcome(st, Locked([], now + 900000))
  {}

  /** The request names one seat twice, under whatever spellings. */
  ghost predicate NamesTwice(seats: seq<Seat>) {
    exists i, j :: 0 <= i < j < |seats| && Normalize(seats[i]) == Normalize(seats[j]) != ""
  }

  /** The request names something that is no seat number. */
  ghost predicate NamesNoSeat(seats: seq<Seat>) {
    exists i :: 0 <= i < |seats| && Normalize(seats[i]) != "" && !SeatPattern(Normalize(seats[i]))
  }

  /** A lock call is rejected, with the store as it was, exactly when its request names a seat twice or something
      that is no seat; the first of these is reported where both are true. */
  lemma RejectedExactlyWhen(st: Store, f: int, seats: seq<Seat>, b: BookingId, now: int)
    ensures var o := Lock(st, f, seats, b, now);
            && (o.result.Rejected? <==> NamesTwice(seats) || NamesNoSeat(seats))
            && (o.result.Rejected? ==>
                  o.store == st && o.result.error == if NamesTwice(seats) then DuplicateSeats else InvalidSeats)
  {
    hide Normalized, SeatPattern, Normalize, FailedSeats, WriteLock, NamesTwice, NamesNoSeat;
    ValidationReads(seats);
  }

  ghost predicate Names(seats: seq<Seat>, n: string) { exists i :: 0 <= i < |seats| && Normalize(seats[i]) == n }

  ghost predicate Repeats(ns: seq<string>) { exists i, j :: 0 <= i < j < |ns| && ns[i] == ns[j] }

  lemma ValidationReads(seats: seq<Seat>)
    ensures Validate(seats) ==
              if NamesTwice(seats) then Some(DuplicateSeats)
              else if NamesNoSeat(seats) then Some(InvalidSeats)
              else None
  {
    hide Normalized, SeatPattern, Normalize;
    TwiceNormalized(seats);
    assert (exists n :: n in Normalized(seats) && !SeatPattern(n)) <==> NamesNoSeat(seats) by {
      forall n | n in Normalized(seats) && !SeatPattern(n) ensures NamesNoSeat(seats) {
        InNormalized(seats, n);
      }
      forall i | 0 <= i < |seats| && Normalize(seats[i]) != "" && !SeatPattern(Normalize(seats[i]))
        ensures Normalize(seats[i]) in Normalized(seats)
      {
        InNormalized(seats, Normalize(seats[i]));
      }
    }
  }

  lemma {:induction false} InNormalized(seats: seq<Seat>, n: string)
    ensures n in Normalized(seats) <==> n != "" && Names(seats, n)
  {
    hide Normalize;
    if seats != [] {
      InNormalized(seats[..|seats| - 1], n);
      assert forall i :: 0 <= i < |seats| - 1 ==> seats[..|seats| - 1][i] == seats[i];
    }
  }

  lemma {:induction false} TwiceNormalized(seats: seq<Seat>)
    ensures Repeats(Normalized(seats)) <==> NamesTwice(seats)
  {
    hide Normalize, Repeats, NamesTwice, Names;
    if seats == [] {
      NothingTwice();
    } else {
      var m := |seats| - 1;
      TwiceNormalized(seats[..m]);
      var ns, n := Normalized(seats[..m]), Normalize(seats[m]);
      InNormalized(seats[..m], n);
      RepeatsMore(ns, n);
      NamesTwiceMore(seats);
      assert ns + [] == ns;
    }
  }

  lemma NothingTwice()
    ensures !Repeats([]) && !NamesTwice([])
  {}

  lemma RepeatsMore(ns: seq<string>, n: string)
    ensures Repeats(ns + [n]) <==> Repeats(ns) || n in ns
  {
    var more := ns + [n];
    if n in ns {
      var i :| 0 <= i < |ns| && ns[i] == n;
      assert more[i] == more[|ns|];
    }
    if Repeats(ns) {
      var i, j :| 0 <= i < j < |ns| && ns[i] == ns[j];
      assert more[i] == more[j];
    }
  }

  lemma NamesTwiceMore(seats: seq<Seat>)
    requires seats != []
    ensures var m := |seats| - 1;
            NamesTwice(seats) <==>
              NamesTwice(seats[..m]) || (Normalize(seats[m]) != "" && Names(seats[..m], Normalize(seats[m])))
  {
    hide Normalize;
    var m := |seats| - 1;
    assert forall i :: 0 <= i < m ==> seats[..m][i] == seats[i];
    if Normalize(seats[m]) != "" && Names(seats[..m], Normalize(seats[m])) {
      var i :| 0 <= i < m && Normalize(seats[..m][i]) == Normalize(seats[m]);
      assert Normalize(seats[i]) == Normalize(seats[m]) != "";
    }
    if NamesTwice(seats[..m]) {
      var i, j :| 0 <= i < j < m && Normalize(seats[..m][i]) == Normalize(seats[..m][j]) != "";
      assert Normalize(seats[i]) == Normalize(seats[j]) != "";
    }
  }

  /** Only a live lock of another booking, not yet at its recorded expiry, ever refuses a seat, in any state. */
  lemma RefusedOnlyByOthers(st: Store, f: int, seats: seq<Seat>, b: BookingId, now: int)
    ensures var r := Lock(st, f, seats, b, now).result;
            r.Refused? ==>
              && r.failedSeats != []
              && forall s :: s in r.failedSeats ==>
                   && s in seats && st.SeatLive(f, s, now)
                   && st.seats[(f, s)].owner != b && st.seats[(f, s)].expiresAt > now
  {
    hide FailedSeats, Validate, WriteLock;
    FailedSeatsAre(st, f, seats, b, now);
  }

  function DigitChar(n: nat): char
    requires n < 10
  {
    ('0' as int + n) as char
  }

  /** The decimal numeral of a seat row. */
  function Numeral(row: nat): string
    requires row < 1000
  {
    if row < 10 then [DigitChar(row)]
    else if row < 100 then [DigitChar(row / 10), DigitChar(row % 10)]
    else [DigitChar(row / 100), DigitChar(row / 10 % 10), DigitChar(row % 10)]
  }

  function Value(c: char): nat
    requires Digit(c)
    ensures Value(c) < 10 && DigitChar(Value(c)) == c
  {
    c as int - '0' as int
  }

  /** A seat number is a row from 1 to 999, written without leading zeros, and a letter from A to Z. */
  lemma SeatNumbersAre(s: string)
    ensures SeatPattern(s) <==>
              exists row: nat, letter: char :: 1 <= row <= 999 && 'A' <= letter <= 'Z' && s == Numeral(row) + [letter]
  {
    hide SeatPattern, Numeral;
    if SeatPattern(s) {
      var row, letter := RowOf(s);
    }
    forall row: nat, letter: char | 1 <= row <= 999 && 'A' <= letter <= 'Z' && s == Numeral(row) + [letter]
      ensures SeatPattern(s)
    {
      NumeralFits(row, letter);
    }
  }

  lemma RowOf(s: string) returns (row: nat, letter: char)
    requires SeatPattern(s)
    ensures 1 <= row <= 999 && 'A' <= letter <= 'Z' && s == Numeral(row) + [letter]
  {
    hide Numeral, DigitChar;
    var n := |s| - 1;
    letter := s[n];
    if n == 1 {
      row := Value(s[0]);
      OneDigit(row);
      assert s == [DigitChar(row)] + [letter];
    } else if n == 2 {
      row := Value(s[0]) * 10 + Value(s[1]);
      TwoDigits(Value(s[0]), Value(s[1]));
      assert s == [DigitChar(Value(s[0])), DigitChar(Value(s[1]))] + [letter];
    } else {
      row := Value(s[0]) * 100 + Value(s[1]) * 10 + Value(s[2]);
      ThreeDigits(Value(s[0]), Value(s[1]), Value(s[2]));
      assert s == [DigitChar(Value(s[0])), DigitChar(Value(s[1])), DigitChar(Value(s[2]))] + [letter];
    }
  }

  lemma OneDigit(a: nat)
    requires a < 10
    ensures Numeral(a) == [DigitChar(a)]
  {}

  lemma TwoDigits(a: nat, b: nat)
    requires 1 <= a < 10 && b < 10
    ensures Numeral(a * 10 + b) == [DigitChar(a), DigitChar(b)]
  {
    var row := a * 10 + b;
    assert row / 10 == a && row % 10 == b;
  }

  lemma ThreeDigits(a: nat, b: nat, c: nat)
    requires 1 <= a < 10 && b < 10 && c < 10
    ensures a * 100 + b * 10 + c < 1000 && Numeral(a * 100 + b * 10 + c) == [DigitChar(a), DigitChar(b), DigitChar(c)]
  {
    var row, tens := a * 100 + b * 10 + c, a * 10 + b;
    assert row == tens * 10 + c && row / 10 == tens && row % 10 == c && tens % 10 == b;
    assert row / 100 == a;
  }

  lemma NumeralFits(row: nat, letter: char)
    requires 1 <= row <= 999 && 'A' <= letter <= 'Z'
    ensures SeatPattern(Numeral(row) + [letter])
  {}

  /** Blanks around a seat number do not count. */
  lemma {:induction false} BlanksAside(s: Seat, c: char)
    requires Blank(c)
    ensures Normalize([c] + s) == Normalize(s + [c]) == Normalize(s)
  {
    hide Blank, Upper;
    assert ([c] + s)[1..] == s;
    TrimsTheEnd(s, c);
  }

  lemma {:induction false} TrimsTheEnd(s: string, c: char)
    requires Blank(c)
    ensures Trim(s + [c]) == Trim(s)
  {
    hide Blank;
    var longer := s + [c];
    if s == [] {
      assert longer[1..] == [];
    } else if Blank(s[0]) {
      TrimsTheEnd(s[1..], c);
      assert longer[1..] == s[1..] + [c];
    } else {
      assert longer[..|longer| - 1] == s;
    }
  }

  /** Neither does the case of its letters. */
  lemma CaseAside(s: string, i: nat)
    requires i < |s| && 'a' <= s[i] <= 'z'
    ensures Upper(s) == Upper(s[i := (s[i] as int - 32) as char])
  {}

  /** Extending adds its whole seconds to what is left of a time to live, itself rounded to whole seconds; a key in
      its last half second is let run out. */
  lemma ExtensionAddsSeconds(end: int, now: int, extra: nat)
    requires now < end
    ensures var end' := ExtendEnd(end, now, extra);
            if end - now < 500 then end' == end
            else
              && end + 1000 * extra - 500 < end'
              && end' <= end + 1000 * extra + 500
              && (end' - now) % 1000 == 0
    ensures (end - now) % 1000 == 0 ==> ExtendEnd(end, now, extra) == end + 1000 * extra
  {}

  /** An extension touches the keys of its booking alone, all of them alike, and none of their recorded contents. */
  lemma ExtensionIsOfItsBooking(st: Store, f: int, b: BookingId, extra: nat, now: int)
    requires Agree(st, now) && st.BookingLive(f, b, now)
    ensures var st' := Extend(st, f, b, extra, now); var e := st.bookings[(f, b)];
            var end := ExtendEnd(e.end, now, extra);
            && st'.bookings == st.bookings[(f, b) := e.(end := end)]
            && st'.seats.Keys == st.seats.Keys
            && (forall s :: s in e.seats ==> (f, s) in st.seats && st'.seats[(f, s)] == st.seats[(f, s)].(end := end))
            && (forall k :: k in st.seats && !(k.0 == f && k.1 in e.seats) ==> st'.seats[k] == st.seats[k])
  {
    assert BookingOwnsItsSeats(st, f, b, now);
  }

  // ---------------------------------------------------------------- where exclusion ends

  /** Another booking asks for seats of a booking whose lock is extended. */
  ghost predicate AsksForExtended(st: Store, f: int, b: BookingId, extra: nat, now: int, c: BookingId,
                                  seats: seq<Seat>, t: int) {
    && Agree(st, now) && st.BookingLive(f, b, now) && extra >= 1 && now <= t
    && b != c && (f, c) !in st.bookings
    && seats != [] && Validate(seats).None? && forall s :: s in seats ==> s in st.bookings[(f, b)].seats
  }

  lemma ExtensionOnlyLengthens(end: int, now: int, extra: nat)
    requires extra >= 1 && now < end
    ensures ExtendEnd(end, now, extra) >= end
  {}

  /** Extending moves the time to live but not the recorded expiry: while the extended keys live on, another booking
      is granted the seats exactly from the first expiry on. */
  lemma GrantedFromTheFirstExpiry(st: Store, f: int, b: BookingId, extra: nat, now: int, c: BookingId,
                                  seats: seq<Seat>, t: int)
    requires AsksForExtended(st, f, b, extra, now, c, seats, t)
    ensures var st' := Extend(st, f, b, extra, now); var expiry := st.bookings[(f, b)].timestamp + LOCK_MS;
            && (st'.BookingLive(f, b, t) <==> t < ExtendEnd(expiry, now, extra))
            && (Lock(st', f, seats, c, t).result.Locked? <==> expiry <= t)
            && (expiry <= t ==> Lock(st', f, seats, c, t).result == Locked(seats, t + LOCK_MS))
  {
    hide FailedSeats, Validate, WriteLock;
    var st', expiry := Extend(st, f, b, extra, now), st.bookings[(f, b)].timestamp + LOCK_MS;
    assert BookingOwnsItsSeats(st, f, b, now);
    ExtensionOnlyLengthens(expiry, now, extra);
    var failed := FailedSeats(st', f, seats, c, t);
    FailedSeatsAre(st', f, seats, c, t);
    assert failed != [] ==> failed[0] in failed;
    forall s | s in seats ensures Taken(st', f, s, c, t) <==> t < expiry {
      assert st.seats[(f, s)] == SeatEntry(b, expiry, expiry);
    }
    assert seats[0] in seats;
  }

  /** Exclusion after an extension breaks exactly between the first expiry and the extended one. */
  lemma ExclusionBreaksExactlyWhen(st: Store, f: int, b: BookingId, extra: nat, now: int, c: BookingId,
                                   seats: seq<Seat>, t: int)
    requires AsksForExtended(st, f, b, extra, now, c, seats, t)
    ensures var after := Lock(Extend(st, f, b, extra, now), f, seats, c, t).store;
            var expiry := st.bookings[(f, b)].timestamp + LOCK_MS;
            && (after.BookingLive(f, b, t) && after.BookingLive(f, c, t) <==>
                expiry <= t < ExtendEnd(expiry, now, extra))
            && (after.BookingLive(f, c, t) ==> after.bookings[(f, c)].seats == seats)
            && (after.BookingLive(f, b, t) ==> after.bookings[(f, b)].seats == st.bookings[(f, b)].seats)
  {
    hide FailedSeats, Validate;
    GrantedFromTheFirstExpiry(st, f, b, extra, now, c, seats, t);
  }

  /** And a release by the first booking then deletes the seat keys of the second, which keeps its booking key:
      release does not look at who owns a seat. */
  lemma ReleaseAfterExtensionFreesTheSecond(st: Store, f: int, b: BookingId, extra: nat, now: int, c: BookingId,
                                            seats: seq<Seat>,
                                            t: int)
    requires AsksForExtended(st, f, b, extra, now, c, seats, t)
    requires var expiry := st.bookings[(f, b)].timestamp + LOCK_MS; expiry <= t < ExtendEnd(expiry, now, extra)
    ensures var after := Release(Lock(Extend(st, f, b, extra, now), f, seats, c, t).store, f, b, t);
            && after.BookingLive(f, c, t) && after.bookings[(f, c)].seats == seats
            && forall s :: s in seats ==> !after.SeatLive(f, s, t)
  {
    hide FailedSeats, Validate, Lock, Extend;
    ExclusionBreaksExactlyWhen(st, f, b, extra, now, c, seats, t);
  }

  /** One such state: two bookings on one seat at the moment the first lock was to expire. */
  lemma ExtensionBreaksExclusion()
    ensures var s: seq<Seat> := ["12A"];
            var st1 := Lock(EMPTY, 7, s, 1, 0).store;
            var st2 := Extend(st1, 7, 1, 300, 0);
            var o := Lock(st2, 7, s, 2, LOCK_MS);
            && o.result == Locked(s, LOCK_MS + LOCK_MS)
            && o.store.BookingLive(7, 1, LOCK_MS) && o.store.BookingLive(7, 2, LOCK_MS)
            && o.store.bookings[(7, 1)].seats == o.store.bookings[(7, 2)].seats == s
  {
    hide Validate, Extend, Lock, Agree;
    var s: seq<Seat> := ["12A"];
    OneSeatValid("12A");
    FirstLock(7, s, 1);
    var st1 := Lock(EMPTY, 7, s, 1, 0).store;
    ExclusionBreaksExactlyWhen(st1, 7, 1, 300, 0, 2, s, LOCK_MS);
    GrantedFromTheFirstExpiry(st1, 7, 1, 300, 0, 2, s, LOCK_MS);
  }

  lemma FirstLock(f: int, seats: seq<Seat>, b: BookingId)
    requires seats != [] && Validate(seats).None?
    ensures var st := Lock(EMPTY, f, seats, b, 0).store;
            && Agree(st, 0) && st.BookingLive(f, b, 0) && st.bookings == map[(f, b) := BookingEntry(seats, 0, LOCK_MS)]
  {
    hide Validate, FailedSeats;
    NothingFailsAtFirst(f, seats, b);
    AgreeWritten(EMPTY, f, seats, b, 0);
  }

  lemma {:induction false} NothingFailsAtFirst(f: int, seats: seq<Seat>, b: BookingId)
    ensures FailedSeats(EMPTY, f, seats, b, 0) == []
  {
    if seats != [] {
      NothingFailsAtFirst(f, seats[..|seats| - 1], b);
    }
  }

  lemma OneSeatValid(s: Seat)
    requires s == "12A" || s == "12a"
    ensures Validate([s]).None? && Normalize(s) == "12A"
  {
    hide Normalize, Validate, SeatPattern, Numeral;
    NormalizesTo12A(s);
    ValidationReads([s]);
    TwoDigits(1, 2);
    NumeralFits(12, 'A');
    assert Numeral(12) + ['A'] == "12A";
  }

  lemma NormalizesTo12A(s: Seat)
    requires s == "12A" || s == "12a"
    ensures Normalize(s) == "12A"
  {
    assert Trim(s) == s;
    assert Upper(s) == "12A";
  }

  /** In any state, two live bookings meet on one physical seat only under two spellings of it. */
  lemma ClashNeedsTwoSpellings(st: Store, now: int, f: int, b: BookingId, b': BookingId, s: Seat, s': Seat)
    requires Agree(st, now) && st.BookingLive(f, b, now) && st.BookingLive(f, b', now) && b != b'
    requires s in st.bookings[(f, b)].seats && s' in st.bookings[(f, b')].seats
    requires Normalize(s) == Normalize(s')
    ensures s != s'
  {
    Exclusion(st, now, f, b, b');
  }

  /** A lock request that spells every seat the way validation reads it. */
  predicate SpelledNormally(a: Action) { a.LockSeats? ==> forall s :: s in a.seats ==> Normalize(s) == s }

  ghost predicate EntriesNormal(st: Store) {
    forall k, s :: k in st.bookings && s in st.bookings[k].seats ==> Normalize(s) == s
  }

  lemma {:induction false} NormalRequestsStayNormal(actions: seq<Action>, start: int)
    requires forall i :: 0 <= i < |actions| ==> SpelledNormally(actions[i])
    ensures EntriesNormal(Run(Clocked(EMPTY, start), actions).store)
  {
    hide Normalize, FailedSeats, Validate;
    if actions != [] {
      NormalRequestsStayNormal(actions[..|actions| - 1], start);
      assert SpelledNormally(actions[|actions| - 1]);
    }
  }

  /** In every run whose requests spell their seats normally, live bookings of a flight hold disjoint physical seats
      ... */
  lemma NormalRequestsExclude(actions: seq<Action>, start: int, f: int, b: BookingId, b': BookingId)
    requires forall i :: 0 <= i < |actions| ==> SpelledNormally(actions[i])
    requires var c := Run(Clocked(EMPTY, start), actions);
             c.store.BookingLive(f, b, c.now) && c.store.BookingLive(f, b', c.now) && b != b'
    ensures var st := Run(Clocked(EMPTY, start), actions).store;
            forall s, s' :: s in st.bookings[(f, b)].seats && s' in st.bookings[(f, b')].seats ==>
              Normalize(s) != Normalize(s')
  {
    hide Normalize, Run, Perform;
    IndexesAgree(actions, start);
    NormalRequestsStayNormal(actions, start);
    var c := Run(Clocked(EMPTY, start), actions);
    Exclusion(c.store, c.now, f, b, b');
  }

  /** ... and without that they may not: validation normalises, the keys do not. */
  lemma SpellingsClash()
    ensures Normalize("12a") == Normalize("12A")
    ensures var st := Lock(EMPTY, 7, ["12a"], 1, 0).store;
            var o := Lock(st, 7, ["12A"], 2, 0);
            o.result.Locked? && o.store.BookingLive(7, 1, 0) && o.store.BookingLive(7, 2, 0)
  {
    OneSeatValid("12a");
    OneSeatValid("12A");
    FailedSeatsAre(EMPTY, 7, ["12a"], 1, 0);
    assert FailedSeats(EMPTY, 7, ["12a"], 1, 0) == [];
    var st := Lock(EMPTY, 7, ["12a"], 1, 0).store;
    FailedSeatsAre(st, 7, ["12A"], 2, 0);
    assert "12a"[2] != "12A"[2];
    assert (7, "12A") !in st.seats;
    assert FailedSeats(st, 7, ["12A"], 2, 0) == [];
  }
}
