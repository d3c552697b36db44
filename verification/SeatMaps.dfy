/** The seat map: what it shows, and that it shows what acquire and commit will grant. */
module SeatMaps {
  import opened Entities
  import opened Adapters
  import opened LockTables
  import opened SeatLocks
  import opened SeatRows
  import opened Bookings
  import opened Worlds
  import opened Committing

  datatype SeatMapEntry = SeatMapEntry(seat: SeatId, seatClass: SeatClass, kind: SeatKind, status: SeatStatus)

  /** The seats of the cabin that a live lock keeps from the requester; without a
      session, every live lock does. */
  function LockedAgainst(cabin: Cabin, locks: LockTable, session: Option<SessionId>, now: Time): set<SeatId> {
    set s | s in cabin && HidesSeat(FindActiveLockForSeat(locks, s, now), session)
  }

  predicate HidesSeat(record: Option<LockRecord>, session: Option<SessionId>) {
    record.Some? && !(session.Some? && record.value.sessionId == session.value)
  }

  function StatusFor(cabinStatus: SeatStatus, seat: SeatId, occupied: set<SeatId>, locked: set<SeatId>): SeatStatus {
    if cabinStatus == Blocked then Blocked
    else if seat in occupied then Occupied
    else if seat in locked then Occupied
    else Available
  }

  function View(w: World, flightId: FlightId, session: Option<SessionId>): Option<map<SeatId, SeatMapEntry>> {
    if flightId !in w.flights then None
    else
      var cabin := w.flights[flightId].cabin;
      var occupied, locked := OccupiedSeatIds(w.bookings, flightId), LockedAgainst(cabin, w.locks, session, w.now);
      Some(map s | s in cabin :: SeatMapEntry(s, cabin[s].seatClass, cabin[s].kind, StatusFor(cabin[s].status, s, occupied, locked)))
  }

  /** The list shows every seat of the map once, in row and column order. */
  ghost predicate Displays(entries: seq<SeatMapEntry>, view: map<SeatId, SeatMapEntry>) {
    && (forall i :: 0 <= i < |entries| ==> entries[i].seat in view && view[entries[i].seat] == entries[i])
    && multiset(SeatsIn(entries)) == multiset(view.Keys) && RowOrdered(SeatsIn(entries))
  }

  function SeatsIn(entries: seq<SeatMapEntry>): seq<SeatId> {
    seq(|entries|, i requires 0 <= i < |entries| => entries[i].seat)
  }

  /** There is one such list when no two seats share a row and column. */
  lemma DisplayIsUnique(a: seq<SeatMapEntry>, b: seq<SeatMapEntry>, view: map<SeatId, SeatMapEntry>)
    requires Displays(a, view) && Displays(b, view)
    requires forall x, y :: x in view && y in view && KeyOf(x) == KeyOf(y) ==> x == y
    ensures a == b
  {
    hide KeyOf, RowOrdered;
    forall x | x in SeatsIn(a) ensures x in view {
      assert x in multiset(SeatsIn(a));
    }
    assert KeysDiffer(SeatsIn(a));
    OrderIsUnique(SeatsIn(a), SeatsIn(b));
    assert |a| == |SeatsIn(a)| == |SeatsIn(b)| == |b|;
    forall i | 0 <= i < |a| ensures a[i] == b[i] {
      assert SeatsIn(a)[i] == SeatsIn(b)[i];
    }
  }

  function EntriesFor(cabin: Cabin, seats: seq<SeatId>, occupied: set<SeatId>, locked: set<SeatId>): seq<SeatMapEntry>
    requires forall i :: 0 <= i < |seats| ==> seats[i] in cabin
  {
    seq(|seats|, i requires 0 <= i < |seats| =>
      SeatMapEntry(seats[i], cabin[seats[i]].seatClass, cabin[seats[i]].kind, StatusFor(cabin[seats[i]].status, seats[i], occupied, locked)))
  }

  lemma SeatsOfCabin(cabin: Cabin, seats: seq<SeatId>)
    requires multiset(seats) == multiset(cabin.Keys)
    ensures forall i :: 0 <= i < |seats| ==> seats[i] in cabin
  {
    assert forall i :: 0 <= i < |seats| ==> seats[i] in multiset(seats);
  }

  lemma EntriesDisplay(w: World, flightId: FlightId, session: Option<SessionId>, seats: seq<SeatId>)
    requires flightId in w.flights && RowOrdered(seats) && multiset(seats) == multiset(w.flights[flightId].cabin.Keys)
    ensures forall i :: 0 <= i < |seats| ==> seats[i] in w.flights[flightId].cabin
    ensures var cabin := w.flights[flightId].cabin;
            Displays(EntriesFor(cabin, seats, OccupiedSeatIds(w.bookings, flightId), LockedAgainst(cabin, w.locks, session, w.now)),
                     View(w, flightId, session).value)
  {
    hide RowOrdered, StatusFor, OccupiedSeatIds, LockedAgainst;
    var cabin := w.flights[flightId].cabin;
    SeatsOfCabin(cabin, seats);
    assert SeatsIn(EntriesFor(cabin, seats, OccupiedSeatIds(w.bookings, flightId), LockedAgainst(cabin, w.locks, session, w.now))) == seats;
    assert View(w, flightId, session).value.Keys == cabin.Keys;
  }

  /** A confirmed booking of the flight lists the seat. */
  ghost predicate Sold(bookings: seq<Booking>, flightId: FlightId, seat: SeatId) {
    exists b :: b in bookings && b.flightId == flightId && b.status == Confirmed && seat in b.seatIds
  }

  /** An unexpired entry of the seat index belongs to someone other than the requester;
      a requester without a session is no one. */
  ghost predicate HeldByAnother(locks: LockTable, seat: SeatId, session: Option<SessionId>, now: Time) {
    && seat in locks.bySeat && now < locks.bySeat[seat].expiresAt
    && (session.None? || locks.bySeat[seat].sessionId != session.value)
  }

  /** What an entry tells: a seat of the cabin with its class and kind, and one of three
      statuses, told by the cabin's mark, the bookings and the locks alone. */
  ghost predicate EntryTells(e: SeatMapEntry, w: World, cabin: Cabin, flightId: FlightId, session: Option<SessionId>) {
    && e.seat in cabin && e.seatClass == cabin[e.seat].seatClass && e.kind == cabin[e.seat].kind
    && (e.status == Blocked <==> cabin[e.seat].status == Blocked)
    && (e.status == Occupied <==>
          && cabin[e.seat].status != Blocked
          && (Sold(w.bookings, flightId, e.seat) || HeldByAnother(w.locks, e.seat, session, w.now)))
    && (e.status == Available <==>
          && cabin[e.seat].status != Blocked
          && !Sold(w.bookings, flightId, e.seat) && !HeldByAnother(w.locks, e.seat, session, w.now))
  }

  lemma SoldMeansOccupied(bookings: seq<Booking>, flightId: FlightId, seat: SeatId)
    ensures Sold(bookings, flightId, seat) <==> seat in OccupiedSeatIds(bookings, flightId)
  {
    OccupiedMeansBooked(bookings, flightId, seat);
    if Sold(bookings, flightId, seat) {
      var b :| b in bookings && b.flightId == flightId && b.status == Confirmed && seat in b.seatIds;
      var i :| 0 <= i < |bookings| && bookings[i] == b;
      assert Holds(bookings[i], flightId, seat);
    }
  }

  /** The map has one entry for each seat of the cabin, and each tells the truth. */
  lemma ViewTells(w: World, flightId: FlightId, session: Option<SessionId>)
    ensures View(w, flightId, session).Some? <==> flightId in w.flights
    ensures flightId in w.flights ==>
              var cabin, view := w.flights[flightId].cabin, View(w, flightId, session).value;
              && view.Keys == cabin.Keys
              && forall s :: s in view ==> view[s].seat == s && EntryTells(view[s], w, cabin, flightId, session)
  {
    hide OccupiedSeatIds, Sold;
    if flightId in w.flights {
      var cabin, view := w.flights[flightId].cabin, View(w, flightId, session).value;
      forall s | s in view ensures view[s].seat == s && EntryTells(view[s], w, cabin, flightId, session) {
        SoldMeansOccupied(w.bookings, flightId, s);
      }
    }
  }

  lemma DisplayTells(entries: seq<SeatMapEntry>, w: World, flightId: FlightId, session: Option<SessionId>)
    requires flightId in w.flights && Displays(entries, View(w, flightId, session).value)
    ensures multiset(SeatsIn(entries)) == multiset(w.flights[flightId].cabin.Keys) && RowOrdered(SeatsIn(entries))
    ensures forall i :: 0 <= i < |entries| ==> EntryTells(entries[i], w, w.flights[flightId].cabin, flightId, session)
  {
    hide EntryTells, RowOrdered, View;
    ViewTells(w, flightId, session);
  }

  class SeatMapService {
    const flights: map<FlightId, Flight>
    const bookings: BookingRepository
    const locks: SeatLockStore
    const clock: Clock

    constructor (flights: map<FlightId, Flight>, bookings: BookingRepository, locks: SeatLockStore, clock: Clock)
      ensures this.flights == flights && this.bookings == bookings && this.locks == locks && this.clock == clock
    {
      this.flights, this.bookings, this.locks, this.clock := flights, bookings, locks, clock;
    }

    ghost function State(rest: World): World
      reads bookings, locks, clock
    {
      rest.(flights := flights, bookings := bookings.bookings, locks := locks.Table(), now := clock.instant)
    }

    /** Each seat of the cabin once, in row and column order, with what its entry tells. */
    method Show(flightId: FlightId, session: Option<SessionId>, ghost rest: World) returns (entries: Option<seq<SeatMapEntry>>)
      ensures entries.Some? <==> flightId in flights
      ensures entries.Some? ==>
                && multiset(SeatsIn(entries.value)) == multiset(flights[flightId].cabin.Keys)
                && RowOrdered(SeatsIn(entries.value))
                && forall i :: 0 <= i < |entries.value| ==>
                     EntryTells(entries.value[i], State(rest), flights[flightId].cabin, flightId, session)
      ensures entries.Some? ==> View(State(rest), flightId, session).Some? && Displays(entries.value, View(State(rest), flightId, session).value)
    {
      if flightId !in flights {
        return None;
      }
      hide EntryTells, RowOrdered, Displays, View, EntriesFor, SeatsIn, LockedAgainst, OccupiedSeatIds;
      var cabin := flights[flightId].cabin;
      var snapshot := bookings.IterAll();
      var occupied := CollectOccupied(snapshot, flightId);
      var locked := CollectLocked(cabin, session);
      var seats := OrderSeats(cabin.Keys);
      EntriesDisplay(State(rest), flightId, session, seats);
      var shown := EntriesFor(cabin, seats, occupied, locked);
      DisplayTells(shown, State(rest), flightId, session);
      return Some(shown);
    }

    method CollectLocked(cabin: Cabin, session: Option<SessionId>) returns (against: set<SeatId>)
      ensures against == LockedAgainst(cabin, locks.Table(), session, clock.instant)
    {
      var now := clock.Now();
      var remaining := cabin.Keys;
      against := {};
      while remaining != {}
        invariant remaining <= cabin.Keys
        invariant against == LockedAgainst(cabin, locks.Table(), session, now) - remaining
        decreases |remaining|
      {
        var seat :| seat in remaining;
        remaining := remaining - {seat};
        var record := locks.FindActiveLockForSeat(seat, now);
        if record.None? { continue; }
        if session.Some? && record.value.sessionId == session.value { continue; }
        against := against + {seat};
      }
    }
  }

  /** Whether the map shows the seat as available. */
  predicate Shown(w: World, flightId: FlightId, session: Option<SessionId>, seat: SeatId)
    requires flightId in w.flights && seat in w.flights[flightId].cabin
  {
    View(w, flightId, session).value[seat].status == Available
  }

  /** The map shows a seat as available to a session exactly when commit's seat
      check would pass it and an acquire of it by the session would be granted now. */
  lemma MapAgreesWithAcquireAndCommit(w: World, flightId: FlightId, session: SessionId, seat: SeatId)
    requires flightId in w.flights && seat in w.flights[flightId].cabin && w.lockIds != []
    ensures Shown(w, flightId, Some(session), seat) <==>
            && SeatError(w.flights[flightId].cabin, w.bookings, flightId, seat) == None
            && Acquire(w.locks, w.lockIds, flightId, [seat], session, w.now).2.Granted?
  {
    OccupiedMeansBooked(w.bookings, flightId, seat);
    NoConflicts(w.locks, [seat], session, w.now);
    assert seat in [seat];
  }

  /** An acquire's conflict answer is the request filtered, in order, by the seats the
      map hides from that session, exactly when no requested seat outside the cabin,
      which no map shows, is kept away by another session's lock. */
  lemma ConflictsAreTheMapsLockedSeats(cabin: Cabin, locks: LockTable, seats: seq<SeatId>, session: SessionId, now: Time)
    ensures Conflicts(locks, seats, session, now) == Only(seats, LockedAgainst(cabin, locks, Some(session), now))
            <==> forall s :: s in seats && s !in cabin ==> !SeatBlocked(locks, s, session, now)
  {
    hide Conflicts, Only;
    var hidden := LockedAgainst(cabin, locks, Some(session), now);
    if forall s :: s in seats && s !in cabin ==> !SeatBlocked(locks, s, session, now) {
      ConflictsInOrder(locks, seats, session, now, hidden);
    } else {
      var s :| s in seats && s !in cabin && SeatBlocked(locks, s, session, now);
      ConflictsAreTheBlockedSeats(locks, seats, session, now);
      if s in Only(seats, hidden) {
        OnlyChosen(seats, hidden, s);
      }
    }
  }

  /** The anonymous map shows a seat as available exactly when every session's map does. */
  lemma AnonymousMeansEveryone(w: World, flightId: FlightId, seat: SeatId)
    requires flightId in w.flights && seat in w.flights[flightId].cabin
    ensures Shown(w, flightId, None, seat) <==> forall session :: Shown(w, flightId, Some(session), seat)
  {
    var record := FindActiveLockForSeat(w.locks, seat, w.now);
    var other := if record.Some? then SessionId(record.value.sessionId.value + "x") else SessionId("");
    assert record.Some? ==> |other.value| != |record.value.sessionId.value|;
    assert Shown(w, flightId, Some(other), seat) ==> Shown(w, flightId, None, seat);
  }
}
