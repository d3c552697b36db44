/** The state of the seat-lock store as a value: two indexes over shared records.
    Locks are keyed by seat id alone, whatever the flight. */
module LockTables {
  import opened Entities

  datatype LockTable = LockTable(bySeat: map<SeatId, LockRecord>, byLock: map<LockId, LockRecord>)

  datatype AcquireResult = Granted(lock: LockRecord) | Conflict(seats: seq<SeatId>) | IdsExhausted

  const EMPTY_TABLE := LockTable(map[], map[])

  /** The record keeps every session but its own away from its seats until it expires. */
  predicate Blocks(r: LockRecord, session: SessionId, now: Time) {
    now < r.expiresAt && r.sessionId != session
  }

  predicate SeatBlocked(t: LockTable, seat: SeatId, session: SessionId, now: Time) {
    seat in t.bySeat && Blocks(t.bySeat[seat], session, now)
  }

  function Conflicts(t: LockTable, seats: seq<SeatId>, session: SessionId, now: Time): seq<SeatId> {
    if seats == [] then []
    else
      var n := |seats| - 1;
      Conflicts(t, seats[..n], session, now) + if SeatBlocked(t, seats[n], session, now) then [seats[n]] else []
  }

  /** The record is in the lock index and is the entry of the given seats. */
  function Index(t: LockTable, r: LockRecord, seats: seq<SeatId>): LockTable {
    LockTable(t.bySeat + (map s | s in seats :: r), t.byLock[r.lockId := r])
  }

  /** Indexing goes seat by seat. */
  lemma IndexNextSeat(t: LockTable, r: LockRecord, seats: seq<SeatId>, i: nat)
    requires i < |seats|
    ensures Index(t, r, seats[..i + 1]) ==
            LockTable(Index(t, r, seats[..i]).bySeat[seats[i] := r], Index(t, r, seats[..i]).byLock)
  {
    assert seats[..i + 1] == seats[..i] + [seats[i]];
  }

  function NewRecord(id: LockId, flightId: FlightId, seats: seq<SeatId>, session: SessionId, now: Time): LockRecord {
    LockRecord(id, flightId, seats, session, now + LOCK_TTL)
  }

  /** Check, then install; the new table, the remaining lock ids and the answer. */
  function Acquire(t: LockTable, ids: seq<LockId>, flightId: FlightId, seats: seq<SeatId>, session: SessionId, now: Time)
    : (LockTable, seq<LockId>, AcquireResult)
  {
    var conflicts := Conflicts(t, seats, session, now);
    if conflicts != [] then (t, ids, Conflict(conflicts))
    else if ids == [] then (t, ids, IdsExhausted)
    else
      var r := NewRecord(ids[0], flightId, seats, session, now);
      (Index(t, r, seats), ids[1..], Granted(r))
  }

  function Release(t: LockTable, id: LockId): LockTable {
    if id in t.byLock then
      LockTable(
        map s | s in t.bySeat && !(s in t.byLock[id].seatIds && t.bySeat[s].lockId == t.byLock[id].lockId) :: t.bySeat[s],
        t.byLock - {id})
    else t
  }

  function Get(t: LockTable, id: LockId): Option<LockRecord> {
    if id in t.byLock then Some(t.byLock[id]) else None
  }

  predicate IsValid(t: LockTable, id: LockId, now: Time) {
    id in t.byLock && now < t.byLock[id].expiresAt
  }

  function FindActiveLockForSeat(t: LockTable, seat: SeatId, now: Time): Option<LockRecord> {
    if seat in t.bySeat && now < t.bySeat[seat].expiresAt then Some(t.bySeat[seat]) else None
  }

  // ---- What a conflict answer says

  /** The seats of the request that are in the set, in order and with repetitions. */
  function Only(seats: seq<SeatId>, chosen: set<SeatId>): seq<SeatId> {
    if seats == [] then []
    else Only(seats[..|seats| - 1], chosen) + if seats[|seats| - 1] in chosen then [seats[|seats| - 1]] else []
  }

  /** The answer is the request filtered, in order and with repetitions, by the seats
      that a live record of another session keeps away. */
  lemma {:induction false} ConflictsInOrder(t: LockTable, seats: seq<SeatId>, session: SessionId, now: Time, blocked: set<SeatId>)
    requires forall s :: s in seats ==> (s in blocked <==> SeatBlocked(t, s, session, now))
    ensures Conflicts(t, seats, session, now) == Only(seats, blocked)
    ensures forall s :: multiset(Conflicts(t, seats, session, now))[s] ==
                        if SeatBlocked(t, s, session, now) then multiset(seats)[s] else 0
  {
    if seats != [] {
      hide SeatBlocked;
      var n := |seats| - 1;
      assert seats == seats[..n] + [seats[n]];
      ConflictsInOrder(t, seats[..n], session, now, blocked);
    }
  }

  /** The answer names exactly the requested seats that are kept away, and is the
      request itself when all of them are. */
  lemma ConflictsAreTheBlockedSeats(t: LockTable, seats: seq<SeatId>, session: SessionId, now: Time)
    ensures forall s :: s in Conflicts(t, seats, session, now) <==> s in seats && SeatBlocked(t, s, session, now)
    ensures (forall s :: s in seats ==> SeatBlocked(t, s, session, now)) ==> Conflicts(t, seats, session, now) == seats
  {
    hide SeatBlocked, Conflicts, Only;
    ConflictsInOrder(t, seats, session, now, set s | s in seats && SeatBlocked(t, s, session, now));
    if forall s :: s in seats ==> SeatBlocked(t, s, session, now) {
      OnlyAll(seats, set s | s in seats && SeatBlocked(t, s, session, now));
    }
  }

  lemma {:induction false} OnlyChosen(seats: seq<SeatId>, chosen: set<SeatId>, s: SeatId)
    requires s in Only(seats, chosen)
    ensures s in seats && s in chosen
  {
    if seats != [] && s in Only(seats[..|seats| - 1], chosen) {
      OnlyChosen(seats[..|seats| - 1], chosen, s);
    }
  }

  lemma {:induction false} OnlyAll(seats: seq<SeatId>, chosen: set<SeatId>)
    requires forall s :: s in seats ==> s in chosen
    ensures Only(seats, chosen) == seats
  {
    if seats != [] {
      OnlyAll(seats[..|seats| - 1], chosen);
    }
  }

  lemma NoConflicts(t: LockTable, seats: seq<SeatId>, session: SessionId, now: Time)
    ensures Conflicts(t, seats, session, now) == [] <==> forall s :: s in seats ==> !SeatBlocked(t, s, session, now)
  {
    ConflictsAreTheBlockedSeats(t, seats, session, now);
    if Conflicts(t, seats, session, now) != [] {
      assert Conflicts(t, seats, session, now)[0] in seats;
    }
  }

  /** An acquire is granted exactly when a lock id is left and no requested seat is
      kept away by a live record of another session. */
  lemma GrantedIff(t: LockTable, ids: seq<LockId>, flightId: FlightId, seats: seq<SeatId>, session: SessionId, now: Time)
    ensures Acquire(t, ids, flightId, seats, session, now).2.Granted?
            <==> ids != [] && forall s :: s in seats ==> !SeatBlocked(t, s, session, now)
    ensures Acquire(t, ids, flightId, seats, session, now).2.Conflict?
            <==> exists s :: s in seats && SeatBlocked(t, s, session, now)
  {
    hide Conflicts, SeatBlocked;
    NoConflicts(t, seats, session, now);
  }

  /** The requested seats whose entry is an unexpired record of another session. */
  function KeptAway(t: LockTable, seats: seq<SeatId>, session: SessionId, now: Time): set<SeatId> {
    set s | s in seats && s in t.bySeat && now < t.bySeat[s].expiresAt && t.bySeat[s].sessionId != session
  }

  /** What an acquire answers and does, field by field: a conflict, exactly when some
      requested seat is kept away, is the request filtered by those seats; otherwise,
      with a lock id left, the lock carries the drawn id and the request's flight, seats
      and session, expires ten minutes after the clock reading, is the entry of exactly
      the requested seats besides the earlier entries of the others, and is stored
      under its id; nothing else changes. */
  lemma AcquireMeans(t: LockTable, ids: seq<LockId>, flightId: FlightId, seats: seq<SeatId>, session: SessionId, now: Time)
    ensures var (t', ids', result) := Acquire(t, ids, flightId, seats, session, now);
            var kept := KeptAway(t, seats, session, now);
            && (kept != {} ==> result == Conflict(Only(seats, kept)) && t' == t && ids' == ids)
            && (kept == {} && ids == [] ==> result == IdsExhausted && t' == t && ids' == [])
            && (kept == {} && ids != [] ==>
                  && result.Granted? && ids' == ids[1..]
                  && result.lock.lockId == ids[0] && result.lock.flightId == flightId && result.lock.seatIds == seats
                  && result.lock.sessionId == session && result.lock.expiresAt == now + 600_000_000
                  && t'.byLock == t.byLock[ids[0] := result.lock]
                  && t'.bySeat.Keys == t.bySeat.Keys + (set s | s in seats)
                  && forall s :: s in t'.bySeat ==> t'.bySeat[s] == if s in seats then result.lock else t.bySeat[s])
  {
    var kept := KeptAway(t, seats, session, now);
    ConflictsInOrder(t, seats, session, now, kept);
    NoConflicts(t, seats, session, now);
    hide Conflicts, Only;
    assert kept == {} <==> forall s :: s in seats ==> !SeatBlocked(t, s, session, now) by {
      assert forall s :: s in seats ==> (s in kept <==> SeatBlocked(t, s, session, now));
    }
  }

  /** Filtering keeps each chosen seat as often as it is requested, and no other. */
  lemma {:induction false} OnlyCounts(seats: seq<SeatId>, chosen: set<SeatId>, s: SeatId)
    ensures multiset(Only(seats, chosen))[s] == if s in chosen then multiset(seats)[s] else 0
  {
    if seats != [] {
      var n := |seats| - 1;
      OnlyCounts(seats[..n], chosen, s);
      assert seats == seats[..n] + [seats[n]];
    }
  }

  /** Filtering keeps the order of the request. */
  lemma {:induction false} OnlyInOrder(seats: seq<SeatId>, chosen: set<SeatId>, i: nat, j: nat)
    requires i < j < |Only(seats, chosen)|
    ensures Precedes(seats, Only(seats, chosen)[i], Only(seats, chosen)[j])
  {
    hide Precedes;
    var n := |seats| - 1;
    var front, all := Only(seats[..n], chosen), Only(seats, chosen);
    if j < |front| {
      OnlyInOrder(seats[..n], chosen, i, j);
      PrecedesStill(seats, n, front[i], front[j]);
    } else {
      OnlyChosen(seats[..n], chosen, front[i]);
      PrecedesLast(seats, front[i]);
    }
  }

  lemma PrecedesLast(seats: seq<SeatId>, s: SeatId)
    requires seats != [] && s in seats[..|seats| - 1]
    ensures Precedes(seats, s, seats[|seats| - 1])
  {
    var a :| 0 <= a < |seats| - 1 && seats[..|seats| - 1][a] == s;
    assert seats[a] == s;
  }

  /** Some occurrence of the one seat in the request is before some occurrence of the other. */
  ghost predicate Precedes(seats: seq<SeatId>, s: SeatId, u: SeatId) {
    exists a, b :: 0 <= a < b < |seats| && seats[a] == s && seats[b] == u
  }

  lemma PrecedesStill(seats: seq<SeatId>, n: nat, s: SeatId, u: SeatId)
    requires n <= |seats| && Precedes(seats[..n], s, u)
    ensures Precedes(seats, s, u)
  {
    var a, b :| 0 <= a < b < n && seats[..n][a] == s && seats[..n][b] == u;
    assert seats[a] == s && seats[b] == u;
  }

  // ---- Coherence of the two indexes

  /** Every seat entry is the very record that the lock index stores under its
      id, and that record lists the seat. */
  ghost predicate Coherent(t: LockTable) {
    && (forall id :: id in t.byLock ==> t.byLock[id].lockId == id)
    && (forall s :: s in t.bySeat ==>
          && t.bySeat[s].lockId in t.byLock
          && t.byLock[t.bySeat[s].lockId] == t.bySeat[s]
          && s in t.bySeat[s].seatIds)
  }

  /** Ids still to be issued are distinct and unknown to the lock index. */
  ghost predicate FreshIds(t: LockTable, ids: seq<LockId>) {
    Distinct(ids) && forall id :: id in ids ==> id !in t.byLock
  }

  lemma AcquireCoherent(t: LockTable, ids: seq<LockId>, flightId: FlightId, seats: seq<SeatId>, session: SessionId, now: Time)
    requires Coherent(t) && FreshIds(t, ids)
    ensures var (t', ids', result) := Acquire(t, ids, flightId, seats, session, now);
            && Coherent(t') && FreshIds(t', ids')
            && (!result.Granted? ==> t' == t && ids' == ids)
            && (result.Granted? ==>
                  && (forall s :: s in seats ==> s in t'.bySeat && t'.bySeat[s] == result.lock)
                  && (forall s :: s !in seats ==> (s in t'.bySeat <==> s in t.bySeat) && (s in t.bySeat ==> t'.bySeat[s] == t.bySeat[s]))
                  && t'.byLock == t.byLock[result.lock.lockId := result.lock])
  {
    if ids != [] {
      assert forall id :: id in ids[1..] ==> id in ids && id != ids[0];
    }
  }

  /** Releasing a lock leaves no seat pointing at it and touches no seat of another lock. */
  lemma ReleaseCoherent(t: LockTable, ids: seq<LockId>, id: LockId)
    requires Coherent(t) && FreshIds(t, ids)
    ensures var t' := Release(t, id);
            && Coherent(t') && FreshIds(t', ids)
            && id !in t'.byLock
            && (forall s :: s in t'.bySeat <==> s in t.bySeat && t.bySeat[s].lockId != id)
            && (forall s :: s in t'.bySeat ==> t'.bySeat[s] == t.bySeat[s])
  {
  }
}
