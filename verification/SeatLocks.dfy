/** The in-memory seat-lock store, each method proved against LockTables. */
module SeatLocks {
  import opened Entities
  import opened LockTables
  import opened Adapters

  class SeatLockStore {
    var bySeat: map<SeatId, LockRecord>
    var byLock: map<LockId, LockRecord>
    const ids: IdGenerator

    constructor (ids: IdGenerator)
      ensures Table() == EMPTY_TABLE && this.ids == ids
    {
      bySeat, byLock := map[], map[];
      this.ids := ids;
    }

    function Table(): LockTable
      reads this
    {
      LockTable(bySeat, byLock)
    }

    method Acquire(flightId: FlightId, seats: seq<SeatId>, session: SessionId, now: Time) returns (result: AcquireResult)
      modifies this, ids`lockIds
      ensures (Table(), ids.lockIds, result) == LockTables.Acquire(old(Table()), old(ids.lockIds), flightId, seats, session, now)
    {
      var conflicts := FindConflicts(seats, session, now);
      if conflicts != [] {
        return Conflict(conflicts);
      }
      result := InstallLock(flightId, seats, session, now);
    }

    method FindConflicts(seats: seq<SeatId>, session: SessionId, now: Time) returns (conflicts: seq<SeatId>)
      ensures conflicts == Conflicts(Table(), seats, session, now)
    {
      conflicts := [];
      for i := 0 to |seats|
        invariant conflicts == Conflicts(Table(), seats[..i], session, now)
      {
        assert seats[..i + 1][..i] == seats[..i];
        if seats[i] !in bySeat { continue; }
        var record := bySeat[seats[i]];
        if record.expiresAt <= now { continue; }
        if record.sessionId == session { continue; }
        conflicts := conflicts + [seats[i]];
      }
      assert seats[..|seats|] == seats;
    }

    method InstallLock(flightId: FlightId, seats: seq<SeatId>, session: SessionId, now: Time) returns (result: AcquireResult)
      modifies this, ids`lockIds
      ensures old(ids.lockIds) == [] ==> result == IdsExhausted && Table() == old(Table()) && ids.lockIds == []
      ensures old(ids.lockIds) != [] ==>
                && result == Granted(NewRecord(old(ids.lockIds)[0], flightId, seats, session, now))
                && ids.lockIds == old(ids.lockIds)[1..]
                && Table() == Index(old(Table()), result.lock, seats)
    {
      if ids.lockIds == [] {
        return IdsExhausted;
      }
      var id := ids.lockIds[0];
      ids.lockIds := ids.lockIds[1..];
      var record := LockRecord(id, flightId, seats, session, now + LOCK_TTL);
      byLock := byLock[id := record];
      assert Index(old(Table()), record, []).bySeat == bySeat;
      for i := 0 to |seats|
        invariant ids.lockIds == old(ids.lockIds)[1..]
        invariant Table() == Index(old(Table()), record, seats[..i])
      {
        IndexNextSeat(old(Table()), record, seats, i);
        bySeat := bySeat[seats[i] := record];
      }
      assert seats[..|seats|] == seats;
      return Granted(record);
    }

    method Release(id: LockId)
      modifies this
      ensures Table() == LockTables.Release(old(Table()), id)
    {
      if id !in byLock {
        return;
      }
      var record := byLock[id];
      byLock := byLock - {id};
      for i := 0 to |record.seatIds|
        invariant byLock == old(byLock) - {id}
        invariant bySeat == map s | s in old(bySeat) && !(s in record.seatIds[..i] && old(bySeat)[s].lockId == record.lockId) :: old(bySeat)[s]
      {
        var seat := record.seatIds[i];
        if seat in bySeat && bySeat[seat].lockId == record.lockId {
          bySeat := bySeat - {seat};
        }
        assert record.seatIds[..i + 1] == record.seatIds[..i] + [seat];
      }
      assert record.seatIds[..|record.seatIds|] == record.seatIds;
    }

    method IsValid(id: LockId, now: Time) returns (valid: bool)
      ensures valid == LockTables.IsValid(Table(), id, now)
    {
      if id !in byLock {
        return false;
      }
      return now < byLock[id].expiresAt;
    }

    /** The lock is valid at an instant exactly when it is stored and the instant is
        before its expiry. */
    method Get(id: LockId) returns (record: Option<LockRecord>)
      ensures forall now: Time :: LockTables.IsValid(Table(), id, now) <==> record.Some? && now < record.value.expiresAt
      ensures Coherent(Table()) && record.Some? ==> record.value.lockId == id
      ensures record == LockTables.Get(Table(), id)
    {
      record := if id in byLock then Some(byLock[id]) else None;
    }

    method FindActiveLockForSeat(seat: SeatId, now: Time) returns (record: Option<LockRecord>)
      ensures record == LockTables.FindActiveLockForSeat(Table(), seat, now)
    {
      if seat !in bySeat || bySeat[seat].expiresAt <= now {
        return None;
      }
      return Some(bySeat[seat]);
    }
  }
}
