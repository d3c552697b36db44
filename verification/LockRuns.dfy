/** Whole histories of the seat-lock store: what every sequence of acquires and
    releases, in the order the store serves them, keeps. */
module LockRuns {
  import opened Entities
  import opened LockTables

  datatype LockOp =
    | AcquireOp(flightId: FlightId, seats: seq<SeatId>, session: SessionId, at: Time)
    | ReleaseOp(id: LockId)

  /** A served call with its answer; a release answers nothing. */
  datatype LockCall = LockCall(op: LockOp, answer: Option<AcquireResult>)

  datatype Store = Store(table: LockTable, ids: seq<LockId>)

  function Apply(st: Store, op: LockOp): Store {
    match op
    case AcquireOp(flightId, seats, session, at) =>
      var (table, ids, _) := Acquire(st.table, st.ids, flightId, seats, session, at);
      Store(table, ids)
    case ReleaseOp(id) => Store(Release(st.table, id), st.ids)
  }

  function Answer(st: Store, op: LockOp): Option<AcquireResult> {
    match op
    case AcquireOp(flightId, seats, session, at) => Some(Acquire(st.table, st.ids, flightId, seats, session, at).2)
    case ReleaseOp(_) => None
  }

  function Replay(st: Store, log: seq<LockCall>): Store {
    if log == [] then st else Apply(Replay(st, log[..|log| - 1]), log[|log| - 1].op)
  }

  /** The log is a sequential history: each answer is the one the store gives after the calls before it. */
  ghost predicate Sequential(st: Store, log: seq<LockCall>) {
    log == [] ||
    var n := |log| - 1;
    Sequential(st, log[..n]) && log[n].answer == Answer(Replay(st, log[..n]), log[n].op)
  }

  ghost predicate Sound(st: Store) {
    Coherent(st.table) && FreshIds(st.table, st.ids)
  }

  lemma ApplySound(st: Store, op: LockOp)
    requires Sound(st)
    ensures Sound(Apply(st, op))
  {
    match op
    case AcquireOp(flightId, seats, session, at) => AcquireCoherent(st.table, st.ids, flightId, seats, session, at);
    case ReleaseOp(id) => ReleaseCoherent(st.table, st.ids, id);
  }

  /** The two indexes stay coherent and issued ids stay unique over every history. */
  lemma {:induction false} ReplaySound(st: Store, log: seq<LockCall>)
    requires Sound(st)
    ensures Sound(Replay(st, log))
  {
    if log != [] {
      ReplaySound(st, log[..|log| - 1]);
      ApplySound(Replay(st, log[..|log| - 1]), log[|log| - 1].op);
    }
  }

  // ---- Hold stability

  ghost predicate HeldUntil(t: LockTable, seat: SeatId, session: SessionId, until: Time) {
    seat in t.bySeat && t.bySeat[seat].sessionId == session && until <= t.bySeat[seat].expiresAt
  }

  /** Others call before the hold ends; the holder does not call with an older
      time than the hold's, and releases none of its locks. */
  ghost predicate Respects(st: Store, op: LockOp, session: SessionId, since: Time) {
    match op
    case AcquireOp(_, _, s, at) => if s == session then since <= at else at < since + LOCK_TTL
    case ReleaseOp(id) => id in st.table.byLock ==> st.table.byLock[id].sessionId != session
  }

  ghost predicate Respected(st: Store, log: seq<LockCall>, session: SessionId, since: Time) {
    log == [] ||
    var n := |log| - 1;
    Respected(st, log[..n], session, since) && Respects(Replay(st, log[..n]), log[n].op, session, since)
  }

  lemma HoldStep(st: Store, op: LockOp, seat: SeatId, session: SessionId, since: Time)
    requires Sound(st) && HeldUntil(st.table, seat, session, since + LOCK_TTL) && Respects(st, op, session, since)
    ensures HeldUntil(Apply(st, op).table, seat, session, since + LOCK_TTL)
  {
    match op
    case AcquireOp(flightId, seats, s, at) =>
      AcquireCoherent(st.table, st.ids, flightId, seats, s, at);
      NoConflicts(st.table, seats, s, at);
      assert s != session ==> SeatBlocked(st.table, seat, s, at);
    case ReleaseOp(id) => ReleaseCoherent(st.table, st.ids, id);
  }

  lemma {:induction false} HoldRun(st: Store, seat: SeatId, session: SessionId, since: Time, log: seq<LockCall>)
    requires Sound(st) && HeldUntil(st.table, seat, session, since + LOCK_TTL)
    requires Respected(st, log, session, since)
    ensures HeldUntil(Replay(st, log).table, seat, session, since + LOCK_TTL)
  {
    if log != [] {
      var n := |log| - 1;
      HoldRun(st, seat, session, since, log[..n]);
      ReplaySound(st, log[..n]);
      HoldStep(Replay(st, log[..n]), log[n].op, seat, session, since);
    }
  }

  /** Once granted seats, a session keeps every one of them for a lock lifetime,
      whatever other sessions attempt meanwhile. A holder's own late call, served
      after the grant with an older clock reading, moves the start of that lifetime
      back to its reading; without one, `since` is the time of the grant. */
  lemma HoldIsStable(st: Store, grant: LockOp, held: Store, log: seq<LockCall>, since: Time)
    requires Sound(st) && grant.AcquireOp? && Answer(st, grant).value.Granted? && held == Apply(st, grant)
    requires since <= grant.at && Respected(held, log, grant.session, since)
    ensures forall s :: s in grant.seats ==> HeldUntil(Replay(held, log).table, s, grant.session, since + LOCK_TTL)
  {
    AcquireCoherent(st.table, st.ids, grant.flightId, grant.seats, grant.session, grant.at);
    forall s | s in grant.seats ensures HeldUntil(Replay(held, log).table, s, grant.session, since + LOCK_TTL) {
      HoldRun(held, s, grant.session, since, log);
    }
  }

  /** While a hold lasts, an acquire of a held seat by any other session is answered
      with a conflict that names the seat. */
  lemma HeldSeatsConflict(st: Store, seat: SeatId, holder: SessionId, until: Time, op: LockOp)
    requires HeldUntil(st.table, seat, holder, until)
    requires op.AcquireOp? && op.session != holder && seat in op.seats && op.at < until
    ensures Answer(st, op).Some? && Answer(st, op).value.Conflict? && seat in Answer(st, op).value.seats
  {
    assert SeatBlocked(st.table, seat, op.session, op.at);
    ConflictsAreTheBlockedSeats(st.table, op.seats, op.session, op.at);
  }

  // ---- Handle exclusion

  ghost predicate Live(t: LockTable, id: LockId, now: Time) {
    IsValid(t, id, now)
  }

  /** Every live record is the entry of each seat it covers. */
  ghost predicate Exclusive(t: LockTable, now: Time) {
    forall id, s :: Live(t, id, now) && s in t.byLock[id].seatIds ==> s in t.bySeat && t.bySeat[s] == t.byLock[id]
  }

  /** The session asks for a seat it already holds live. */
  ghost predicate Reacquires(t: LockTable, seats: seq<SeatId>, session: SessionId, now: Time) {
    exists s :: s in seats && s in t.bySeat && t.bySeat[s].sessionId == session && now < t.bySeat[s].expiresAt
  }

  /** Two live handles of different lock ids cover no seat in common. */
  lemma ExclusiveHandles(t: LockTable, now: Time, id1: LockId, id2: LockId, seat: SeatId)
    requires Coherent(t) && Exclusive(t, now)
    requires Live(t, id1, now) && Live(t, id2, now) && seat in t.byLock[id1].seatIds && seat in t.byLock[id2].seatIds
    ensures id1 == id2
  {
    assert t.bySeat[seat] == t.byLock[id1] == t.byLock[id2];
  }

  /** A granted acquire, served no later than the clock, keeps handles exclusive
      exactly when it asks for no seat its session holds live. */
  lemma AcquireExclusiveIff(st: Store, flightId: FlightId, seats: seq<SeatId>, session: SessionId, at: Time, now: Time)
    requires Sound(st) && Exclusive(st.table, now) && at <= now
    requires Answer(st, AcquireOp(flightId, seats, session, at)).value.Granted?
    ensures Exclusive(Apply(st, AcquireOp(flightId, seats, session, at)).table, now)
            <==> !Reacquires(st.table, seats, session, now)
  {
    var t, t' := st.table, Apply(st, AcquireOp(flightId, seats, session, at)).table;
    AcquireCoherent(t, st.ids, flightId, seats, session, at);
    NoConflicts(t, seats, session, at);
    if Reacquires(t, seats, session, now) {
      var s :| s in seats && s in t.bySeat && t.bySeat[s].sessionId == session && now < t.bySeat[s].expiresAt;
      assert Live(t', t.bySeat[s].lockId, now) && s in t'.byLock[t.bySeat[s].lockId].seatIds;
    } else {
      AcquireKeepsExclusive(st, flightId, seats, session, at, now);
    }
  }

  lemma AcquireKeepsExclusive(st: Store, flightId: FlightId, seats: seq<SeatId>, session: SessionId, at: Time, now: Time)
    requires Sound(st) && Exclusive(st.table, now) && at <= now
    requires !Reacquires(st.table, seats, session, now)
    ensures Exclusive(Apply(st, AcquireOp(flightId, seats, session, at)).table, now)
  {
    var t, t' := st.table, Apply(st, AcquireOp(flightId, seats, session, at)).table;
    AcquireCoherent(t, st.ids, flightId, seats, session, at);
    NoConflicts(t, seats, session, at);
    forall id, s | Live(t', id, now) && s in t'.byLock[id].seatIds
      ensures s in t'.bySeat && t'.bySeat[s] == t'.byLock[id]
    {
      if t' != t && id != st.ids[0] {
        assert Live(t, id, now);
        assert s in seats ==> !SeatBlocked(t, s, session, at);
      }
    }
  }

  lemma ReleaseKeepsExclusive(st: Store, id: LockId, now: Time)
    requires Sound(st) && Exclusive(st.table, now)
    ensures Exclusive(Release(st.table, id), now)
  {
    ReleaseCoherent(st.table, st.ids, id);
    forall i, s | Live(Release(st.table, id), i, now) && s in Release(st.table, id).byLock[i].seatIds
      ensures s in Release(st.table, id).bySeat && Release(st.table, id).bySeat[s] == Release(st.table, id).byLock[i]
    {
      assert Live(st.table, i, now);
    }
  }

  /** No acquire of the history is served after the clock or asks for a seat its session holds live. */
  ghost predicate NeverReacquires(st: Store, log: seq<LockCall>, now: Time) {
    log == [] ||
    var n := |log| - 1;
    && NeverReacquires(st, log[..n], now)
    && (log[n].op.AcquireOp? ==>
          && log[n].op.at <= now
          && !Reacquires(Replay(st, log[..n]).table, log[n].op.seats, log[n].op.session, log[n].op.at))
  }

  /** Over every history in which no session acquires a seat it holds live, and
      whatever order late calls are served in, live handles are exclusive. */
  lemma {:induction false} HandleExclusion(st: Store, log: seq<LockCall>, now: Time)
    requires Sound(st) && Exclusive(st.table, now)
    requires NeverReacquires(st, log, now)
    ensures Exclusive(Replay(st, log).table, now)
  {
    if log != [] {
      var n := |log| - 1;
      HandleExclusion(st, log[..n], now);
      ReplaySound(st, log[..n]);
      match log[n].op
      case AcquireOp(flightId, seats, session, at) =>
        AcquireKeepsExclusive(Replay(st, log[..n]), flightId, seats, session, at, now);
      case ReleaseOp(id) => ReleaseKeepsExclusive(Replay(st, log[..n]), id, now);
    }
  }

  /** An acquire of one seat not kept away by another session. */
  lemma AcquireOne(st: Store, flightId: FlightId, seat: SeatId, session: SessionId, at: Time)
    requires st.ids != [] && !SeatBlocked(st.table, seat, session, at)
    ensures var r := NewRecord(st.ids[0], flightId, [seat], session, at);
            Apply(st, AcquireOp(flightId, [seat], session, at)) ==
            Store(LockTable(st.table.bySeat[seat := r], st.table.byLock[r.lockId := r]), st.ids[1..])
  {
    hide Conflicts, SeatBlocked, NewRecord;
    NoConflicts(st.table, [seat], session, at);
    var r := NewRecord(st.ids[0], flightId, [seat], session, at);
    assert st.table.bySeat + (map s | s in [seat] :: r) == st.table.bySeat[seat := r];
  }

  /** A release of the lock that a single seat points at. */
  lemma ReleaseOne(t: LockTable, id: LockId, seat: SeatId)
    requires id in t.byLock && t.byLock[id].lockId == id && t.byLock[id].seatIds == [seat]
    requires seat in t.bySeat && t.bySeat[seat].lockId == id
    ensures seat !in Release(t, id).bySeat && Release(t, id).byLock == t.byLock - {id}
  {
  }

  /** The hypothesis is needed: when a session re-acquires its seat and the newer
      handle is released, another session gets a second live handle for it. */
  lemma ReacquiringBreaksExclusion(flightId: FlightId, seat: SeatId, a: SessionId, b: SessionId)
    requires a != b
    ensures var st := Store(EMPTY_TABLE, ["L1", "L2", "L3"]);
            var s1 := Apply(st, AcquireOp(flightId, [seat], a, 0));
            var s2 := Apply(s1, AcquireOp(flightId, [seat], a, 0));
            var s3 := Apply(s2, ReleaseOp("L2"));
            var s4 := Apply(s3, AcquireOp(flightId, [seat], b, 0));
            && IsValid(s4.table, "L1", 0) && IsValid(s4.table, "L3", 0)
            && s4.table.byLock["L1"].sessionId == a && s4.table.byLock["L3"].sessionId == b
            && seat in s4.table.byLock["L1"].seatIds && seat in s4.table.byLock["L3"].seatIds
  {
    hide Acquire, Release;
    var st := Store(EMPTY_TABLE, ["L1", "L2", "L3"]);
    AcquireOne(st, flightId, seat, a, 0);
    var s1 := Apply(st, AcquireOp(flightId, [seat], a, 0));
    AcquireOne(s1, flightId, seat, a, 0);
    var s2 := Apply(s1, AcquireOp(flightId, [seat], a, 0));
    ReleaseOne(s2.table, "L2", seat);
    var s3 := Apply(s2, ReleaseOp("L2"));
    AcquireOne(s3, flightId, seat, b, 0);
  }

  // ---- The race for one seat

  /** The log is a race: pairwise distinct sessions each ask once for the one seat,
      within one lock lifetime of each other. */
  ghost predicate Race(log: seq<LockCall>, seat: SeatId) {
    && (forall i :: 0 <= i < |log| ==> log[i].op.AcquireOp? && log[i].op.seats == [seat])
    && (forall i, j :: 0 <= i < j < |log| ==> log[i].op.session != log[j].op.session)
    && (forall i, j :: 0 <= i < |log| && 0 <= j < |log| ==> log[i].op.at < log[j].op.at + LOCK_TTL)
  }

  lemma FirstServed(st: Store, op: LockOp, seat: SeatId)
    requires st.ids != [] && op.AcquireOp? && op.seats == [seat]
    requires seat in st.table.bySeat ==> st.table.bySeat[seat].expiresAt <= op.at
    ensures Answer(st, op).Some? && Answer(st, op).value.Granted?
    ensures var t := Apply(st, op).table;
            seat in t.bySeat && t.bySeat[seat].sessionId == op.session && t.bySeat[seat].expiresAt == op.at + LOCK_TTL
  {
    NoConflicts(st.table, [seat], op.session, op.at);
  }

  lemma LateServed(st: Store, op: LockOp, seat: SeatId)
    requires op.AcquireOp? && op.seats == [seat] && SeatBlocked(st.table, seat, op.session, op.at)
    ensures Answer(st, op) == Some(Conflict([seat])) && Apply(st, op) == st
  {
    ConflictsAreTheBlockedSeats(st.table, [seat], op.session, op.at);
  }

  /** In every race for a free seat the first session served wins, and every other
      one is answered with a conflict naming that seat. */
  lemma {:induction false} ExactlyOneWins(st: Store, log: seq<LockCall>, seat: SeatId)
    requires Sound(st) && st.ids != [] && Sequential(st, log) && Race(log, seat)
    requires seat in st.table.bySeat ==> forall i :: 0 <= i < |log| ==> st.table.bySeat[seat].expiresAt <= log[i].op.at
    ensures forall i :: 0 <= i < |log| ==>
              if i == 0 then log[0].answer.Some? && log[0].answer.value.Granted?
              else log[i].answer == Some(Conflict([seat]))
    ensures log != [] ==>
              var t := Replay(st, log).table;
              && seat in t.bySeat && t.bySeat[seat].sessionId == log[0].op.session
              && t.bySeat[seat].expiresAt == log[0].op.at + LOCK_TTL
  {
    hide Apply, Answer;
    if log != [] {
      var n := |log| - 1;
      var before := Replay(st, log[..n]);
      var op := log[n].op;
      assert forall i :: 0 <= i < n ==> log[..n][i] == log[i];
      ExactlyOneWins(st, log[..n], seat);
      if n == 0 {
        FirstServed(st, op, seat);
      } else {
        LateServed(before, op, seat);
      }
    }
  }
}
