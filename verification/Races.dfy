/** Runs that end where a simpler account of the system would say no run can end. */
module Races {
  import opened Entities
  import opened LockTables
  import LockRuns
  import Breakdown
  import opened Bookings
  import opened QuoteStores
  import opened Worlds
  import opened Quoting
  import opened Committing
  import opened AuditReplay
  import Ledger
  import opened Steps
  import opened SoloRuns

  const ACCEPTED := PaymentResult(true, None)

  /** The steps of one thread, as part of a run. */
  lemma ThenAlone(from: Sys, ls: seq<Label>, t: ThreadId, n: nat)
    ensures Exec(from, ls + Goes(t, ACCEPTED, n)) == Alone(Exec(from, ls), t, ACCEPTED, n)
  {
    hide Step;
    ExecAppend(from, ls, Goes(t, ACCEPTED, n));
    AloneIsARun(Exec(from, ls), t, ACCEPTED, n);
  }

  lemma AloneNext(s: Sys, t: ThreadId, n: nat)
    ensures Alone(s, t, ACCEPTED, 0) == s
    ensures Alone(s, t, ACCEPTED, n + 1) == Alone(Step(s, Go(t, ACCEPTED)), t, ACCEPTED, n)
  {
    hide Step;
  }

  /** The flight is known and has not departed; the quote names its session. */
  ghost predicate Quotable(w: World, q: QuoteRequest) {
    && q.flightId in w.flights && DaysBefore(w.flights[q.flightId], w.now) >= 0
    && q.sessionId.Some? && w.quoteIds != []
  }

  /** A first quote that has drawn its id and is about to store it. */
  lemma QuoteDrawn(from: Sys, q: QuoteRequest) returns (made: Quote, priced: Priced)
    requires PcOf(from, 1).Idle? && Quotable(from.w, q)
    ensures made.id == from.w.quoteIds[0] && made.expiresAt == from.w.now + QUOTE_TTL
    ensures var s := Alone(Step(from, CallQuote(1, q)), 1, ACCEPTED, 2);
            && s.w == from.w.(quoteIds := from.w.quoteIds[1..])
            && s == from.(w := s.w, pcs := from.pcs[1 := Pricing(ToStore(made, priced))])
  {
    hide PriceSeats, DaysBefore, AcquireStep, AfterCheck, PayStep, RecordStep;
    var s1 := Step(from, CallQuote(1, q));
    var s2 := Step(s1, Go(1, ACCEPTED));
    assert PcOf(s2, 1).Pricing? && PcOf(s2, 1).q.ToDraw?;
    priced := PcOf(s2, 1).q.priced;
    made := MakeQuote(from.w.quoteIds[0], q.sessionId.value, q, priced, from.w.now);
    AloneNext(s1, 1, 1);
    AloneNext(s2, 1, 0);
    AloneNext(Step(s2, Go(1, ACCEPTED)), 1, 0);
  }

  // ---- A quote stored between the two reads of the quote check

  /** A commit between the two reads of its quote check. */
  lemma QuoteMissed(s: Sys, r: CommitRequest)
    requires PcOf(s, 2).Idle? && s.committer.None? && r.flightId in s.w.flights
    requires r.quoteId.Some? && r.quoteId.value !in s.w.quotes
    ensures var s' := Alone(Step(s, CallCommit(2, r)), 2, ACCEPTED, 3);
            && PcOf(s', 2) == Checking(r, AtQuoteRaw(s.w.now)) && PcOf(s', 1) == PcOf(s, 1) && s'.w == s.w
  {
    hide AcquireStep, QuoteStep, PayStep, RecordStep;
    var s1 := Step(s, CallCommit(2, r));
    var s2 := Step(s1, Go(2, ACCEPTED));
    assert PcOf(s2, 2) == Checking(r, AtFlight) && s2.w == s.w;
    var s3 := Step(s2, Go(2, ACCEPTED));
    assert PcOf(s3, 2) == Checking(r, AtQuote(s.w.now)) && s3.w == s.w;
    AloneNext(s1, 2, 2);
    AloneNext(s2, 2, 1);
    AloneNext(s3, 2, 0);
    AloneNext(Step(s3, Go(2, ACCEPTED)), 2, 0);
  }

  lemma StoredThenExpired(s: Sys, r: CommitRequest, made: Quote, priced: Priced)
    requires PcOf(s, 1) == Pricing(ToStore(made, priced)) && PcOf(s, 2) == Checking(r, AtQuoteRaw(s.w.now))
    requires r.quoteId == Some(made.id) && s.w.now < made.expiresAt
    ensures var s' := Step(Step(s, Go(1, ACCEPTED)), Go(2, ACCEPTED));
            && PcOf(s', 2) == Recording(r, ToLeave(Refused(QuoteExpired)))
            && GetValidQuote(s'.w.quotes, made.id, s'.w.now) == Some(made)
  {
    hide AcquireStep, PayStep, RecordStep;
    var s1 := Step(s, Go(1, ACCEPTED));
    assert PcOf(s1, 2) == PcOf(s, 2) && s1.w.quotes == s.w.quotes[made.id := made] && s1.w.now == s.w.now;
  }

  /** From every initial state: a commit that names a quote id about to be stored can
      be told that the quote expired although the quote is live. */
  lemma LiveQuoteCalledExpired(from: Sys, q: QuoteRequest, r: CommitRequest) returns (ls: seq<Label>)
    requires Initial(from) && Quotable(from.w, q)
    requires r.flightId == q.flightId && r.quoteId == Some(from.w.quoteIds[0])
    ensures var s := Exec(from, ls);
            && PcOf(s, 2) == Recording(r, ToLeave(Refused(QuoteExpired)))
            && GetValidQuote(s.w.quotes, from.w.quoteIds[0], s.w.now).Some?
  {
    hide Step, Exec, Alone, DaysBefore, GetValidQuote;
    var made, priced := QuoteDrawn(from, q);
    ls := [CallQuote(1, q)];
    ExecOne(from, CallQuote(1, q));
    ThenAlone(from, ls, 1, 2);
    ls := ls + Goes(1, ACCEPTED, 2);
    var drawn := Exec(from, ls);
    QuoteMissed(drawn, r);
    ExecNext(from, ls, CallCommit(2, r));
    ls := ls + [CallCommit(2, r)];
    ThenAlone(from, ls, 2, 3);
    ls := ls + Goes(2, ACCEPTED, 3);
    StoredThenExpired(Exec(from, ls), r, made, priced);
    ExecNext(from, ls, Go(1, ACCEPTED));
    ls := ls + [Go(1, ACCEPTED)];
    ExecNext(from, ls, Go(2, ACCEPTED));
    ls := ls + [Go(2, ACCEPTED)];
  }

  lemma ExecOne(s: Sys, l: Label)
    ensures Exec(s, [l]) == Step(s, l)
  {
    hide Step;
    assert Exec(s, [l]) == Exec(Step(s, l), [l][1..]);
  }

  // ---- A lock stored between the two reads of the lock check

  /** One free seat, asked for without a quote and under the first lock id. */
  ghost predicate Lockable(w: World, r: CommitRequest, seat: SeatId) {
    && r.flightId in w.flights && r.seatIds == [seat] && r.quoteId.None?
    && seat in w.flights[r.flightId].cabin && w.flights[r.flightId].cabin[seat].status != Blocked
    && w.lockIds != [] && r.lockId == Some(w.lockIds[0])
  }

  /** A commit between the two reads of its lock check. */
  lemma LockMissed(s: Sys, r: CommitRequest, seat: SeatId)
    requires PcOf(s, 2).Idle? && s.committer.None? && s.holder.None?
    requires Lockable(s.w, r, seat) && s.w.bookings == [] && s.w.locks == EMPTY_TABLE
    ensures var s' := Alone(Step(s, CallCommit(2, r)), 2, ACCEPTED, 6);
            && PcOf(s', 2) == Checking(r, AtLockRaw(s.w.now, None)) && PcOf(s', 1) == PcOf(s, 1)
            && s'.w == s.w && s'.holder == s.holder
  {
    hide AcquireStep, QuoteStep, PayStep, RecordStep;
    var s1 := Step(s, CallCommit(2, r));
    var s2 := Step(s1, Go(2, ACCEPTED));
    var s3 := Step(s2, Go(2, ACCEPTED));
    assert PcOf(s3, 2) == Checking(r, AtQuote(s.w.now)) && s3.w == s.w && PcOf(s3, 1) == PcOf(s, 1) && s3.holder == s.holder;
    FromQuoteToRaw(s3, r, seat, s.w.now);
    AloneNext(s1, 2, 5);
    AloneNext(s2, 2, 4);
  }

  lemma FromQuoteToRaw(s: Sys, r: CommitRequest, seat: SeatId, now: Time)
    requires PcOf(s, 2) == Checking(r, AtQuote(now)) && s.holder.None?
    requires Lockable(s.w, r, seat) && s.w.bookings == [] && s.w.locks == EMPTY_TABLE
    ensures var s' := Alone(s, 2, ACCEPTED, 4);
            && PcOf(s', 2) == Checking(r, AtLockRaw(now, None)) && PcOf(s', 1) == PcOf(s, 1)
            && s'.w == s.w && s'.holder == s.holder
  {
    hide AcquireStep, QuoteStep, PayStep, RecordStep;
    var s1 := Step(s, Go(2, ACCEPTED));
    assert PcOf(s1, 2) == Checking(r, AtSeat(now, None, 0)) && s1.w == s.w;
    var s2 := Step(s1, Go(2, ACCEPTED));
    assert PcOf(s2, 2) == Checking(r, AtSeat(now, None, 1)) && s2.w == s.w;
    var s3 := Step(s2, Go(2, ACCEPTED));
    assert PcOf(s3, 2) == Checking(r, AtLock(now, None)) && s3.w == s.w;
    AloneNext(s, 2, 3);
    AloneNext(s1, 2, 2);
    AloneNext(s2, 2, 1);
    AloneNext(s3, 2, 0);
    AloneNext(Step(s3, Go(2, ACCEPTED)), 2, 0);
  }

  /** An acquire of one seat on an empty store, run to its end. */
  lemma LockStored(s: Sys, flightId: FlightId, seat: SeatId, session: SessionId)
    requires PcOf(s, 1).Idle? && s.holder.None? && s.w.locks == EMPTY_TABLE && s.w.lockIds != []
    ensures var s' := Alone(Step(s, CallAcquire(1, flightId, [seat], session)), 1, ACCEPTED, 6);
            && PcOf(s', 2) == PcOf(s, 2) && s'.holder.None? && s'.committer == s.committer && s'.commits == s.commits
            && s'.w == s.w.(locks := s'.w.locks, lockIds := s'.w.lockIds)
            && s.w.lockIds[0] in s'.w.locks.byLock
            && s'.w.locks.byLock[s.w.lockIds[0]] == NewRecord(s.w.lockIds[0], flightId, [seat], session, s.w.now)
  {
    hide QuoteStep, AfterCheck, PayStep, RecordStep, Conflicts;
    var want := LockRuns.AcquireOp(flightId, [seat], session, s.w.now);
    NoConflicts(s.w.locks, [seat], session, s.w.now);
    var s1 := Step(s, CallAcquire(1, flightId, [seat], session));
    var s2 := Step(s1, Go(1, ACCEPTED));
    var s3 := Step(s2, Go(1, ACCEPTED));
    assert PcOf(s3, 1) == Acquiring(want, ToInstall) && s3.w == s.w;
    AloneNext(s1, 1, 5);
    AloneNext(s2, 1, 4);
    Installed(s3, want);
  }

  lemma StepsAcquire(s: Sys, t: ThreadId)
    requires PcOf(s, t).Acquiring? && PcOf(s, t).want.AcquireOp?
    ensures Step(s, Go(t, ACCEPTED)) == AcquireStep(s, t, PcOf(s, t).want, PcOf(s, t).a)
  {
    hide AcquireStep;
  }

  lemma Installed(s: Sys, want: LockRuns.LockOp)
    requires PcOf(s, 1) == Acquiring(want, ToInstall) && want.AcquireOp? && |want.seats| == 1 && s.w.lockIds != []
    ensures var s' := Alone(s, 1, ACCEPTED, 4);
            && PcOf(s', 2) == PcOf(s, 2) && s'.holder.None? && s'.committer == s.committer && s'.commits == s.commits
            && s'.w == s.w.(locks := s'.w.locks, lockIds := s'.w.lockIds)
            && s.w.lockIds[0] in s'.w.locks.byLock
            && s'.w.locks.byLock[s.w.lockIds[0]] == NewRecord(s.w.lockIds[0], want.flightId, want.seats, want.session, want.at)
  {
    hide Conflicts, Step;
    var r := NewRecord(s.w.lockIds[0], want.flightId, want.seats, want.session, want.at);
    var s1 := Step(s, Go(1, ACCEPTED));
    StepsAcquire(s, 1);
    assert PcOf(s1, 1) == Acquiring(want, ToIndex(r, 0)) && s1.w.locks.byLock == s.w.locks.byLock[r.lockId := r];
    var s2 := Step(s1, Go(1, ACCEPTED));
    StepsAcquire(s1, 1);
    assert PcOf(s2, 1) == Acquiring(want, ToIndex(r, 1)) && s2.w.locks.byLock == s1.w.locks.byLock;
    var s3 := Step(s2, Go(1, ACCEPTED));
    StepsAcquire(s2, 1);
    assert PcOf(s3, 1) == Acquiring(want, ToAnswer(Granted(r))) && s3.w.locks.byLock == s1.w.locks.byLock;
    StepsAcquire(s3, 1);
    AloneNext(s, 1, 3);
    AloneNext(s1, 1, 2);
    AloneNext(s2, 1, 1);
    AloneNext(s3, 1, 0);
    AloneNext(Step(s3, Go(1, ACCEPTED)), 1, 0);
  }

  lemma LockExpiredNext(s: Sys, r: CommitRequest, now: Time)
    requires PcOf(s, 2) == Checking(r, AtLockRaw(now, None)) && s.holder.None?
    requires r.lockId.Some? && r.lockId.value in s.w.locks.byLock
    ensures var s' := Step(s, Go(2, ACCEPTED)); PcOf(s', 2) == Recording(r, ToLeave(Refused(LockExpired))) && s'.w == s.w
  {
    hide AcquireStep, QuoteStep, PayStep, RecordStep;
  }

  /** From every initial state: a commit that names a lock id about to be issued can be
      told that the lock expired although the lock is live. */
  lemma LiveLockCalledExpired(from: Sys, r: CommitRequest, seat: SeatId, session: SessionId) returns (ls: seq<Label>)
    requires Initial(from) && Lockable(from.w, r, seat)
    ensures var s := Exec(from, ls);
            && PcOf(s, 2) == Recording(r, ToLeave(Refused(LockExpired)))
            && IsValid(s.w.locks, from.w.lockIds[0], s.w.now)
  {
    hide Step, Exec, Alone;
    LockMissed(from, r, seat);
    ls := [CallCommit(2, r)];
    ExecOne(from, CallCommit(2, r));
    ThenAlone(from, ls, 2, 6);
    ls := ls + Goes(2, ACCEPTED, 6);
    LockStored(Exec(from, ls), r.flightId, seat, session);
    var call := CallAcquire(1, r.flightId, [seat], session);
    ExecNext(from, ls, call);
    ls := ls + [call];
    ThenAlone(from, ls, 1, 6);
    ls := ls + Goes(1, ACCEPTED, 6);
    LockExpiredNext(Exec(from, ls), r, from.w.now);
    ExecNext(from, ls, Go(2, ACCEPTED));
    ls := ls + [Go(2, ACCEPTED)];
  }

  // ---- A commit that cites a quote not reported yet

  lemma StoredNotReported(s: Sys, made: Quote, priced: Priced)
    requires PcOf(s, 1) == Pricing(ToStore(made, priced))
    ensures Step(s, Go(1, ACCEPTED)) ==
            s.(w := s.w.(quotes := s.w.quotes[made.id := made]), pcs := s.pcs[1 := Pricing(ToReport(made, priced))])
  {
  }

  /** A first commit, of one free seat and citing the given quote, without a lock. */
  lemma FirstCommit(w: World, r: CommitRequest, made: Quote)
    requires r.flightId in w.flights && w.bookings == [] && w.audit == [] && w.references != [] && r.lockId.None?
    requires r.quoteId == Some(made.id) && made.id in w.quotes && w.quotes[made.id] == made && w.now < made.expiresAt
    requires forall seat :: seat in r.seatIds ==>
               seat in w.flights[r.flightId].cabin && w.flights[r.flightId].cabin[seat].status != Blocked
    ensures var (w', result) := CommitCall(w, r, ACCEPTED);
            && result.Booked? && result.booking.reference == w.references[0] && result.booking.quoteId == made.id
            && w'.audit == [CommittedEvent(result.booking)]
  {
    hide SaveBooking, Release;
    SeatsErrorNone(w.flights[r.flightId].cabin, w.bookings, r.flightId, r.seatIds);
    assert CheckError(w, r) == None;
  }

  lemma OneCommitAlone(b: Booking)
    requires b.quoteId != NO_QUOTE
    ensures VerifyCommits([CommittedEvent(b)]) == [QuoteMissing(b.reference, b.quoteId)]
  {
    var e := CommittedEvent(b);
    assert [e][..0] == [];
    assert QuotesById([e]) == map[];
    assert Mismatches(map[], [e]) == MismatchOf(map[], e);
  }

  /** From every initial state: a commit that cites a quote stored but not reported yet
      leaves a log that does not reconcile. */
  lemma UnreportedQuoteCited(from: Sys, q: QuoteRequest, r: CommitRequest) returns (ls: seq<Label>)
    requires Initial(from) && Quotable(from.w, q) && from.w.references != [] && from.w.quoteIds[0] != NO_QUOTE
    requires r.flightId == q.flightId && r.quoteId == Some(from.w.quoteIds[0]) && r.lockId.None?
    requires forall seat :: seat in r.seatIds ==>
               seat in from.w.flights[r.flightId].cabin && from.w.flights[r.flightId].cabin[seat].status != Blocked
    ensures VerifyCommits(Exec(from, ls).w.audit) == [QuoteMissing(from.w.references[0], from.w.quoteIds[0])]
  {
    hide Step, Exec, Alone, DaysBefore, CommitCall, VerifyCommits;
    var made, priced := QuoteDrawn(from, q);
    ls := [CallQuote(1, q)];
    ExecOne(from, CallQuote(1, q));
    ThenAlone(from, ls, 1, 2);
    ls := ls + Goes(1, ACCEPTED, 2);
    StoredNotReported(Exec(from, ls), made, priced);
    ExecNext(from, ls, Go(1, ACCEPTED));
    ls := ls + [Go(1, ACCEPTED)];
    var s := Exec(from, ls);
    FirstCommit(s.w, r, made);
    OneCommitAlone(CommitCall(s.w, r, ACCEPTED).1.booking);
    var n := CommitAlone(s, 2, r, ACCEPTED);
    ExecNext(from, ls, CallCommit(2, r));
    ls := ls + [CallCommit(2, r)];
    ThenAlone(from, ls, 2, n);
    ls := ls + Goes(2, ACCEPTED, n);
  }

  // ---- Another session's lock, expired

  /** The request names the lock and a session other than its own, and is otherwise in order. */
  lemma ExpiredBeforeMismatch(w: World, r: CommitRequest, seat: SeatId)
    requires r.flightId in w.flights && r.seatIds == [seat] && r.quoteId.None? && w.bookings == []
    requires seat in w.flights[r.flightId].cabin && w.flights[r.flightId].cabin[seat].status != Blocked
    requires r.lockId.Some? && r.lockId.value in w.locks.byLock && w.locks.byLock[r.lockId.value].expiresAt <= w.now
    ensures forall v :: CommitCall(w, r, v) == (w, Refused(LockExpired))
  {
    RefusalsAreTruthful(w, r, LockExpired);
    hide CheckError;
  }

  /** From every initial state with a free seat: a session locks it, and once the lock
      has expired, a commit of another session that names the lock is told that it
      expired, not that it is the other session's. */
  lemma ForeignLockCalledExpired(from: Sys, r: CommitRequest, seat: SeatId, session: SessionId) returns (ls: seq<Label>)
    requires Initial(from) && Lockable(from.w, r, seat) && r.sessionId.Some? && r.sessionId.value != session
    ensures var s := Exec(from, ls);
            && s.commits == [CommitRecord(r, Refused(LockExpired))]
            && r.lockId.value in s.w.locks.byLock && s.w.locks.byLock[r.lockId.value].sessionId == session
  {
    hide Step, Exec, Alone, CommitCall;
    LockStored(from, r.flightId, seat, session);
    ls := [CallAcquire(1, r.flightId, [seat], session)];
    ExecOne(from, ls[0]);
    ThenAlone(from, ls, 1, 6);
    ls := ls + Goes(1, ACCEPTED, 6);
    var locked := Exec(from, ls);
    ExecNext(from, ls, Tick(LOCK_TTL));
    ls := ls + [Tick(LOCK_TTL)];
    var s := Exec(from, ls);
    assert s == locked.(w := locked.w.(now := locked.w.now + LOCK_TTL)) by { Ticks(locked, LOCK_TTL); }
    ExpiredBeforeMismatch(s.w, r, seat);
    var n := CommitAlone(s, 2, r, ACCEPTED);
    ExecNext(from, ls, CallCommit(2, r));
    ls := ls + [CallCommit(2, r)];
    ThenAlone(from, ls, 2, n);
    ls := ls + Goes(2, ACCEPTED, n);
  }

  lemma Ticks(s: Sys, elapsed: nat)
    ensures Step(s, Tick(elapsed)) == s.(w := s.w.(now := s.w.now + elapsed))
  {
  }

  // ---- A supply of references used up

  /** A commit that passes every check and takes no seat. */
  ghost predicate TakesNothing(w: World, r: CommitRequest) {
    r.flightId in w.flights && r.seatIds == [] && r.quoteId.None? && r.lockId.None?
  }

  lemma NothingTaken(w: World, r: CommitRequest)
    requires TakesNothing(w, r)
    ensures var (w', result) := CommitCall(w, r, ACCEPTED);
            && w'.flights == w.flights
            && if w.references == [] then result == ReferencesExhausted
               else result.Booked? && w'.references == w.references[1..]
  {
    hide SaveBooking;
  }

  lemma {:induction false} SupplyRunsOut(s: Sys, r: CommitRequest) returns (ls: seq<Label>)
    requires PcOf(s, 1).Idle? && s.committer.None? && s.holder.None? && TakesNothing(s.w, r)
    ensures Exec(s, ls).committer.None? && Ledger.Exhausted(Exec(s, ls).commits) > 0
    decreases |s.w.references|
  {
    hide Step, Exec, Alone, CommitCall;
    NothingTaken(s.w, r);
    var n := CommitAlone(s, 1, r, ACCEPTED);
    ls := [CallCommit(1, r)];
    ExecOne(s, ls[0]);
    ThenAlone(s, ls, 1, n);
    ls := ls + Goes(1, ACCEPTED, n);
    var s' := Exec(s, ls);
    if s.w.references == [] {
      assert s'.commits[..|s.commits|] == s.commits;
    } else {
      var rest := SupplyRunsOut(s', r);
      ExecAppend(s, ls, rest);
      ls := ls + rest;
    }
  }

  /** From every initial state with a flight, a run that charges more than it books. */
  lemma ChargesWithoutBooking(from: Sys, r: CommitRequest) returns (ls: seq<Label>)
    requires Initial(from) && TakesNothing(from.w, r)
    ensures var s := Exec(from, ls);
            s.committer.None? && Ledger.Succeeded(s.w.charges) != Ledger.Totals(s.w.bookings)
  {
    ls := SupplyRunsOut(from, r);
    Ledger.Conservation(from, ls);
  }

  // ---- A later quote with a lower total

  lemma QuotedAt(w: World, session: SessionId, today: nat)
    requires SALE_FLIGHT in w.flights && w.flights[SALE_FLIGHT] == FlightOf(FRIDAY_SALE) && w.bookings == []
    requires w.now == today * DAY && today <= 25 && w.quoteIds != []
    ensures var (w', answer) := QuoteCall(w, QuoteRequest(SALE_FLIGHT, [SALE_SEAT], 1, Some(session)));
            && answer.Quoted? && answer.quote.breakdown == SaleQuote(FRIDAY_SALE, today)
            && w'.flights == w.flights && w'.bookings == [] && w'.now == w.now && w'.quoteIds == w.quoteIds[1..]
  {
    hide PriceSeats, BuildAuditEvent;
    DayAt(25);
    DayAt(today);
  }

  /** From every initial state at time zero with such a flight: a run in which the same
      seat is quoted at 1.30 and five days later at 1.00. */
  lemma LaterQuoteCostsLess(from: Sys, session: SessionId) returns (ls: seq<Label>)
    requires Initial(from) && from.w.now == 0 && |from.w.quoteIds| >= 2
    requires SALE_FLIGHT in from.w.flights && from.w.flights[SALE_FLIGHT] == FlightOf(FRIDAY_SALE)
    ensures var answers := Exec(from, ls).answers;
            && |answers| == 2 && answers[0].Quoted? && answers[1].Quoted?
            && Breakdown.Total(answers[0].quote.breakdown) == 130 && Breakdown.Total(answers[1].quote.breakdown) == 100
  {
    hide Step, Exec, Alone, QuoteCall, SaleQuote, Breakdown.Total;
    var q := QuoteRequest(SALE_FLIGHT, [SALE_SEAT], 1, Some(session));
    TotalFallsAsPriceRises();
    QuotedAt(from.w, session, 0);
    var n := QuoteAlone(from, 1, q, ACCEPTED);
    ls := [CallQuote(1, q)];
    ExecOne(from, ls[0]);
    ThenAlone(from, ls, 1, n);
    ls := ls + Goes(1, ACCEPTED, n);
    var quoted := Exec(from, ls);
    ExecNext(from, ls, Tick(5 * DAY));
    ls := ls + [Tick(5 * DAY)];
    var s := Exec(from, ls);
    assert s == quoted.(w := quoted.w.(now := quoted.w.now + 5 * DAY)) by { Ticks(quoted, 5 * DAY); }
    QuotedAt(s.w, session, 5);
    n := QuoteAlone(s, 1, q, ACCEPTED);
    ExecNext(from, ls, CallQuote(1, q));
    ls := ls + [CallQuote(1, q)];
    ThenAlone(from, ls, 1, n);
    ls := ls + Goes(1, ACCEPTED, n);
  }
}
