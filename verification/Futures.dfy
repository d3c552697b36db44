/** What the future of a reachable state keeps: quotes, lock records, bookings,
    and therefore prices and the chance to retry a declined commit. */
module Futures {
  import opened Entities
  import opened Rounding
  import opened Breakdown
  import opened LockTables
  import LockRuns
  import opened Occupancy
  import opened Bookings
  import opened QuoteStores
  import opened Worlds
  import opened Quoting
  import opened Committing
  import opened Steps
  import opened BookingSafety
  import opened QuoteTrail

  // ---- Lock ids

  ghost predicate LocksFresh(w: World) {
    FreshIds(w.locks, w.lockIds)
  }

  /** Neither stored nor to be issued. */
  ghost predicate Dead(w: World, id: LockId) {
    id !in w.locks.byLock && id !in w.lockIds
  }

  /** Id by id: what is stored came from before unchanged, or was just issued; only
      a commit's release takes a record away. */
  ghost predicate LockStep(w: World, w': World, id: LockId) {
    && (id in w'.locks.byLock ==>
          (id in w.locks.byLock && w'.locks.byLock[id] == w.locks.byLock[id]) || (id !in w.locks.byLock && id in w.lockIds))
    && (id in w'.lockIds ==> id in w.lockIds)
  }

  lemma LocksOf(s: Sys, l: Label)
    requires LocksFresh(s.w)
    ensures LocksFresh(Step(s, l).w) && forall id :: LockStep(s.w, Step(s, l).w, id)
    ensures !CommitStep(s, l) ==> forall id :: id in s.w.locks.byLock ==> id in Step(s, l).w.locks.byLock
    ensures CommitStep(s, l) && !(PcOf(s, l.t).Recording? && PcOf(s, l.t).r.ToRelease?) ==> Step(s, l).w.locks == s.w.locks
  {
    hide AcquireStep, QuoteStep, AfterCheck, PayStep, RecordStep;
    if l.Go? {
      match PcOf(s, l.t)
      case Acquiring(want, a) => if want.AcquireOp? { AcquireLocks(s, l.t, want, a); }
      case Pricing(q) => QuoteFrame(s, l.t, q);
      case Paying(r, p) => PayFrame(s, l.t, r, p, l.verdict);
      case Recording(r, step) => RecordLocks(s, l.t, r, step);
      case _ =>
    }
  }

  lemma AcquireLocks(s: Sys, t: ThreadId, want: LockRuns.LockOp, a: AcquirePc)
    requires LocksFresh(s.w) && want.AcquireOp?
    ensures var w' := AcquireStep(s, t, want, a).w;
            && LocksFresh(w') && (forall id :: LockStep(s.w, w', id))
            && forall id :: id in s.w.locks.byLock ==> id in w'.locks.byLock
  {
    hide Conflicts;
    if s.w.lockIds != [] {
      assert s.w.lockIds[0] in s.w.lockIds;
      assert forall id :: id in s.w.lockIds[1..] ==> id in s.w.lockIds && id != s.w.lockIds[0];
    }
  }

  lemma RecordLocks(s: Sys, t: ThreadId, r: CommitRequest, step: RecordPc)
    requires LocksFresh(s.w) && PcOf(s, t) == Recording(r, step)
    ensures var w' := RecordStep(s, t, r, step).w;
            && LocksFresh(w') && w'.lockIds == s.w.lockIds && (forall id :: LockStep(s.w, w', id))
            && (!step.ToRelease? ==> w'.locks == s.w.locks)
            && (step.ToRelease? && r.lockId.Some? && s.holder.None? ==> r.lockId.value !in w'.locks.byLock)
  {
    hide SaveBooking;
  }

  /** Whatever is stored under the id, now or later, is this record. */
  ghost predicate OnlyRecord(w: World, id: LockId, record: LockRecord) {
    id !in w.lockIds && (id in w.locks.byLock ==> w.locks.byLock[id] == record)
  }

  // ---- Bookings only grow

  lemma BookingsGrow(s: Sys, l: Label)
    requires Safe(s)
    ensures s.w.bookings <= Step(s, l).w.bookings
  {
    hide AcquireStep, QuoteStep, AfterCheck, PayStep, SeatsClear, NoDoubleBooking, BookedWell;
    if CommitStep(s, l) {
      match PcOf(s, l.t)
      case Paying(r, p) => PayFrame(s, l.t, r, p, l.verdict);
      case _ =>
    } else {
      OtherStep(s, l);
    }
  }

  lemma {:induction false} CountGrows(a: seq<Booking>, b: seq<Booking>, flightId: FlightId)
    requires a <= b
    ensures ActiveBookedSeatCount(a, flightId) <= ActiveBookedSeatCount(b, flightId)
  {
    if |a| < |b| {
      CountGrows(a, b[..|b| - 1], flightId);
    } else {
      assert a == b;
    }
  }

  // ---- Whole futures

  ghost predicate Sane(s: Sys) {
    Safe(s) && Trail(s) && LocksFresh(s.w)
  }

  lemma SaneStep(s: Sys, l: Label)
    requires Sane(s)
    ensures Sane(Step(s, l))
  {
    hide Safe, Trail, Step, LocksFresh;
    SafeStep(s, l);
    TrailStep(s, l);
    LocksOf(s, l);
  }

  lemma {:induction false} SaneExec(s: Sys, ls: seq<Label>)
    requires Sane(s)
    ensures Sane(Exec(s, ls))
    decreases |ls|
  {
    hide Sane, Step;
    if ls != [] {
      SaneStep(s, ls[0]);
      SaneExec(Step(s, ls[0]), ls[1..]);
    }
  }

  lemma SaneEver(from: Sys, ls: seq<Label>)
    requires Initial(from)
    ensures Sane(Exec(from, ls))
  {
    InitiallySafe(from);
    InitialTrail(from);
    SaneExec(from, ls);
  }

  /** Along every run: the catalog is fixed, time does not go back, bookings are
      only added, and stored quotes are never dropped or replaced. */
  ghost predicate Later(w: World, w': World) {
    w'.flights == w.flights && w.now <= w'.now && w.bookings <= w'.bookings && Grows(w, w')
  }

  lemma {:induction false} LaterEver(s: Sys, ls: seq<Label>)
    requires Sane(s)
    ensures Later(s.w, Exec(s, ls).w)
    decreases |ls|
  {
    hide Safe, Step, Grows, LocksFresh, IdsFresh, StoredWell, Told, Reported, Cited, Mutex;
    if ls == [] {
      GrowsItself(s.w);
    } else {
      var s1 := Step(s, ls[0]);
      SaneStep(s, ls[0]);
      LaterEver(s1, ls[1..]);
      CatalogAndClock(s, ls[0]);
      BookingsGrow(s, ls[0]);
      QuotesGrow(s, ls[0]);
      GrowsOn(s.w, s1.w, Exec(s, ls).w);
    }
  }

  lemma GrowsItself(w: World)
    ensures Grows(w, w)
  {
  }

  lemma GrowsOn(a: World, b: World, c: World)
    requires Grows(a, b) && Grows(b, c)
    ensures Grows(a, c)
  {
  }

  lemma {:induction false} OnlyRecordEver(s: Sys, ls: seq<Label>, id: LockId, record: LockRecord)
    requires Sane(s) && OnlyRecord(s.w, id, record)
    ensures OnlyRecord(Exec(s, ls).w, id, record)
    decreases |ls|
  {
    hide Safe, Trail, Step;
    if ls != [] {
      SaneStep(s, ls[0]);
      LocksOf(s, ls[0]);
      assert LockStep(s.w, Step(s, ls[0]).w, id);
      OnlyRecordEver(Step(s, ls[0]), ls[1..], id, record);
    }
  }

  lemma {:induction false} DeadEver(s: Sys, ls: seq<Label>, id: LockId)
    requires Sane(s) && Dead(s.w, id)
    ensures Dead(Exec(s, ls).w, id)
    decreases |ls|
  {
    hide Safe, Trail, Step;
    if ls != [] {
      SaneStep(s, ls[0]);
      LocksOf(s, ls[0]);
      assert LockStep(s.w, Step(s, ls[0]).w, id);
      DeadEver(Step(s, ls[0]), ls[1..], id);
    }
  }

  // ---- Prices along a run

  /** Between any two moments of any run, the unrounded quote for the same flight
      and seats never falls; the rounded total falls by at most 0.50, and not at
      all when both raw sums are rounded at the same position. */
  lemma QuotesRiseAlongRuns(from: Sys, before: seq<Label>, between: seq<Label>, flightId: FlightId, seats: seq<SeatId>)
    requires Initial(from) && flightId in from.w.flights
    requires var flight := from.w.flights[flightId];
             && flight.baseFare >= 0 && |flight.cabin| < CABIN_LIMIT
             && DaysBefore(flight, Exec(Exec(from, before), between).w.now) >= 0
    ensures var w1, w2, flight := Exec(from, before).w, Exec(Exec(from, before), between).w, from.w.flights[flightId];
            && DaysBefore(flight, w1.now) >= 0
            && var b1 := PriceSeats(flight, flightId, seats, ActiveBookedSeatCount(w1.bookings, flightId), w1.now).breakdown;
               var b2 := PriceSeats(flight, flightId, seats, ActiveBookedSeatCount(w2.bookings, flightId), w2.now).breakdown;
               && RawTotal(b1) <= RawTotal(b2) && Total(b1) - Total(b2) <= 50
               && (RoundingStep(RawTotal(b1)) == RoundingStep(RawTotal(b2)) ==> Total(b1) <= Total(b2))
  {
    hide Safe, Trail, Exec, Percentage, Initial;
    var s1 := Exec(from, before);
    var s2 := Exec(s1, between);
    SaneEver(from, before);
    LaterEver(s1, between);
    CountGrows(s1.w.bookings, s2.w.bookings, flightId);
    QuotesRise(from.w.flights[flightId], flightId, seats, ActiveBookedSeatCount(s1.w.bookings, flightId),
               ActiveBookedSeatCount(s2.w.bookings, flightId), s1.w.now, s2.w.now);
  }

  // ---- Retrying

  /** The request's quote, if any, has not expired. */
  ghost predicate QuoteLive(w: World, id: Option<QuoteId>) {
    id.Some? ==> GetValidQuote(w.quotes, id.value, w.now).Some?
  }

  ghost predicate LockLive(w: World, id: Option<LockId>) {
    id.Some? ==> IsValid(w.locks, id.value, w.now)
  }

  ghost predicate SeatsUnbooked(w: World, r: CommitRequest) {
    forall seat :: seat in r.seatIds ==> !SeatAlreadyBooked(w.bookings, r.flightId, seat)
  }

  lemma ChecksDecompose(w: World, r: CommitRequest)
    requires r.flightId in w.flights
    ensures CheckError(w, r) == None <==>
            && QuoteLive(w, r.quoteId)
            && (forall seat :: seat in r.seatIds ==> SeatError(w.flights[r.flightId].cabin, w.bookings, r.flightId, seat) == None)
            && LockLive(w, r.lockId)
            && (r.lockId.Some? && r.sessionId.Some? && r.lockId.value in w.locks.byLock ==>
                  w.locks.byLock[r.lockId.value].sessionId == r.sessionId.value)
  {
    hide SeatError;
    SeatsErrorNone(w.flights[r.flightId].cabin, w.bookings, r.flightId, r.seatIds);
    assert (forall seat :: seat in r.seatIds ==> SeatError(w.flights[r.flightId].cabin, w.bookings, r.flightId, seat) == None)
      <==> forall i :: 0 <= i < |r.seatIds| ==> SeatError(w.flights[r.flightId].cabin, w.bookings, r.flightId, r.seatIds[i]) == None;
  }

  /** A request that passes commit's checks passes them later exactly as long as its
      quote and lock live and its seats stay unbooked; the amount due is the same. */
  lemma ChecksPassLater(w: World, w': World, r: CommitRequest)
    requires CheckError(w, r) == None && Later(w, w')
    requires r.lockId.Some? ==> OnlyRecord(w', r.lockId.value, w.locks.byLock[r.lockId.value])
    ensures CheckError(w', r) == None <==> QuoteLive(w', r.quoteId) && SeatsUnbooked(w', r) && LockLive(w', r.lockId)
    ensures CheckError(w', r) == None ==> Due(w', r) == Due(w, r)
  {
    hide Total, SeatAlreadyBooked;
    ChecksDecompose(w, r);
    ChecksDecompose(w', r);
  }

  /** The payment token is no part of the checks or of the amount. */
  lemma TokenIsNotChecked(w: World, r: CommitRequest, token: string)
    ensures CheckError(w, r.(paymentToken := token)) == CheckError(w, r)
    ensures r.flightId in w.flights ==> Due(w, r.(paymentToken := token)) == Due(w, r)
  {
    hide ResolveQuote, SeatsError, LockError, AmountDue;
  }

  /** If a commit is declined in some reachable state, then after any run from there
      the same request with any payment token that is now accepted books, and charges
      that token what was asked the first time, if and only if its quote and lock still
      live, its seats are still unbooked and a reference is left. */
  lemma RetryAfterDecline(from: Sys, before: seq<Label>, after: seq<Label>, r: CommitRequest, declined: PaymentResult,
                          token: string, accepted: PaymentResult)
    requires Initial(from) && accepted.succeeded
    requires CommitCall(Exec(from, before).w, r, declined).1 == Refused(PaymentDeclined)
    ensures var w, w' := Exec(from, before).w, Exec(Exec(from, before), after).w;
            var (w'', result) := CommitCall(w', r.(paymentToken := token), accepted);
            && (result.Booked? <==>
                  QuoteLive(w', r.quoteId) && SeatsUnbooked(w', r) && LockLive(w', r.lockId) && w'.references != [])
            && r.flightId in w.flights
            && (result.Booked? ==>
                  && result.booking.totalCharged == Due(w, r) && result.booking.seatIds == r.seatIds
                  && w''.charges == w'.charges + [Charge(token, Due(w, r), true)])
  {
    hide Exec, Initial, Safe, Trail, CheckError, Due, QuoteLive, SeatsUnbooked, LockLive;
    var s := Exec(from, before);
    var s' := Exec(s, after);
    SaneEver(from, before);
    LaterEver(s, after);
    DeclinedMeansChecked(s.w, r, declined);
    if r.lockId.Some? {
      OnlyRecordEver(s, after, r.lockId.value, s.w.locks.byLock[r.lockId.value]);
    }
    ChecksPassLater(s.w, s'.w, r);
    TokenIsNotChecked(s'.w, r, token);
  }

  lemma DeclinedMeansChecked(w: World, r: CommitRequest, declined: PaymentResult)
    requires CommitCall(w, r, declined).1 == Refused(PaymentDeclined) && LocksFresh(w)
    ensures CheckError(w, r) == None && r.flightId in w.flights
    ensures r.lockId.Some? ==> r.lockId.value in w.locks.byLock && r.lockId.value !in w.lockIds
  {
    NeverDeclinesInChecks(w, r);
  }

  lemma NeverDeclinesInChecks(w: World, r: CommitRequest)
    ensures CheckError(w, r) != Some(PaymentDeclined)
  {
    if r.flightId in w.flights {
      SeatsNeverDecline(w.flights[r.flightId].cabin, w.bookings, r.flightId, r.seatIds);
    }
  }

  lemma {:induction false} SeatsNeverDecline(cabin: Cabin, bookings: seq<Booking>, flightId: FlightId, seats: seq<SeatId>)
    ensures SeatsError(cabin, bookings, flightId, seats) != Some(PaymentDeclined)
  {
    if seats != [] {
      SeatsNeverDecline(cabin, bookings, flightId, seats[1..]);
    }
  }
}
