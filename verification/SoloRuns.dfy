/** The atomic calls are runs of the step model: a call whose steps are not
    interleaved with anything does exactly what CommitCall, QuoteCall and Acquire say. */
module SoloRuns {
  import opened Entities
  import opened LockTables
  import opened LockRuns
  import opened Bookings
  import opened Worlds
  import opened Quoting
  import opened Committing
  import opened Steps

  /** n steps of one thread and nothing else. */
  function Alone(s: Sys, t: ThreadId, verdict: PaymentResult, n: nat): Sys
    decreases n
  {
    if n == 0 then s else Alone(Step(s, Go(t, verdict)), t, verdict, n - 1)
  }

  /** A commit's world and log after its end, with its thread idle and the commit lock free. */
  function Ended(s: Sys, t: ThreadId, w: World, log: seq<LockCall>, c: CommitRecord): Sys {
    Sys(w, None, s.holder, s.pcs[t := Idle], log, s.commits + [c], s.answers)
  }

  ghost predicate At(s: Sys, t: ThreadId, pc: Pc) {
    PcOf(s, t) == pc && s.committer == Some(t) && s.holder.None?
  }

  lemma FromLeave(s: Sys, t: ThreadId, v: PaymentResult, r: CommitRequest, result: CommitResult) returns (n: nat)
    requires At(s, t, Recording(r, ToLeave(result)))
    ensures Alone(s, t, v, n) == Ended(s, t, s.w, s.log, CommitRecord(r, result))
  {
    n := 1;
    assert Alone(s, t, v, 1) == Alone(Step(s, Go(t, v)), t, v, 0);
  }

  function ReleaseLog(log: seq<LockCall>, lockId: Option<LockId>): seq<LockCall> {
    if lockId.Some? then log + [LockCall(ReleaseOp(lockId.value), None)] else log
  }

  /** What is left to do once a booking is named: save, mail, release, audit. */
  function AfterBooking(w: World, r: CommitRequest, b: Booking): World {
    w.(bookings := SaveBooking(w.bookings, b), emails := w.emails + [b], locks := ReleaseGiven(w.locks, r.lockId),
       audit := w.audit + [CommittedEvent(b)])
  }

  lemma FromSave(s: Sys, t: ThreadId, v: PaymentResult, r: CommitRequest, b: Booking) returns (n: nat)
    requires At(s, t, Recording(r, ToSave(b)))
    ensures Alone(s, t, v, n) ==
            Ended(s, t, AfterBooking(s.w, r, b), ReleaseLog(s.log, r.lockId), CommitRecord(r, Booked(b)))
  {
    hide SaveBooking, Release, CommittedEvent, Step;
    var s1 := Step(s, Go(t, v));
    StepsRecord(s, t, v);
    var s2 := Step(s1, Go(t, v));
    StepsRecord(s1, t, v);
    var s3 := Step(s2, Go(t, v));
    StepsRecord(s2, t, v);
    var s4 := Step(s3, Go(t, v));
    StepsRecord(s3, t, v);
    assert At(s4, t, Recording(r, ToLeave(Booked(b)))) && s4.w == AfterBooking(s.w, r, b);
    assert s4.log == ReleaseLog(s.log, r.lockId) && s4.commits == s.commits && s4.pcs[t := Idle] == s.pcs[t := Idle];
    n := FromLeave(s4, t, v, r, Booked(b));
    n := n + 4;
    FourMore(s, t, v, n - 4);
  }

  lemma StepsRecord(s: Sys, t: ThreadId, v: PaymentResult)
    requires PcOf(s, t).Recording?
    ensures Step(s, Go(t, v)) == RecordStep(s, t, PcOf(s, t).request, PcOf(s, t).r)
  {
    hide RecordStep;
  }

  lemma OneStep(s: Sys, t: ThreadId, v: PaymentResult, n: nat)
    ensures Alone(s, t, v, n + 1) == Alone(Step(s, Go(t, v)), t, v, n)
  {
    hide Step;
  }

  lemma FourMore(s: Sys, t: ThreadId, v: PaymentResult, n: nat)
    ensures Alone(s, t, v, n + 4) ==
            Alone(Step(Step(Step(Step(s, Go(t, v)), Go(t, v)), Go(t, v)), Go(t, v)), t, v, n)
  {
    hide Step, Alone;
    var s1 := Step(s, Go(t, v));
    var s2 := Step(s1, Go(t, v));
    var s3 := Step(s2, Go(t, v));
    OneStep(s, t, v, n + 3);
    OneStep(s1, t, v, n + 2);
    OneStep(s2, t, v, n + 1);
    OneStep(s3, t, v, n);
  }

  /** What is left to do once the checks have passed, and what it answers. */
  function AfterChecks(w: World, r: CommitRequest, now: Time, quote: Option<Quote>, v: PaymentResult): (World, CommitResult) {
    var total := DueFor(w, r, quote);
    var w1 := w.(charges := w.charges + [Charge(r.paymentToken, total, v.succeeded)]);
    if !v.succeeded then (w1.(audit := w.audit + [FailedEvent(r, v, now)]), Refused(PaymentDeclined))
    else if w.references == [] then (w1, ReferencesExhausted)
    else
      var b := MakeBooking(w.references[0], r, total, quote, now);
      (AfterBooking(w1.(references := w.references[1..]), r, b), Booked(b))
  }

  lemma FromCharge(s: Sys, t: ThreadId, v: PaymentResult, r: CommitRequest, now: Time, quote: Option<Quote>) returns (n: nat)
    requires At(s, t, Paying(r, ToCharge(now, quote)))
    ensures var (w, result) := AfterChecks(s.w, r, now, quote, v);
            Alone(s, t, v, n) == Ended(s, t, w, if result.Booked? then ReleaseLog(s.log, r.lockId) else s.log, CommitRecord(r, result))
  {
    hide AfterBooking, MakeBooking, FailedEvent, AcquireStep, QuoteStep, AfterCheck, RecordStep;
    var s1 := Step(s, Go(t, v));
    var s2 := Step(s1, Go(t, v));
    assert s2.pcs[t := Idle] == s.pcs[t := Idle];
    var (w, result) := AfterChecks(s.w, r, now, quote, v);
    if result.Booked? {
      n := FromSave(s2, t, v, r, result.booking);
    } else {
      n := FromLeave(s2, t, v, r, result);
    }
    n := n + 2;
    assert Alone(s, t, v, n) == Alone(s1, t, v, n - 1);
  }

  /** What remains of the lock check, from here. */
  lemma FromLock(s: Sys, t: ThreadId, v: PaymentResult, r: CommitRequest, now: Time, quote: Option<Quote>) returns (n: nat)
    requires At(s, t, Checking(r, AtLock(now, quote)))
    ensures var error := LockError(s.w.locks, r.lockId, r.sessionId, now);
            if error.Some? then Alone(s, t, v, n) == Ended(s, t, s.w, s.log, CommitRecord(r, Refused(error.value)))
            else
              var (w, result) := AfterChecks(s.w, r, now, quote, v);
              Alone(s, t, v, n) == Ended(s, t, w, if result.Booked? then ReleaseLog(s.log, r.lockId) else s.log, CommitRecord(r, result))
  {
    hide AfterChecks, AcquireStep, QuoteStep, PayStep, RecordStep, SeatError;
    var error := LockError(s.w.locks, r.lockId, r.sessionId, now);
    var s1 := Step(s, Go(t, v));
    if r.lockId.None? {
      n := FromCharge(s1, t, v, r, now, quote);
      n := n + 1;
    } else {
      var s2 := Step(s1, Go(t, v));
      assert s2.pcs[t := Idle] == s.pcs[t := Idle];
      if error.Some? {
        n := FromLeave(s2, t, v, r, Refused(error.value));
      } else {
        n := FromCharge(s2, t, v, r, now, quote);
      }
      n := n + 2;
      assert Alone(s, t, v, n) == Alone(s1, t, v, n - 1);
    }
  }

  /** What remains of the checks, from the given seat on. */
  function SeatsThenLock(w: World, r: CommitRequest, now: Time, from: nat): Option<CommitError>
    requires from <= |r.seatIds|
  {
    var seats := SeatsError(CabinOf(w, r.flightId), w.bookings, r.flightId, r.seatIds[from..]);
    if seats.Some? then seats else LockError(w.locks, r.lockId, r.sessionId, now)
  }

  ghost predicate EndsAs(s: Sys, t: ThreadId, v: PaymentResult, r: CommitRequest, now: Time, quote: Option<Quote>,
                         error: Option<CommitError>, n: nat) {
    if error.Some? then Alone(s, t, v, n) == Ended(s, t, s.w, s.log, CommitRecord(r, Refused(error.value)))
    else
      var (w, result) := AfterChecks(s.w, r, now, quote, v);
      Alone(s, t, v, n) == Ended(s, t, w, if result.Booked? then ReleaseLog(s.log, r.lockId) else s.log, CommitRecord(r, result))
  }

  lemma OneMore(s: Sys, s1: Sys, t: ThreadId, v: PaymentResult, r: CommitRequest, now: Time, quote: Option<Quote>,
                error: Option<CommitError>, n: nat)
    requires s1 == Step(s, Go(t, v)) && EndsAs(s1, t, v, r, now, quote, error, n)
    requires s1.w == s.w && s1.log == s.log && s1.commits == s.commits && s1.answers == s.answers && s1.holder == s.holder && s1.pcs[t := Idle] == s.pcs[t := Idle]
    ensures EndsAs(s, t, v, r, now, quote, error, n + 1)
  {
    hide Step, AfterChecks;
  }

  lemma {:induction false} FromSeat(s: Sys, t: ThreadId, v: PaymentResult, r: CommitRequest, now: Time, quote: Option<Quote>, i: nat)
    returns (n: nat)
    requires i <= |r.seatIds| && At(s, t, Checking(r, AtSeat(now, quote, i)))
    ensures EndsAs(s, t, v, r, now, quote, SeatsThenLock(s.w, r, now, i), n)
    decreases |r.seatIds| - i
  {
    hide AfterChecks, SeatError, LockError, EndsAs, AcquireStep, QuoteStep, PayStep, RecordStep;
    var error := SeatsThenLock(s.w, r, now, i);
    var s1 := Step(s, Go(t, v));
    assert s1.pcs[t := Idle] == s.pcs[t := Idle];
    if i == |r.seatIds| {
      n := LockEnds(s1, t, v, r, now, quote);
    } else {
      var seat := SeatError(CabinOf(s.w, r.flightId), s.w.bookings, r.flightId, r.seatIds[i]);
      assert r.seatIds[i..][0] == r.seatIds[i] && r.seatIds[i..][1..] == r.seatIds[i + 1..];
      if seat.Some? {
        n := LeaveEnds(s1, t, v, r, now, quote, seat.value);
      } else {
        n := FromSeat(s1, t, v, r, now, quote, i + 1);
      }
    }
    OneMore(s, s1, t, v, r, now, quote, error, n);
    n := n + 1;
  }

  lemma LockEnds(s: Sys, t: ThreadId, v: PaymentResult, r: CommitRequest, now: Time, quote: Option<Quote>) returns (n: nat)
    requires At(s, t, Checking(r, AtLock(now, quote)))
    ensures EndsAs(s, t, v, r, now, quote, LockError(s.w.locks, r.lockId, r.sessionId, now), n)
  {
    hide AfterChecks, Step;
    n := FromLock(s, t, v, r, now, quote);
  }

  lemma LeaveEnds(s: Sys, t: ThreadId, v: PaymentResult, r: CommitRequest, now: Time, quote: Option<Quote>, error: CommitError)
    returns (n: nat)
    requires At(s, t, Recording(r, ToLeave(Refused(error))))
    ensures EndsAs(s, t, v, r, now, quote, Some(error), n)
  {
    n := FromLeave(s, t, v, r, Refused(error));
  }

  /** From the quote check on. */
  lemma FromQuote(s: Sys, t: ThreadId, v: PaymentResult, r: CommitRequest, now: Time) returns (n: nat)
    requires At(s, t, Checking(r, AtQuote(now)))
    ensures var lookup := ResolveQuote(s.w.quotes, r.quoteId, now);
            EndsAs(s, t, v, r, now, QuoteOf(lookup), if lookup.BadQuote? then Some(lookup.error) else SeatsThenLock(s.w, r, now, 0), n)
  {
    hide AfterChecks, EndsAs, SeatsThenLock, AcquireStep, QuoteStep, PayStep, RecordStep, SeatError;
    var lookup := ResolveQuote(s.w.quotes, r.quoteId, now);
    var s1 := Step(s, Go(t, v));
    assert s1.pcs[t := Idle] == s.pcs[t := Idle];
    if lookup.BadQuote? {
      var s2 := Step(s1, Go(t, v));
      assert s2.pcs[t := Idle] == s1.pcs[t := Idle];
      n := LeaveEnds(s2, t, v, r, now, None, lookup.error);
      OneMore(s1, s2, t, v, r, now, None, Some(lookup.error), n);
      OneMore(s, s1, t, v, r, now, None, Some(lookup.error), n + 1);
      n := n + 2;
    } else {
      n := FromSeat(s1, t, v, r, now, QuoteOf(lookup), 0);
      OneMore(s, s1, t, v, r, now, QuoteOf(lookup), SeatsThenLock(s.w, r, now, 0), n);
      n := n + 1;
    }
  }

  lemma SameChecks(w: World, r: CommitRequest)
    requires r.flightId in w.flights
    ensures var lookup := ResolveQuote(w.quotes, r.quoteId, w.now);
            CheckError(w, r) == if lookup.BadQuote? then Some(lookup.error) else SeatsThenLock(w, r, w.now, 0)
  {
    assert r.seatIds[0..] == r.seatIds;
  }

  lemma SameOutcome(w: World, r: CommitRequest, v: PaymentResult)
    requires r.flightId in w.flights && CheckError(w, r) == None
    ensures CommitCall(w, r, v) == AfterChecks(w, r, w.now, QuoteOf(ResolveQuote(w.quotes, r.quoteId, w.now)), v)
  {
    hide SaveBooking, Release, MakeBooking, FailedEvent, CommittedEvent, SeatsError, LockError;
  }

  /** A commit called by an idle thread while both locks are free, and run to its
      end without interruption, has exactly the effect and the answer of CommitCall. */
  lemma CommitAlone(s: Sys, t: ThreadId, r: CommitRequest, v: PaymentResult) returns (n: nat)
    requires PcOf(s, t).Idle? && s.committer.None? && s.holder.None?
    ensures var (w, result) := CommitCall(s.w, r, v);
            Alone(Step(s, CallCommit(t, r)), t, v, n) ==
            Ended(s, t, w, if result.Booked? then ReleaseLog(s.log, r.lockId) else s.log, CommitRecord(r, result))
  {
    hide AfterChecks, SeatsThenLock, CommitCall, CheckError, ResolveQuote, AcquireStep, QuoteStep, PayStep, RecordStep, SeatError;
    var s1 := Step(s, CallCommit(t, r));
    var s2 := Step(s1, Go(t, v));
    var s3 := Step(s2, Go(t, v));
    assert s3.pcs[t := Idle] == s.pcs[t := Idle];
    var (w, result) := CommitCall(s.w, r, v);
    if r.flightId !in s.w.flights {
      n := FromLeave(s3, t, v, r, Refused(FlightNotFound));
      UnknownFlight(s.w, r, v);
    } else {
      n := FromQuote(s3, t, v, r, s.w.now);
      SameChecks(s.w, r);
      if CheckError(s.w, r).Some? {
        RefusedByCheck(s.w, r, v);
      } else {
        SameOutcome(s.w, r, v);
      }
    }
    n := n + 2;
    assert Alone(s1, t, v, n) == Alone(s2, t, v, n - 1) == Alone(s3, t, v, n - 2);
  }

  lemma UnknownFlight(w: World, r: CommitRequest, v: PaymentResult)
    requires r.flightId !in w.flights
    ensures CommitCall(w, r, v) == (w, Refused(FlightNotFound))
  {
  }

  lemma RefusedByCheck(w: World, r: CommitRequest, v: PaymentResult)
    requires CheckError(w, r).Some?
    ensures CommitCall(w, r, v) == (w, Refused(CheckError(w, r).value))
  {
    hide CheckError;
  }

  /** A quote called by an idle thread and run to its end without interruption has
      exactly the effect and the answer of QuoteCall. */
  lemma QuoteAlone(s: Sys, t: ThreadId, r: QuoteRequest, v: PaymentResult) returns (n: nat)
    requires PcOf(s, t).Idle?
    ensures var (w, answer) := QuoteCall(s.w, r);
            Alone(Step(s, CallQuote(t, r)), t, v, n) == s.(w := w, pcs := s.pcs[t := Idle], answers := s.answers + [answer])
  {
    hide PriceSeats, ActiveBookedSeatCount, DaysBefore, DrawIds, Step, QuoteCall;
    var s1 := Step(s, CallQuote(t, r));
    assert s1 == To(s, t, Pricing(ToRead(r, s.w.now))) by { CallsQuote(s, t, r); }
    var s2 := Step(s1, Go(t, v));
    assert s2 == QuoteStep(s1, t, ToRead(r, s.w.now)) by { StepsQuote(s1, t, v); }
    assert Alone(s1, t, v, 1) == Alone(s2, t, v, 0) == s2;
    var known := r.flightId in s.w.flights && DaysBefore(s.w.flights[r.flightId], s.w.now) >= 0;
    if !known {
      n := 1;
      QuoteUnpriced(s.w, r);
      assert s2.pcs == s.pcs[t := Idle];
    } else {
      var priced := PriceSeats(s.w.flights[r.flightId], r.flightId, r.seatIds, ActiveBookedSeatCount(s.w.bookings, r.flightId), s.w.now);
      assert s2 == To(s1, t, Pricing(ToDraw(r, s.w.now, priced)));
      QuotePricedAs(s.w, r, priced);
      var m := FromDraw(s2, t, v, r, s.w.now, priced);
      n := m + 1;
      assert s2.pcs[t := Idle] == s.pcs[t := Idle];
      assert Alone(s1, t, v, n) == Alone(s2, t, v, m);
    }
  }

  lemma CallsQuote(s: Sys, t: ThreadId, r: QuoteRequest)
    requires PcOf(s, t).Idle?
    ensures Step(s, CallQuote(t, r)) == To(s, t, Pricing(ToRead(r, s.w.now)))
  {
  }

  lemma StepsQuote(s: Sys, t: ThreadId, v: PaymentResult)
    requires PcOf(s, t).Pricing?
    ensures Step(s, Go(t, v)) == QuoteStep(s, t, PcOf(s, t).q)
  {
  }

  lemma QuoteUnpriced(w: World, r: QuoteRequest)
    requires !(r.flightId in w.flights && DaysBefore(w.flights[r.flightId], w.now) >= 0)
    ensures QuoteCall(w, r) == (w, if r.flightId !in w.flights then QuoteNotFound else FlightAlreadyDeparted)
  {
    hide DaysBefore;
  }

  /** What a quote call does once it has a price. */
  function AfterPricing(w: World, r: QuoteRequest, now: Time, priced: Priced): (World, QuoteResult) {
    var (w1, ids) := DrawIds(w, r.sessionId);
    if ids.None? then (w1, QuoteIdsExhausted)
    else
      var q := MakeQuote(ids.value.1, ids.value.0, r, priced, now);
      (w1.(quotes := w1.quotes[q.id := q], audit := w1.audit + [BuildAuditEvent(q, priced)]), Quoted(q))
  }

  lemma QuotePricedAs(w: World, r: QuoteRequest, priced: Priced)
    requires r.flightId in w.flights && DaysBefore(w.flights[r.flightId], w.now) >= 0
    requires priced == PriceSeats(w.flights[r.flightId], r.flightId, r.seatIds, ActiveBookedSeatCount(w.bookings, r.flightId), w.now)
    ensures QuoteCall(w, r) == AfterPricing(w, r, w.now, priced)
  {
    hide PriceSeats, ActiveBookedSeatCount, DaysBefore, DrawIds, MakeQuote, BuildAuditEvent;
  }

  lemma FromDraw(s: Sys, t: ThreadId, v: PaymentResult, r: QuoteRequest, now: Time, priced: Priced) returns (n: nat)
    requires PcOf(s, t) == Pricing(ToDraw(r, now, priced))
    ensures var (w, answer) := AfterPricing(s.w, r, now, priced);
            Alone(s, t, v, n) == s.(w := w, pcs := s.pcs[t := Idle], answers := s.answers + [answer])
  {
    hide Step, DrawIds, MakeQuote, BuildAuditEvent;
    var s1 := Step(s, Go(t, v));
    assert s1 == QuoteStep(s, t, ToDraw(r, now, priced)) by { StepsQuote(s, t, v); }
    var (w1, ids) := DrawIds(s.w, r.sessionId);
    if ids.None? {
      n := 1;
      assert Alone(s, t, v, 1) == Alone(s1, t, v, 0);
    } else {
      var q := MakeQuote(ids.value.1, ids.value.0, r, priced, now);
      assert s1 == To(s.(w := w1), t, Pricing(ToStore(q, priced)));
      FromStore(s1, t, v, q, priced);
      n := 3;
      assert Alone(s, t, v, 3) == Alone(s1, t, v, 2);
      assert s1.pcs[t := Idle] == s.pcs[t := Idle];
    }
  }

  lemma FromStore(s: Sys, t: ThreadId, v: PaymentResult, q: Quote, priced: Priced)
    requires PcOf(s, t) == Pricing(ToStore(q, priced))
    ensures Alone(s, t, v, 2) ==
            s.(w := s.w.(quotes := s.w.quotes[q.id := q], audit := s.w.audit + [BuildAuditEvent(q, priced)]),
               pcs := s.pcs[t := Idle], answers := s.answers + [Quoted(q)])
  {
    hide Step, BuildAuditEvent;
    var s1 := Step(s, Go(t, v));
    StepsQuote(s, t, v);
    var s2 := Step(s1, Go(t, v));
    StepsQuote(s1, t, v);
    assert Alone(s, t, v, 2) == Alone(s1, t, v, 1) == Alone(s2, t, v, 0) == s2;
    assert s2.pcs == s.pcs[t := Idle];
  }

  function Goes(t: ThreadId, v: PaymentResult, n: nat): seq<Label> {
    if n == 0 then [] else [Go(t, v)] + Goes(t, v, n - 1)
  }

  /** Uninterrupted calls are runs, so what holds over every run holds after them. */
  lemma {:induction false} AloneIsARun(s: Sys, t: ThreadId, v: PaymentResult, n: nat)
    ensures Alone(s, t, v, n) == Exec(s, Goes(t, v, n))
    decreases n
  {
    hide Step;
    if n > 0 {
      AloneIsARun(Step(s, Go(t, v)), t, v, n - 1);
      assert Goes(t, v, n)[1..] == Goes(t, v, n - 1);
    }
  }
}
