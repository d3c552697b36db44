/** What an interleaved commit relies on stands until it has saved its booking: each
    refusal by a check and each booking is the one CommitCall gives on the state of
    that moment, with the clock read at the call's start. The one exception, a check
    overtaken between its two reads, is characterized exactly. */
module CommitPoints {
  import opened Entities
  import Breakdown
  import opened LockTables
  import opened Bookings
  import opened QuoteStores
  import opened Worlds
  import opened Committing
  import opened Steps
  import opened BookingSafety
  import opened QuoteTrail
  import opened Futures
  import opened CommitHistory

  /** The flight is known and the clock was read no later than now. */
  ghost predicate Started(w: World, r: CommitRequest, now: Time) {
    r.flightId in w.flights && now <= w.now
  }

  /** The quote found earlier, if any, is still what the quote check finds. */
  ghost predicate QuoteStands(w: World, r: CommitRequest, now: Time, quote: Option<Quote>) {
    && Started(w, r, now)
    && ResolveQuote(w.quotes, r.quoteId, now) == if quote.Some? then FoundQuote(quote.value) else NoQuoteGiven
  }

  ghost predicate LockStands(w: World, r: CommitRequest, now: Time) {
    LockError(w.locks, r.lockId, r.sessionId, now) == None
  }

  /** The last charge is this request's. */
  ghost predicate Charged(w: World, r: CommitRequest, amount: Cents, succeeded: bool) {
    w.charges != [] && w.charges[|w.charges| - 1] == Charge(r.paymentToken, amount, succeeded)
  }

  /** What a commit has established stays true until it has saved its booking. */
  ghost predicate Standing(w: World, pc: Pc) {
    match pc
    case Checking(r, AtQuote(now)) => Started(w, r, now)
    case Checking(r, AtQuoteRaw(now)) => Started(w, r, now) && r.quoteId.Some?
    case Checking(r, AtSeat(now, quote, _)) => QuoteStands(w, r, now, quote)
    case Checking(r, AtLock(now, quote)) => QuoteStands(w, r, now, quote)
    case Checking(r, AtLockOwner(now, quote)) =>
      QuoteStands(w, r, now, quote) && r.lockId.Some? && IsValid(w.locks, r.lockId.value, now)
    case Checking(r, AtLockRaw(now, quote)) => QuoteStands(w, r, now, quote) && r.lockId.Some?
    case Paying(r, ToCharge(now, quote)) => QuoteStands(w, r, now, quote) && LockStands(w, r, now)
    case Paying(r, ToName(now, quote)) =>
      QuoteStands(w, r, now, quote) && LockStands(w, r, now) && Charged(w, r, DueFor(w, r, quote), true)
    case Recording(r, ToSave(b)) =>
      var quote := QuoteOf(ResolveQuote(w.quotes, r.quoteId, b.confirmedAt));
      && QuoteStands(w, r, b.confirmedAt, quote) && LockStands(w, r, b.confirmedAt)
      && b == MakeBooking(b.reference, r, DueFor(w, r, quote), quote, b.confirmedAt)
      && Charged(w, r, b.totalCharged, true)
    case _ => true
  }

  // ---- Steps of other threads

  /** Locks a commit relies on stay: only a commit releases. */
  ghost predicate LocksStay(w: World, w': World) {
    forall id :: id in w.locks.byLock ==> id in w'.locks.byLock && w'.locks.byLock[id] == w.locks.byLock[id]
  }

  lemma LocksStayElsewhere(s: Sys, l: Label)
    requires LocksFresh(s.w) && !CommitStep(s, l)
    ensures LocksStay(s.w, Step(s, l).w)
  {
    hide Step, CommitStep, LocksFresh;
    LocksOf(s, l);
    forall id | id in s.w.locks.byLock
      ensures id in Step(s, l).w.locks.byLock && Step(s, l).w.locks.byLock[id] == s.w.locks.byLock[id]
    {
      assert LockStep(s.w, Step(s, l).w, id);
    }
  }

  lemma StandingStays(w: World, w': World, pc: Pc)
    requires Standing(w, pc) && Grows(w, w') && LocksStay(w, w')
    requires w'.flights == w.flights && w.now <= w'.now && w'.charges == w.charges
    ensures Standing(w', pc)
  {
    hide Breakdown.Total;
    if pc.Recording? && pc.r.ToSave? {
      QuoteStays(w, w', pc.request, pc.r.booking.confirmedAt, QuoteOf(ResolveQuote(w.quotes, pc.request.quoteId, pc.r.booking.confirmedAt)));
    }
  }

  lemma QuoteStays(w: World, w': World, r: CommitRequest, now: Time, quote: Option<Quote>)
    requires QuoteStands(w, r, now, quote) && Grows(w, w') && w'.flights == w.flights && w.now <= w'.now
    ensures QuoteStands(w', r, now, quote) && DueFor(w', r, quote) == DueFor(w, r, quote)
  {
    hide Breakdown.Total;
  }

  // ---- Steps of the commit itself

  lemma StandingCheck(s: Sys, r: CommitRequest, c: CheckPc)
    requires Standing(s.w, Checking(r, c))
    ensures Standing(s.w, AfterCheck(s, r, c))
  {
    hide SeatError;
  }

  lemma StandingPay(s: Sys, t: ThreadId, r: CommitRequest, p: PayPc, verdict: PaymentResult)
    requires Standing(s.w, Paying(r, p))
    ensures var s' := PayStep(s, t, r, p, verdict); Standing(s'.w, PcOf(s', t))
  {
    hide Breakdown.Total, LockError;
  }

  lemma StandingStep(s: Sys, l: Label)
    requires Sane(s) && Standing(s.w, CommitPc(s))
    ensures Standing(Step(s, l).w, CommitPc(Step(s, l)))
  {
    hide Standing, IdsFresh, StoredWell, Told, Reported, Cited, NoDoubleBooking, BookedWell, ReferencesFresh, CommitSafe, LocksFresh;
    hide AcquireStep, QuoteStep, AfterCheck, PayStep, RecordStep;
    if CommitStep(s, l) {
      match PcOf(s, l.t)
      case CommitWaiting(r) => StandingAtStart(s.w, Checking(r, AtFlight));
      case Checking(r, c) => CheckFrame(s, r, c); StandingCheck(s, r, c);
      case Paying(r, p) => PayFrame(s, l.t, r, p, l.verdict); StandingPay(s, l.t, r, p, l.verdict);
      case Recording(r, step) => RecordFrame(s, l.t, r, step); StandingRecord(s, l.t, r, step);
    } else {
      OtherStep(s, l);
      CatalogAndClock(s, l);
      QuotesGrow(s, l);
      LocksStayElsewhere(s, l);
      StandingStays(s.w, Step(s, l).w, CommitPc(s));
    }
  }

  lemma StandingAtStart(w: World, pc: Pc)
    requires (pc.Checking? && pc.c.AtFlight?) || pc.Idle?
    ensures Standing(w, pc)
  {
  }

  lemma StandingRecord(s: Sys, t: ThreadId, r: CommitRequest, step: RecordPc)
    requires Standing(s.w, Recording(r, step)) && PcOf(s, t) == Recording(r, step)
    ensures var s' := RecordStep(s, t, r, step); Standing(s'.w, PcOf(s', t)) && Standing(s'.w, Idle)
  {
    hide LockError, QuoteStands, SaveBooking, Release;
  }

  lemma {:induction false} StandingExec(s: Sys, ls: seq<Label>)
    requires Sane(s) && Standing(s.w, CommitPc(s))
    ensures Standing(Exec(s, ls).w, CommitPc(Exec(s, ls)))
    decreases |ls|
  {
    hide Sane, Step, Standing, CommitPc;
    if ls != [] {
      StandingStep(s, ls[0]);
      SaneStep(s, ls[0]);
      StandingExec(Step(s, ls[0]), ls[1..]);
    }
  }

  lemma StandingEver(from: Sys, ls: seq<Label>)
    requires Initial(from)
    ensures var s := Exec(from, ls); Sane(s) && Standing(s.w, CommitPc(s))
  {
    hide Sane, Standing;
    assert Sane(from) && Exec(from, []) == from by { SaneEver(from, []); }
    StandingAtStart(from.w, CommitPc(from));
    StandingExec(from, ls);
    SaneEver(from, ls);
  }

  // ---- Refusals

  /** The clock reading the check works with. */
  function ReadAt(w: World, c: CheckPc): Time {
    if c.AtFlight? then w.now else c.now
  }

  /** The second read of a check finds the quote or lock live, and takes it for expired. */
  ghost predicate FoundLive(w: World, r: CommitRequest, c: CheckPc) {
    || (c.AtQuoteRaw? && r.quoteId.Some? && GetValidQuote(w.quotes, r.quoteId.value, c.now).Some?)
    || (c.AtLockRaw? && r.lockId.Some? && IsValid(w.locks, r.lockId.value, c.now))
  }

  /** A check is overtaken: its first read, on the earlier state, sees no such quote or
      lock at all, and its second finds it live, so it was stored in between. */
  ghost predicate Overtaken(first: World, w: World, r: CommitRequest, c: CheckPc) {
    && FoundLive(w, r, c)
    && (c.AtQuoteRaw? ==> r.quoteId.value !in first.quotes)
    && (c.AtLockRaw? ==> r.lockId.value !in first.locks.byLock)
  }

  /** All seats checked before this point passed, and the others will be checked. */
  lemma SeatsDecide(w: World, r: CommitRequest, c: CheckPc)
    requires r.flightId in w.flights && SeatsClear(w, r, SeatsPassed(r, c))
    ensures var cabin := w.flights[r.flightId].cabin;
            && (c.AtLock? || c.AtLockOwner? || c.AtLockRaw? ==> SeatsError(cabin, w.bookings, r.flightId, r.seatIds) == None)
            && (c.AtSeat? && c.seated < |r.seatIds| && SeatError(cabin, w.bookings, r.flightId, r.seatIds[c.seated]).Some? ==>
                  SeatsError(cabin, w.bookings, r.flightId, r.seatIds) == SeatError(cabin, w.bookings, r.flightId, r.seatIds[c.seated]))
  {
    hide SeatError, SeatsError;
    var cabin := w.flights[r.flightId].cabin;
    if c.AtLock? || c.AtLockOwner? || c.AtLockRaw? {
      SeatsErrorNone(cabin, w.bookings, r.flightId, r.seatIds);
    }
    if c.AtSeat? && c.seated < |r.seatIds| && SeatError(cabin, w.bookings, r.flightId, r.seatIds[c.seated]).Some? {
      SeatsErrorFirst(cabin, w.bookings, r.flightId, r.seatIds, c.seated);
    }
  }

  lemma {:induction false} SeatsNameASeat(cabin: Cabin, bookings: seq<Booking>, flightId: FlightId, seats: seq<SeatId>)
    ensures var error := SeatsError(cabin, bookings, flightId, seats);
            error.Some? ==> error.value.UnknownSeat? || error.value.SeatNotForSale? || error.value.SeatTaken?
  {
    if seats != [] {
      SeatsNameASeat(cabin, bookings, flightId, seats[1..]);
    }
  }

  lemma RefusalDecided(s: Sys, r: CommitRequest, c: CheckPc)
    requires Standing(s.w, Checking(r, c)) && SeatsClear(s.w, r, SeatsPassed(r, c))
    ensures var pc', w := AfterCheck(s, r, c), s.w.(now := ReadAt(s.w, c));
            && (pc'.Recording? ==>
                  && pc'.r.ToLeave? && pc'.r.result.Refused?
                  && (CheckError(w, r) == Some(pc'.r.result.error) <==> !FoundLive(s.w, r, c)))
            && (pc'.Paying? ==>
                  && pc'.p.ToCharge? && CheckError(w, r) == None
                  && Due(w, r) == DueFor(s.w, r, pc'.p.quote))
  {
    hide SeatError, SeatsError, SeatsClear, Breakdown.Total;
    CheckFrame(s, r, c);
    if r.flightId in s.w.flights {
      SeatsDecide(s.w, r, c);
      SeatsNameASeat(s.w.flights[r.flightId].cabin, s.w.bookings, r.flightId, r.seatIds);
    }
  }

  /** What the first read has missed is not found live later, unless it was absent. */
  lemma MissedStays(s0: Sys, ls: seq<Label>, before: Pc, pc: Pc)
    requires Sane(s0) && SecondRead(pc) && Missed(before, s0.w, pc)
    ensures FoundLive(Exec(s0, ls).w, pc.request, pc.c) <==> Overtaken(s0.w, Exec(s0, ls).w, pc.request, pc.c)
  {
    hide Exec, Safe, Trail;
    var r := pc.request;
    LaterEver(s0, ls);
    if pc.c.AtLockRaw? && r.lockId.value in s0.w.locks.byLock {
      OnlyRecordEver(s0, ls, r.lockId.value, s0.w.locks.byLock[r.lockId.value]);
    }
  }

  lemma SplitRun(from: Sys, ls: seq<Label>, k: nat)
    requires k <= |ls|
    ensures Exec(from, ls) == Exec(StateAt(from, ls, k), ls[k..])
  {
    hide Exec;
    assert ls == ls[..k] + ls[k..];
    ExecAppend(from, ls[..k], ls[k..]);
  }

  /** Over every run, the second read of a check finds the quote or lock live exactly
      when the first one, at the k-th label of the run, found none and it has been
      stored since. */
  lemma FoundLiveMeansOvertaken(from: Sys, ls: seq<Label>, t: ThreadId) returns (k: nat)
    requires Initial(from) && SecondRead(PcOf(Exec(from, ls), t))
    ensures ReadFirst(from, ls, t, k)
    ensures var s := Exec(from, ls);
            FoundLive(s.w, PcOf(s, t).request, PcOf(s, t).c)
            <==> Overtaken(StateAt(from, ls, k).w, s.w, PcOf(s, t).request, PcOf(s, t).c)
  {
    hide Exec, Missed, Sane, FoundLive, Overtaken;
    k := FirstRead(from, ls, t);
    var s0 := StateAt(from, ls, k);
    SaneEver(from, ls[..k]);
    SplitRun(from, ls, k);
    MissedStays(s0, ls[k..], PcOf(s0, t), PcOf(Exec(from, ls), t));
  }

  /** The thread's next check decides as the atomic call on this state, with the call's
      own clock reading: it refuses with the same error, unless misled; and when it is
      the last check and passes, the atomic checks pass as well and the amount about to
      be charged is the one the atomic call asks. */
  ghost predicate DecidesAtomically(s: Sys, t: ThreadId, misled: bool)
    requires PcOf(s, t).Checking?
  {
    var r, c := PcOf(s, t).request, PcOf(s, t).c;
    var pc', w := PcOf(Step(s, Go(t, PaymentResult(true, None))), t), s.w.(now := ReadAt(s.w, c));
    && ReadAt(s.w, c) <= s.w.now
    && (pc'.Recording? ==>
          && pc'.r.ToLeave? && pc'.r.result.Refused?
          && (CheckError(w, r) == Some(pc'.r.result.error) <==> !misled))
    && (pc'.Paying? ==>
          && pc'.p.ToCharge? && CheckError(w, r) == None
          && Due(w, r) == DueFor(s.w, r, pc'.p.quote))
  }

  lemma NextCheckDecides(s: Sys, t: ThreadId)
    requires Sane(s) && Standing(s.w, CommitPc(s)) && PcOf(s, t).Checking?
    ensures DecidesAtomically(s, t, FoundLive(s.w, PcOf(s, t).request, PcOf(s, t).c))
  {
    hide AfterCheck, CheckError, Due, DueFor, FoundLive, Trail, LocksFresh, NoDoubleBooking, BookedWell, ReferencesFresh, SeatsClear;
    assert s.committer == Some(t);
    RefusalDecided(s, PcOf(s, t).request, PcOf(s, t).c);
  }

  /** Only the second read of a check can find live what is called expired. */
  lemma OnlySecondReads(w: World, pc: Pc)
    requires pc.Checking? && FoundLive(w, pc.request, pc.c)
    ensures SecondRead(pc)
  {
  }

  /** Over every run, each check of each commit decides as CommitCall on the state of
      that moment, with the clock as read by the same call at the j-th label, exactly
      unless it is a second read overtaken since its first read at the k-th label. */
  lemma RefusalsAreAtomic(from: Sys, ls: seq<Label>, t: ThreadId) returns (j: nat, k: nat)
    requires Initial(from) && PcOf(Exec(from, ls), t).Checking?
    ensures !PcOf(Exec(from, ls), t).c.AtFlight? ==>
              StartedBy(from, ls, t, PcOf(Exec(from, ls), t).request, PcOf(Exec(from, ls), t).c.now, j)
    ensures SecondRead(PcOf(Exec(from, ls), t)) ==> ReadFirst(from, ls, t, k)
    ensures var s := Exec(from, ls);
            DecidesAtomically(s, t, SecondRead(PcOf(s, t)) && Overtaken(StateAt(from, ls, k).w, s.w, PcOf(s, t).request, PcOf(s, t).c))
  {
    assert PcOf(from, t).Idle?;
    hide Exec, Initial, Sane, Standing, CommitPc, DecidesAtomically, FoundLive, Overtaken, StartedBy, StateAt;
    var s := Exec(from, ls);
    StandingEver(from, ls);
    NextCheckDecides(s, t);
    j, k := 0, 0;
    if SecondRead(PcOf(s, t)) {
      k := FoundLiveMeansOvertaken(from, ls, t);
    } else if FoundLive(s.w, PcOf(s, t).request, PcOf(s, t).c) {
      OnlySecondReads(s.w, PcOf(s, t));
    }
    if !PcOf(s, t).c.AtFlight? {
      j := Began(from, ls, t);
    }
  }

  /** A quote stored and a lock id issued before the call are never called expired while
      they live: only an id that the caller could not have been told can be overtaken. */
  lemma KnownIsNotOvertaken(from: Sys, before: seq<Label>, after: seq<Label>, t: ThreadId)
    requires Initial(from) && !InCommit(PcOf(Exec(from, before), t))
    requires SecondRead(PcOf(Exec(Exec(from, before), after), t))
    requires var w, r := Exec(from, before).w, PcOf(Exec(Exec(from, before), after), t).request;
             && (r.quoteId.Some? ==> r.quoteId.value in w.quotes)
             && (r.lockId.Some? ==> r.lockId.value !in w.lockIds)
    ensures var s := Exec(Exec(from, before), after); !FoundLive(s.w, PcOf(s, t).request, PcOf(s, t).c)
  {
    hide Exec, Initial, Missed, Sane, FoundLive, Overtaken;
    var s1 := Exec(from, before);
    var ls := before + after;
    ExecAppend(from, before, after);
    var k := FoundLiveMeansOvertaken(from, ls, t);
    assert ls[..|before|] == before;
    assert StateAt(from, ls, |before|) == s1;
    assert |before| <= k;
    assert ls[..k] == before + after[..k - |before|];
    ExecAppend(from, before, after[..k - |before|]);
    SaneEver(from, before);
    SplitRun(from, ls, k);
    KnownStays(s1, after[..k - |before|], ls[k..], PcOf(Exec(s1, after), t));
  }

  lemma KnownStays(s1: Sys, upTo: seq<Label>, rest: seq<Label>, pc: Pc)
    requires Sane(s1) && SecondRead(pc)
    requires pc.request.quoteId.Some? ==> pc.request.quoteId.value in s1.w.quotes
    requires pc.request.lockId.Some? ==> pc.request.lockId.value !in s1.w.lockIds
    ensures !Overtaken(Exec(s1, upTo).w, Exec(Exec(s1, upTo), rest).w, pc.request, pc.c)
  {
    hide Exec, Safe, Trail;
    LaterEver(s1, upTo);
    if pc.c.AtLockRaw? && pc.request.lockId.Some? {
      var id := pc.request.lockId.value;
      if id in s1.w.locks.byLock {
        OnlyRecordEver(s1, upTo, id, s1.w.locks.byLock[id]);
      } else {
        DeadEver(s1, upTo, id);
      }
      if id !in Exec(s1, upTo).w.locks.byLock {
        SaneExec(s1, upTo);
        DeadEver(Exec(s1, upTo), rest, id);
      }
    }
  }

  // ---- Bookings

  /** The state with the last charge not made and the booking's reference not drawn. */
  function BeforePayment(w: World, b: Booking): World {
    w.(now := b.confirmedAt, charges := if w.charges == [] then [] else w.charges[..|w.charges| - 1],
       references := [b.reference] + w.references)
  }

  lemma SaveDecided(w: World, r: CommitRequest, b: Booking, accepted: PaymentResult)
    requires Standing(w, Recording(r, ToSave(b))) && SeatsClear(w, r, |r.seatIds|) && accepted.succeeded
    ensures CommitCall(BeforePayment(w, b), r, accepted).1 == Booked(b)
    ensures var w' := CommitCall(BeforePayment(w, b), r, accepted).0;
            w'.bookings == SaveBooking(w.bookings, b) && w'.charges == w.charges && w'.references == w.references
  {
    hide SeatError, SeatsError, LockError, Breakdown.Total, SaveBooking, Release;
    var w0 := BeforePayment(w, b);
    SeatsErrorNone(w.flights[r.flightId].cabin, w.bookings, r.flightId, r.seatIds);
    assert CheckError(w0, r) == None;
    assert Due(w0, r) == b.totalCharged;
    assert w.charges == w.charges[..|w.charges| - 1] + [Charge(r.paymentToken, b.totalCharged, true)];
  }

  /** Over every run, a booking is saved exactly as CommitCall would save it from the
      state of that moment with the payment taken back and the clock as read at the
      call's start: the same booking, and the same bookings, charges and references
      afterwards. Whatever others did since its checks has not outdated them. */
  lemma BookingsAreAtomic(from: Sys, ls: seq<Label>, t: ThreadId, accepted: PaymentResult)
    requires Initial(from) && accepted.succeeded
    requires PcOf(Exec(from, ls), t).Recording? && PcOf(Exec(from, ls), t).r.ToSave?
    ensures var s := Exec(from, ls);
            var r, b := PcOf(s, t).request, PcOf(s, t).r.booking;
            var (w, result) := CommitCall(BeforePayment(s.w, b), r, accepted);
            var w' := Step(s, Go(t, accepted)).w;
            && result == Booked(b) && b.confirmedAt <= s.w.now
            && w'.bookings == w.bookings && w'.charges == w.charges && w'.references == w.references
  {
    hide Exec, Initial, CommitCall, SaveBooking, Trail, LocksFresh, NoDoubleBooking, BookedWell, ReferencesFresh, SeatsClear;
    var s := Exec(from, ls);
    StandingEver(from, ls);
    assert s.committer == Some(t);
    SaveDecided(s.w, PcOf(s, t).request, PcOf(s, t).r.booking, accepted);
  }
}
