/** The prices of the quotes that a run makes: each is the price at some moment between
    its call and its answer, so a quote called after another was stored costs no less. */
module QuotedPrices {
  import opened Entities
  import opened Rounding
  import opened Breakdown
  import opened Occupancy
  import opened Bookings
  import opened Worlds
  import opened Quoting
  import opened Steps
  import opened BookingSafety
  import opened QuoteTrail
  import opened Futures

  /** The breakdown is the price of the seats with the clock and the bookings as they
      were at moments between the two states. */
  ghost predicate PricedBetween(lo: World, hi: World, flightId: FlightId, seats: seq<SeatId>, b: PriceBreakdown, at: Time) {
    && flightId in hi.flights && DaysBefore(hi.flights[flightId], at) >= 0 && lo.now <= at <= hi.now
    && exists k: nat :: PricedWith(lo, hi, flightId, seats, b, at, k)
  }

  ghost predicate PricedWith(lo: World, hi: World, flightId: FlightId, seats: seq<SeatId>, b: PriceBreakdown, at: Time, k: nat)
    requires flightId in hi.flights && DaysBefore(hi.flights[flightId], at) >= 0
  {
    && ActiveBookedSeatCount(lo.bookings, flightId) <= k <= ActiveBookedSeatCount(hi.bookings, flightId)
    && b == PriceSeats(hi.flights[flightId], flightId, seats, k, at).breakdown
  }

  ghost predicate QuotePriced(lo: World, hi: World, q: Quote) {
    PricedBetween(lo, hi, q.flightId, q.seatIds, q.breakdown, q.createdAt)
  }

  /** A thread that quotes does so for a call made since the earlier state. */
  ghost predicate PricedSince(lo: World, w: World, pc: Pc) {
    pc.Pricing? ==>
      match pc.q
      case ToRead(r, now) => lo.now <= now <= w.now
      case ToDraw(r, now, priced) => PricedBetween(lo, w, r.flightId, r.seatIds, priced.breakdown, now)
      case ToStore(made, _) => QuotePriced(lo, w, made)
      case ToReport(made, _) => QuotePriced(lo, w, made)
  }

  lemma StillPriced(lo: World, w: World, w': World, flightId: FlightId, seats: seq<SeatId>, b: PriceBreakdown, at: Time)
    requires PricedBetween(lo, w, flightId, seats, b, at)
    requires w'.flights == w.flights && w.now <= w'.now && w.bookings <= w'.bookings
    ensures PricedBetween(lo, w', flightId, seats, b, at)
  {
    hide PriceSeats, DaysBefore, ActiveBookedSeatCount;
    var k: nat :| PricedWith(lo, w, flightId, seats, b, at, k);
    CountGrows(w.bookings, w'.bookings, flightId);
    assert PricedWith(lo, w', flightId, seats, b, at, k);
  }

  lemma StillPricedSince(lo: World, w: World, w': World, pc: Pc)
    requires PricedSince(lo, w, pc)
    requires w'.flights == w.flights && w.now <= w'.now && w.bookings <= w'.bookings
    ensures PricedSince(lo, w', pc)
  {
    hide PricedBetween;
    if pc.Pricing? {
      match pc.q
      case ToRead(_, _) =>
      case ToDraw(r, now, priced) => StillPriced(lo, w, w', r.flightId, r.seatIds, priced.breakdown, now);
      case ToStore(q, _) => StillPriced(lo, w, w', q.flightId, q.seatIds, q.breakdown, q.createdAt);
      case ToReport(q, _) => StillPriced(lo, w, w', q.flightId, q.seatIds, q.breakdown, q.createdAt);
    }
  }

  lemma PricedByQuoting(lo: World, s: Sys, t: ThreadId, q: QuotePc)
    requires PricedSince(lo, s.w, Pricing(q)) && lo.bookings <= s.w.bookings
    ensures PricedSince(lo, s.w, PcOf(QuoteStep(s, t, q), t))
  {
    hide PriceSeats, DaysBefore, ActiveBookedSeatCount, BuildAuditEvent;
    match q
    case ToRead(r, now) =>
      CountGrows(lo.bookings, s.w.bookings, r.flightId);
      if r.flightId in s.w.flights && DaysBefore(s.w.flights[r.flightId], now) >= 0 {
        var k := ActiveBookedSeatCount(s.w.bookings, r.flightId);
        assert PricedWith(lo, s.w, r.flightId, r.seatIds, PriceSeats(s.w.flights[r.flightId], r.flightId, r.seatIds, k, now).breakdown, now, k);
      }
    case ToDraw(r, now, priced) =>
    case ToStore(made, priced) =>
    case ToReport(made, priced) =>
  }

  /** The thread starts quoting only with a call that reads the clock now. */
  lemma QuotingStarts(s: Sys, l: Label, t: ThreadId)
    requires !(l.Go? && l.t == t && PcOf(s, t).Pricing?)
    ensures var pc' := PcOf(Step(s, l), t);
            pc'.Pricing? ==> pc' == PcOf(s, t) || (pc'.q.ToRead? && pc'.q.now == Step(s, l).w.now)
  {
    hide AcquireStep, QuoteStep, AfterCheck, PayStep, RecordStep;
    if l.Go? {
      match PcOf(s, l.t)
      case Acquiring(want, a) => if want.AcquireOp? { AcquireFrame(s, l.t, want, a); }
      case Pricing(q) => QuoteFrame(s, l.t, q);
      case Checking(r, c) => CheckFrame(s, r, c);
      case Paying(r, p) => PayFrame(s, l.t, r, p, l.verdict);
      case Recording(r, step) => RecordFrame(s, l.t, r, step);
      case _ =>
    }
  }

  lemma PricedStep(lo: World, s: Sys, l: Label, t: ThreadId)
    requires Safe(s) && PricedSince(lo, s.w, PcOf(s, t)) && lo.bookings <= s.w.bookings && lo.now <= s.w.now
    ensures PricedSince(lo, Step(s, l).w, PcOf(Step(s, l), t))
  {
    hide Safe, PricedBetween;
    CatalogAndClock(s, l);
    BookingsGrow(s, l);
    var s' := Step(s, l);
    if l.Go? && l.t == t && PcOf(s, t).Pricing? {
      PricedByQuoting(lo, s, t, PcOf(s, t).q);
      hide QuoteStep;
      StillPricedSince(lo, s.w, s'.w, PcOf(s', t));
    } else {
      QuotingStarts(s, l, t);
      hide Step;
      if PcOf(s', t).Pricing? && PcOf(s', t) == PcOf(s, t) {
        StillPricedSince(lo, s.w, s'.w, PcOf(s', t));
      }
    }
  }

  lemma {:induction false} PricedExec(lo: World, s: Sys, ls: seq<Label>, t: ThreadId)
    requires Sane(s) && PricedSince(lo, s.w, PcOf(s, t)) && lo.bookings <= s.w.bookings && lo.now <= s.w.now
    ensures PricedSince(lo, Exec(s, ls).w, PcOf(Exec(s, ls), t))
    decreases |ls|
  {
    hide Safe, Trail, LocksFresh, Step, PricedSince;
    if ls != [] {
      PricedStep(lo, s, ls[0], t);
      SaneStep(s, ls[0]);
      CatalogAndClock(s, ls[0]);
      BookingsGrow(s, ls[0]);
      PricedExec(lo, Step(s, ls[0]), ls[1..], t);
    }
  }

  // ---- Stored quotes

  ghost predicate StoredPriced(lo: World, w: World) {
    forall id :: id in w.quotes ==> QuotePriced(lo, w, w.quotes[id])
  }

  lemma StoresOnlyDrafts(s: Sys, l: Label)
    ensures var w, w' := s.w, Step(s, l).w;
            forall id :: id in w'.quotes && !(id in w.quotes && w'.quotes[id] == w.quotes[id]) ==>
              l.Go? && Draft(PcOf(s, l.t)) == Some(w'.quotes[id])
  {
    hide AcquireStep, AfterCheck, PayStep, RecordStep;
    if l.Go? && PcOf(s, l.t).Pricing? {
      var q := PcOf(s, l.t).q;
      if q.ToDraw? { DrawsOnlyIds(s.w, q.request.sessionId); }
    } else {
      NotQuoting(s, l);
    }
  }

  lemma StoredStep(lo: World, s: Sys, l: Label)
    requires Safe(s) && StoredPriced(lo, s.w) && forall t: ThreadId :: PricedSince(lo, s.w, PcOf(s, t))
    ensures StoredPriced(lo, Step(s, l).w)
  {
    hide Safe, PricedBetween;
    StoresOnlyDrafts(s, l);
    CatalogAndClock(s, l);
    BookingsGrow(s, l);
    var w' := Step(s, l).w;
    hide Step;
    forall id | id in w'.quotes ensures QuotePriced(lo, w', w'.quotes[id]) {
      var q := w'.quotes[id];
      assert QuotePriced(lo, s.w, q);
      StillPriced(lo, s.w, w', q.flightId, q.seatIds, q.breakdown, q.createdAt);
    }
  }

  lemma {:induction false} StoredExec(lo: World, s: Sys, ls: seq<Label>)
    requires Sane(s) && StoredPriced(lo, s.w) && lo.bookings <= s.w.bookings && lo.now <= s.w.now
    requires forall t: ThreadId :: PricedSince(lo, s.w, PcOf(s, t))
    ensures StoredPriced(lo, Exec(s, ls).w)
    decreases |ls|
  {
    hide Safe, Trail, LocksFresh, Step, PricedSince, StoredPriced;
    if ls != [] {
      StoredStep(lo, s, ls[0]);
      forall t: ThreadId ensures PricedSince(lo, Step(s, ls[0]).w, PcOf(Step(s, ls[0]), t)) {
        PricedStep(lo, s, ls[0], t);
      }
      SaneStep(s, ls[0]);
      CatalogAndClock(s, ls[0]);
      BookingsGrow(s, ls[0]);
      StoredExec(lo, Step(s, ls[0]), ls[1..]);
    }
  }

  lemma NothingPriced(from: Sys)
    requires Initial(from)
    ensures StoredPriced(from.w, from.w) && forall t: ThreadId :: PricedSince(from.w, from.w, PcOf(from, t))
  {
  }

  lemma ExecFlights(from: Sys, ls: seq<Label>)
    requires Sane(from)
    ensures Exec(from, ls).w.flights == from.w.flights
  {
    LaterEver(from, ls);
  }

  /** Of two prices of the same seats, one taken up to a state and one since. */
  lemma PricesRise(start: World, w1: World, w2: World, flightId: FlightId, seats: seq<SeatId>,
                   b1: PriceBreakdown, at1: Time, b2: PriceBreakdown, at2: Time)
    requires w1.flights == w2.flights && PricedBetween(start, w1, flightId, seats, b1, at1) && PricedBetween(w1, w2, flightId, seats, b2, at2)
    requires w1.flights[flightId].baseFare >= 0 && |w1.flights[flightId].cabin| < CABIN_LIMIT
    ensures RawTotal(b1) <= RawTotal(b2) && Total(b1) - Total(b2) <= 50
    ensures RoundingStep(RawTotal(b1)) == RoundingStep(RawTotal(b2)) ==> Total(b1) <= Total(b2)
  {
    hide PriceSeats, DaysBefore, ActiveBookedSeatCount, RawTotal, RoundTotal, RoundingStep;
    var k1: nat :| PricedWith(start, w1, flightId, seats, b1, at1, k1);
    var k2: nat :| PricedWith(w1, w2, flightId, seats, b2, at2, k2);
    QuotesRise(w1.flights[flightId], flightId, seats, k1, k2, at1, at2);
  }

  /** Over every run: a quote called after another one for the same flight and seats
      was stored has no lower unrounded price; its total is at most 0.50 lower, and
      not lower at all when both sums are rounded at the same position. The second
      quote is any that a thread, not quoting at the earlier state, is about to
      report at the later one. */
  lemma LaterQuotesCostNoLess(from: Sys, before: seq<Label>, between: seq<Label>, id: QuoteId, t: ThreadId)
    requires Initial(from) && id in Exec(from, before).w.quotes
    requires !PcOf(Exec(from, before), t).Pricing? && Pending(PcOf(Exec(Exec(from, before), between), t)).Some?
    requires var q1, q2 := Exec(from, before).w.quotes[id], Pending(PcOf(Exec(Exec(from, before), between), t)).value;
             && q1.flightId == q2.flightId && q1.seatIds == q2.seatIds && q1.flightId in from.w.flights
             && from.w.flights[q1.flightId].baseFare >= 0 && |from.w.flights[q1.flightId].cabin| < CABIN_LIMIT
    ensures var q1, q2 := Exec(from, before).w.quotes[id], Pending(PcOf(Exec(Exec(from, before), between), t)).value;
            && RawTotal(q1.breakdown) <= RawTotal(q2.breakdown)
            && Total(q1.breakdown) - Total(q2.breakdown) <= 50
            && (RoundingStep(RawTotal(q1.breakdown)) == RoundingStep(RawTotal(q2.breakdown)) ==>
                  Total(q1.breakdown) <= Total(q2.breakdown))
  {
    hide Exec, Initial, Sane, PricedBetween, RawTotal, RoundTotal, RoundingStep, StoredPriced;
    var s1 := Exec(from, before);
    var s2 := Exec(s1, between);
    assert Sane(from) by { SaneEver(from, []); ExecEmpty(from); }
    NothingPriced(from);
    StoredExec(from.w, from, before);
    assert QuotePriced(from.w, s1.w, s1.w.quotes[id]) by { StoredAt(from.w, s1.w, id); }
    SaneEver(from, before);
    PricedExec(s1.w, s1, between, t);
    ExecFlights(from, before);
    ExecFlights(s1, between);
    var q1, q2 := s1.w.quotes[id], Pending(PcOf(s2, t)).value;
    assert QuotePriced(s1.w, s2.w, q2);
    PricesRise(from.w, s1.w, s2.w, q1.flightId, q1.seatIds, q1.breakdown, q1.createdAt, q2.breakdown, q2.createdAt);
  }

  lemma StoredAt(lo: World, w: World, id: QuoteId)
    requires StoredPriced(lo, w) && id in w.quotes
    ensures QuotePriced(lo, w, w.quotes[id])
  {
  }

  lemma ExecEmpty(s: Sys)
    ensures Exec(s, []) == s
  {
  }
}
