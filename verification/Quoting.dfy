/** Quoting a flight: the price from the current state, and what quote() does. */
module Quoting {
  import opened Entities
  import opened Rounding
  import opened Occupancy
  import opened Breakdown
  import opened Pricing
  import LockTables
  import opened Bookings
  import opened Worlds

  datatype QuoteRequest = QuoteRequest(flightId: FlightId, seatIds: seq<SeatId>, passengers: int, sessionId: Option<SessionId>)

  datatype QuoteResult = Quoted(quote: Quote) | QuoteNotFound | FlightAlreadyDeparted | QuoteIdsExhausted

  /** A breakdown with the inputs the audit event records. */
  datatype Priced = Priced(breakdown: PriceBreakdown, occupancy: Decimal, daysBefore: nat, day: DayOfWeek)

  function DaysBefore(flight: Flight, now: Time): int {
    flight.departureAt / DAY - now / DAY
  }

  function DayOf(t: Time): DayOfWeek {
    match (t / DAY) % 7
    case 0 => Mon
    case 1 => Tue
    case 2 => Wed
    case 3 => Thu
    case 4 => Fri
    case 5 => Sat
    case _ => Sun
  }

  /** Seats the cabin itself takes out of sale. */
  function UnavailableSeats(cabin: Cabin): set<SeatId> {
    set s | s in cabin && cabin[s].status in {Occupied, Blocked}
  }

  function OccupancyPct(cabin: Cabin, booked: nat): Decimal {
    Percentage(|UnavailableSeats(cabin)| + booked, |cabin|)
  }

  /** One line per requested seat that the cabin has. */
  function SeatSurcharges(cabin: Cabin, seats: seq<SeatId>): seq<SurchargeLine> {
    if seats == [] then []
    else
      var n := |seats| - 1;
      SeatSurcharges(cabin, seats[..n])
      + if seats[n] in cabin
        then [SurchargeLine(seats[n], LookupSeatSurcharge(cabin[seats[n]].seatClass, cabin[seats[n]].kind))] else []
  }

  /** fare * multipliers + surcharges, in units of 10^-8 dollars. */
  function TaxableBase(fare: Cents, demand: int, time: int, day: int, surcharges: seq<SurchargeLine>): int {
    fare * demand * time * day + SurchargeSum(surcharges) * 1_000_000
  }

  function PriceSeats(flight: Flight, flightId: FlightId, seats: seq<SeatId>, booked: nat, now: Time): Priced
    requires DaysBefore(flight, now) >= 0
  {
    var occupancy, days, day := OccupancyPct(flight.cabin, booked), DaysBefore(flight, now), DayOf(flight.departureAt);
    var lines := SeatSurcharges(flight.cabin, seats);
    var base := TaxableBase(flight.baseFare, DemandMultiplier(occupancy), TimeMultiplier(days), DayMultiplier(day), lines);
    var taxes := ComputeTaxes(base, flight.routeKind);
    Priced(Price(flight.baseFare, occupancy, days, day, lines, taxes, LookupFlatFees(flightId)), occupancy, days, day)
  }

  function MakeQuote(id: QuoteId, session: SessionId, request: QuoteRequest, priced: Priced, now: Time): Quote {
    Quote(id, session, request.flightId, request.seatIds, request.passengers, priced.breakdown, now, now + QUOTE_TTL)
  }

  function BuildAuditEvent(q: Quote, priced: Priced): Event {
    QuoteCreated(q.id, q.sessionId, q.flightId, q.seatIds, priced.occupancy, priced.daysBefore, priced.day,
                 q.breakdown.baseFare, Total(q.breakdown), q.createdAt, q.expiresAt)
  }

  /** Drawing a session id, when none was given, and then a quote id. */
  function DrawIds(w: World, session: Option<SessionId>): (World, Option<(SessionId, QuoteId)>) {
    if session.None? && w.sessionIds == [] then (w, None)
    else
      var who := if session.Some? then session.value else w.sessionIds[0];
      var w1 := if session.Some? then w else w.(sessionIds := w.sessionIds[1..]);
      if w.quoteIds == [] then (w1, None)
      else (w1.(quoteIds := w.quoteIds[1..]), Some((who, w.quoteIds[0])))
  }

  lemma DrawsOnlyIds(w: World, session: Option<SessionId>)
    ensures var w' := DrawIds(w, session).0; w' == w.(sessionIds := w'.sessionIds, quoteIds := w'.quoteIds)
  {
  }

  /** One quote call, run without interruption. */
  function QuoteCall(w: World, request: QuoteRequest): (World, QuoteResult) {
    if request.flightId !in w.flights then (w, QuoteNotFound)
    else
      var flight := w.flights[request.flightId];
      if DaysBefore(flight, w.now) < 0 then (w, FlightAlreadyDeparted)
      else
        var booked := ActiveBookedSeatCount(w.bookings, request.flightId);
        var priced := PriceSeats(flight, request.flightId, request.seatIds, booked, w.now);
        var (w1, ids) := DrawIds(w, request.sessionId);
        if ids.None? then (w1, QuoteIdsExhausted)
        else
          var q := MakeQuote(ids.value.1, ids.value.0, request, priced, w.now);
          (w1.(quotes := w1.quotes[q.id := q], audit := w1.audit + [BuildAuditEvent(q, priced)]), Quoted(q))
  }

  // ---- What the unrounded quote is, and how it moves

  /** (fare * demand * time * day + surcharges) * (1 + tax rate) + fees. */
  lemma RawQuoteFormula(flight: Flight, flightId: FlightId, seats: seq<SeatId>, booked: nat, now: Time)
    requires DaysBefore(flight, now) >= 0
    ensures var b := PriceSeats(flight, flightId, seats, booked, now).breakdown;
            RawTotal(b) == (b.baseFare * b.demand * b.time * b.day + SurchargeSum(b.surcharges) * 1_000_000)
                           * (1000 + TaxRate(flight.routeKind)) + b.fees
  {
    hide Percentage, FirstDemand, FirstTime, SeatSurcharges, SurchargeSum;
    var b := PriceSeats(flight, flightId, seats, booked, now).breakdown;
    assert b.baseFare * (b.demand * b.time * b.day) == b.baseFare * b.demand * b.time * b.day;
  }

  /** The multiplier of a seat count, the days left and the weekday: the demand
      bucket is the one of exact counting, however the percentage was rounded. */
  lemma QuoteInputsAreExact(flight: Flight, flightId: FlightId, seats: seq<SeatId>, booked: nat, now: Time)
    requires DaysBefore(flight, now) >= 0 && |flight.cabin| < CABIN_LIMIT
    ensures var p := PriceSeats(flight, flightId, seats, booked, now);
            && p.breakdown.demand == DemandByCount(|UnavailableSeats(flight.cabin)| + booked, |flight.cabin|)
            && p.breakdown.time == TimeMultiplier(p.daysBefore) && p.breakdown.day == DayMultiplier(p.day)
            && p.daysBefore * DAY <= flight.departureAt - now + now % DAY < (p.daysBefore + 1) * DAY
  {
    hide Percentage, FirstDemand, FirstTime, SeatSurcharges, SurchargeSum;
    DemandBucketIsExact(|UnavailableSeats(flight.cabin)| + booked, |flight.cabin|);
    DayDifference(flight.departureAt, now);
  }

  lemma DayDifference(departure: Time, now: Time)
    ensures var days := departure / DAY - now / DAY;
            days * DAY <= departure - now + now % DAY < (days + 1) * DAY
  {
    assert departure == departure / DAY * DAY + departure % DAY;
    assert now == now / DAY * DAY + now % DAY;
  }

  /** Every requested seat that the cabin has is charged its table amount, as often
      as it is requested; nothing else is charged. */
  lemma {:induction false} SurchargesPerSeat(cabin: Cabin, seats: seq<SeatId>, line: SurchargeLine)
    ensures multiset(SeatSurcharges(cabin, seats))[line] ==
            if line.seat in cabin && line.amount == LookupSeatSurcharge(cabin[line.seat].seatClass, cabin[line.seat].kind)
            then multiset(seats)[line.seat] else 0
  {
    hide LookupSeatSurcharge;
    if seats != [] {
      var n := |seats| - 1;
      SurchargesPerSeat(cabin, seats[..n], line);
      assert seats == seats[..n] + [seats[n]];
    }
  }

  /** Exactly when a quote is charged a positive total: the taxed base, in dollars, is
      positive and none of 0.01..0.05, 0.10..0.50 or the amounts up to 0.005. */
  lemma QuoteIsPositiveIff(flight: Flight, flightId: FlightId, seats: seq<SeatId>, booked: nat, now: Time)
    requires DaysBefore(flight, now) >= 0
    ensures var b := PriceSeats(flight, flightId, seats, booked, now).breakdown;
            var base := b.baseFare * b.demand * b.time * b.day + SurchargeSum(b.surcharges) * 1_000_000;
            var taxed := base * (1000 + TaxRate(flight.routeKind));
            Total(b) > 0 <==>
            && taxed > CENT / 2
            && !(taxed % TENTH == 0 && taxed <= UNIT / 2)
            && !(taxed % CENT == 0 && taxed <= TENTH / 2)
  {
    hide RoundTotal, RawTotal, PriceSeats, SurchargeSum;
    var b := PriceSeats(flight, flightId, seats, booked, now).breakdown;
    RawQuoteFormula(flight, flightId, seats, booked, now);
    NoFees(flight, flightId, seats, booked, now);
    RoundTotalPositive(RawTotal(b));
  }

  lemma NoFees(flight: Flight, flightId: FlightId, seats: seq<SeatId>, booked: nat, now: Time)
    requires DaysBefore(flight, now) >= 0
    ensures PriceSeats(flight, flightId, seats, booked, now).breakdown.fees == 0
  {
    hide Percentage, FirstDemand, FirstTime, SeatSurcharges, SurchargeSum;
  }

  lemma MultipliersGrow(cabin: Cabin, k1: nat, k2: nat, d1: nat, d2: nat)
    requires k1 <= k2 && d2 <= d1 && |cabin| < CABIN_LIMIT
    ensures 0 < DemandMultiplier(OccupancyPct(cabin, k1)) <= DemandMultiplier(OccupancyPct(cabin, k2))
    ensures 0 < TimeMultiplier(d1) <= TimeMultiplier(d2)
  {
    hide Percentage, FirstDemand, FirstTime;
    var n := |UnavailableSeats(cabin)|;
    DemandBucketIsExact(n + k1, |cabin|);
    DemandBucketIsExact(n + k2, |cabin|);
    TimeChain(d1);
    TimeChain(d2);
  }

  /** With more seats booked and less time left, the unrounded quote for the same
      seats is no lower; the rounded total is lower by at most 0.50, and not lower
      at all when both raw sums have the same rounding step. */
  lemma QuotesRise(flight: Flight, flightId: FlightId, seats: seq<SeatId>, k1: nat, k2: nat, t1: Time, t2: Time)
    requires k1 <= k2 && t1 <= t2 && DaysBefore(flight, t2) >= 0
    requires flight.baseFare >= 0 && |flight.cabin| < CABIN_LIMIT
    ensures DaysBefore(flight, t1) >= 0
    ensures var b1, b2 := PriceSeats(flight, flightId, seats, k1, t1).breakdown, PriceSeats(flight, flightId, seats, k2, t2).breakdown;
            && RawTotal(b1) <= RawTotal(b2)
            && Total(b1) - Total(b2) <= 50
            && (RoundingStep(RawTotal(b1)) == RoundingStep(RawTotal(b2)) ==> Total(b1) <= Total(b2))
  {
    hide Percentage, FirstDemand, FirstTime, SeatSurcharges, SurchargeSum, RoundTotal, RoundingStep;
    EarlierDay(t1, t2);
    var b1, b2 := PriceSeats(flight, flightId, seats, k1, t1).breakdown, PriceSeats(flight, flightId, seats, k2, t2).breakdown;
    MultipliersGrow(flight.cabin, k1, k2, DaysBefore(flight, t1), DaysBefore(flight, t2));
    ProductAtLeast(b2.demand, b2.time, b1.demand, b1.time);
    ProductAtLeast(b2.demand * b2.time, b1.day, b1.demand * b1.time, b1.day);
    ProductAtLeast(b2.demand * b2.time * b1.day, flight.baseFare, b1.demand * b1.time * b1.day, flight.baseFare);
    RawQuoteFormula(flight, flightId, seats, k1, t1);
    RawQuoteFormula(flight, flightId, seats, k2, t2);
    RoundTotalDropBounded(RawTotal(b1), RawTotal(b2));
    if RoundingStep(RawTotal(b1)) == RoundingStep(RawTotal(b2)) {
      RoundTotalMonotoneOnAStep(RawTotal(b1), RawTotal(b2));
    }
  }

  lemma EarlierDay(t1: Time, t2: Time)
    requires t1 <= t2
    ensures t1 / DAY <= t2 / DAY
  {
  }

  // ---- What a quote is, field by field

  /** The multiplier of the days left. */
  function DaysTable(days: nat): int {
    if days >= 60 then 85 else if days >= 21 then 90 else if days >= 7 then 100
    else if days >= 3 then 120 else if days >= 1 then 150 else 200
  }

  /** The price of a flight's seats, told by the calendar, a count of seats and the
      published tables. The day number counts from a Monday. */
  ghost predicate PricedAs(p: Priced, flight: Flight, seats: seq<SeatId>, booked: nat, now: Time) {
    var b := p.breakdown;
    var departure, today := flight.departureAt / 86_400_000_000, now / 86_400_000_000;
    var counted := |set s | s in flight.cabin && flight.cabin[s].status != Available| + booked;
    && p.daysBefore == departure - today
    && p.day == [Mon, Tue, Wed, Thu, Fri, Sat, Sun][departure % 7]
    && p.occupancy == Percentage(counted, |flight.cabin|)
    && b.baseFare == flight.baseFare
    && (|flight.cabin| < CABIN_LIMIT ==> b.demand == DemandByCount(counted, |flight.cabin|))
    && b.time == DaysTable(p.daysBefore)
    && b.day == [90, 85, 85, 95, 125, 115, 130][departure % 7]
    && b.taxes == (b.baseFare * b.demand * b.time * b.day + SurchargeSum(b.surcharges) * 1_000_000)
                  * (if flight.routeKind == Domestic then 75 else 120)
    && b.fees == 0
  }

  lemma WeekdayOf(t: Time)
    ensures DayOf(t) == [Mon, Tue, Wed, Thu, Fri, Sat, Sun][t / 86_400_000_000 % 7]
    ensures DayMultiplier(DayOf(t)) == [90, 85, 85, 95, 125, 115, 130][t / 86_400_000_000 % 7]
  {
  }

  lemma NotAvailableSeats(cabin: Cabin)
    ensures UnavailableSeats(cabin) == set s | s in cabin && cabin[s].status != Available
  {
  }

  lemma TaxesOf(flight: Flight, flightId: FlightId, seats: seq<SeatId>, booked: nat, now: Time)
    requires DaysBefore(flight, now) >= 0
    ensures var b := PriceSeats(flight, flightId, seats, booked, now).breakdown;
            && b.baseFare == flight.baseFare && b.surcharges == SeatSurcharges(flight.cabin, seats)
            && b.taxes == (b.baseFare * b.demand * b.time * b.day + SurchargeSum(b.surcharges) * 1_000_000)
                          * (if flight.routeKind == Domestic then 75 else 120)
  {
    hide Percentage, FirstDemand, FirstTime, SeatSurcharges, SurchargeSum;
  }

  lemma PriceMeans(flight: Flight, flightId: FlightId, seats: seq<SeatId>, booked: nat, now: Time)
    requires DaysBefore(flight, now) >= 0
    ensures var p := PriceSeats(flight, flightId, seats, booked, now);
            PricedAs(p, flight, seats, booked, now) && p.breakdown.surcharges == SeatSurcharges(flight.cabin, seats)
  {
    var p := PriceSeats(flight, flightId, seats, booked, now);
    TaxesOf(flight, flightId, seats, booked, now);
    NoFees(flight, flightId, seats, booked, now);
    NotAvailableSeats(flight.cabin);
    WeekdayOf(flight.departureAt);
    TimeChain(p.daysBefore);
    if |flight.cabin| < CABIN_LIMIT {
      QuoteInputsAreExact(flight, flightId, seats, booked, now);
    }
    hide Percentage, FirstDemand, FirstTime, SeatSurcharges, SurchargeSum, DayOf, DayMultiplier, DemandByCount, TaxRate, ComputeTaxes, LookupFlatFees;
  }

  /** The surcharge lines are the requested cabin seats, in the order of the request,
      each with its published amount. */
  lemma {:induction false} SurchargesInOrder(cabin: Cabin, seats: seq<SeatId>)
    ensures var lines := SeatSurcharges(cabin, seats);
            && LineSeats(lines) == LockTables.Only(seats, cabin.Keys)
            && forall i :: 0 <= i < |lines| ==>
                 lines[i].seat in cabin
                 && lines[i].amount == LookupSeatSurcharge(cabin[lines[i].seat].seatClass, cabin[lines[i].seat].kind)
  {
    hide LookupSeatSurcharge;
    if seats != [] {
      SurchargesInOrder(cabin, seats[..|seats| - 1]);
      var front, lines := SeatSurcharges(cabin, seats[..|seats| - 1]), SeatSurcharges(cabin, seats);
      if seats[|seats| - 1] in cabin {
        assert LineSeats(lines) == LineSeats(front) + [seats[|seats| - 1]];
      } else {
        assert lines == front;
      }
    }
  }

  function LineSeats(lines: seq<SurchargeLine>): seq<SeatId> {
    seq(|lines|, i requires 0 <= i < |lines| => lines[i].seat)
  }

  /** An answered quote: the first quote id, the caller's session or else the first one
      of the supply, the request, the price of this moment, and thirty minutes of life;
      it is stored, and the event tells it with its inputs; nothing else changes. */
  lemma QuotedMeans(w: World, r: QuoteRequest)
    requires QuoteCall(w, r).1.Quoted?
    ensures var (w', answer) := QuoteCall(w, r);
            var q := answer.quote;
            && r.flightId in w.flights && DaysBefore(w.flights[r.flightId], w.now) >= 0
            && w.quoteIds != [] && q.id == w.quoteIds[0] && (r.sessionId.None? ==> w.sessionIds != [])
            && q.sessionId == (if r.sessionId.Some? then r.sessionId.value else w.sessionIds[0])
            && q.flightId == r.flightId && q.seatIds == r.seatIds && q.passengers == r.passengers
            && q.createdAt == w.now && q.expiresAt == w.now + 1_800_000_000
            && q.breakdown.surcharges == SeatSurcharges(w.flights[r.flightId].cabin, r.seatIds)
            && w' == w.(quotes := w.quotes[q.id := q], audit := w'.audit, quoteIds := w.quoteIds[1..],
                        sessionIds := if r.sessionId.Some? then w.sessionIds else w.sessionIds[1..])
            && exists p :: PricedAs(p, w.flights[r.flightId], r.seatIds, ActiveBookedSeatCount(w.bookings, r.flightId), w.now)
                           && p.breakdown == q.breakdown
                           && w'.audit == w.audit + [QuoteCreated(q.id, q.sessionId, r.flightId, r.seatIds, p.occupancy, p.daysBefore, p.day,
                                                                  w.flights[r.flightId].baseFare, Total(q.breakdown), w.now, w.now + 1_800_000_000)]
  {
    hide PriceSeats, PricedAs, Total, SeatSurcharges, ActiveBookedSeatCount, DaysBefore;
    var flight, booked := w.flights[r.flightId], ActiveBookedSeatCount(w.bookings, r.flightId);
    PriceMeans(flight, r.flightId, r.seatIds, booked, w.now);
    FareKept(flight, r.flightId, r.seatIds, booked, w.now);
    var p := PriceSeats(flight, r.flightId, r.seatIds, booked, w.now);
    assert PricedAs(p, flight, r.seatIds, booked, w.now);
  }

  lemma FareKept(flight: Flight, flightId: FlightId, seats: seq<SeatId>, booked: nat, now: Time)
    requires DaysBefore(flight, now) >= 0
    ensures PriceSeats(flight, flightId, seats, booked, now).breakdown.baseFare == flight.baseFare
  {
    TaxesOf(flight, flightId, seats, booked, now);
  }

  /** Which answer a quote call gives: an unknown flight, one that departed on an earlier
      day, an exhausted supply, or a quote; only the last two use up ids. */
  lemma QuoteOutcome(w: World, r: QuoteRequest)
    ensures var (w', answer) := QuoteCall(w, r);
            && (answer == QuoteNotFound <==> r.flightId !in w.flights)
            && (answer == FlightAlreadyDeparted <==>
                  r.flightId in w.flights && w.flights[r.flightId].departureAt / 86_400_000_000 < w.now / 86_400_000_000)
            && (answer == QuoteNotFound || answer == FlightAlreadyDeparted ==> w' == w)
            && (answer == QuoteIdsExhausted ==>
                  && ((r.sessionId.None? && w.sessionIds == []) || w.quoteIds == [])
                  && w' == w.(sessionIds := if r.sessionId.Some? || w.sessionIds == [] then w.sessionIds else w.sessionIds[1..]))
            && (answer.Quoted? ==> w.quoteIds != [] && (r.sessionId.Some? || w.sessionIds != []))
  {
    hide PriceSeats, ActiveBookedSeatCount, MakeQuote, BuildAuditEvent;
  }

  // ---- Quotes that refute simpler claims

  /** A flight of one economy seat, on a day counted from a Monday, and how often the
      seat is booked. */
  datatype Sale = Sale(kind: SeatKind, fare: Cents, departureDay: nat, route: RouteKind, booked: nat)

  const DISCOUNT_SALE := Sale(Middle, 100, 64, Domestic, 0)
  const MONDAY_SALE := Sale(Standard, 20010, 7, Domestic, 0)
  const FULL_SALE := Sale(Standard, 100, 11, International, 1)
  const FRIDAY_SALE := Sale(Standard, 100, 25, International, 0)

  const SALE_SEAT := SeatId("1A")
  const SALE_FLIGHT := FlightId("F")

  function FlightOf(sale: Sale): Flight {
    Flight("AAA", "BBB", sale.departureDay * DAY, sale.departureDay * DAY, "XX", sale.fare,
           map[SALE_SEAT := Seat(Economy, sale.kind, Available)], sale.route)
  }

  /** The quote of the one seat on the given day. */
  function SaleQuote(sale: Sale, today: nat): PriceBreakdown
    requires today <= sale.departureDay
  {
    DayAt(sale.departureDay);
    DayAt(today);
    PriceSeats(FlightOf(sale), SALE_FLIGHT, [SALE_SEAT], sale.booked, today * DAY).breakdown
  }

  lemma DayAt(day: nat)
    ensures day * DAY / DAY == day
  {
  }

  lemma SalePrice(sale: Sale, today: nat)
    requires today <= sale.departureDay
    ensures var surcharge := LookupSeatSurcharge(Economy, sale.kind);
            var demand, time := DemandByCount(sale.booked, 1), TimeMultiplier(sale.departureDay - today);
            var day := DayMultiplier(DayOf(sale.departureDay * DAY));
            var base := sale.fare * demand * time * day + surcharge * 1_000_000;
            SaleQuote(sale, today) ==
            PriceBreakdown(sale.fare, demand, time, day, [SurchargeLine(SALE_SEAT, surcharge)], base * TaxRate(sale.route), 0)
  {
    hide LookupSeatSurcharge, OccupancyPct, Percentage, FirstTime, FirstDemand, SeatSurcharges, SurchargeSum, DayOf, DayMultiplier, TaxRate;
    SaleOccupancy(sale);
    DemandBucketIsExact(sale.booked, 1);
    SaleLines(sale);
    OneLineSum(SurchargeLine(SALE_SEAT, LookupSeatSurcharge(Economy, sale.kind)));
    DayAt(sale.departureDay);
    DayAt(today);
  }

  lemma SaleOccupancy(sale: Sale)
    ensures OccupancyPct(FlightOf(sale).cabin, sale.booked) == Percentage(sale.booked, 1)
  {
    hide Percentage;
    var cabin := FlightOf(sale).cabin;
    assert UnavailableSeats(cabin) == {};
    assert |cabin| == 1;
  }

  lemma SaleLines(sale: Sale)
    ensures SeatSurcharges(FlightOf(sale).cabin, [SALE_SEAT])
            == [SurchargeLine(SALE_SEAT, LookupSeatSurcharge(Economy, sale.kind))]
  {
    hide LookupSeatSurcharge;
    assert [SALE_SEAT][..0] == [];
  }

  lemma OneLineSum(line: SurchargeLine)
    ensures SurchargeSum([line]) == line.amount
  {
    assert SurchargeSum([line][..0]) == 0;
  }

  /** A domestic quote of a middle seat on a 1.00 fare is charged -4.60: the tax is
      taken on the negative base as well. */
  lemma QuotedDiscountExceedsTheFare()
    ensures Total(SaleQuote(DISCOUNT_SALE, 0)) == -460
  {
    hide SaleQuote, RoundTotal, FirstTime;
    var b := SaleQuote(DISCOUNT_SALE, 0);
    SalePrice(DISCOUNT_SALE, 0);
    TimeChain(64);
    OneLineSum(SurchargeLine(SALE_SEAT, -500));
    assert b == PriceBreakdown(100, 100, 85, 85, [SurchargeLine(SALE_SEAT, -500)], -32_081_250_000, 0);
    assert RawTotal(b) == -459_831_250_000;
    RoundTotalAt(-459_831_250_000, -460, CENT, -460);
  }

  lemma MondayQuote()
    ensures SaleQuote(MONDAY_SALE, 0) ==
            PriceBreakdown(20010, 100, 100, 90, [SurchargeLine(SALE_SEAT, 0)], MultipliedFare(20010, 100, 100, 90) / 1000 * 75, 0)
  {
    hide FirstTime, SaleQuote;
    SalePrice(MONDAY_SALE, 0);
    TimeChain(7);
  }

  lemma FullFlightQuote()
    ensures SaleQuote(FULL_SALE, 0) ==
            PriceBreakdown(100, 250, 100, 125, [SurchargeLine(SALE_SEAT, 0)], MultipliedFare(100, 250, 100, 125) / 1000 * 120, 0)
  {
    hide FirstTime, SaleQuote;
    SalePrice(FULL_SALE, 0);
    TimeChain(11);
  }

  /** A quote and the total rebuilt from what is displayed of it. */
  ghost predicate ChargedAndRebuilt(b: PriceBreakdown, charged: Cents, rebuilt: Cents) {
    Total(b) == charged && Total(Displayed(b)) == rebuilt
  }

  /** Quotes whose displayed breakdown does not add up to within a cent: a domestic
      200.10 on a Monday a week ahead, charged 193.60 and rebuilt as 194.00, and an
      international 1.00 on a full Friday flight, charged 4.00 and rebuilt as 3.50. */
  lemma QuotedTotalsDoNotRebuild()
    ensures ChargedAndRebuilt(SaleQuote(MONDAY_SALE, 0), 19360, 19400)
    ensures ChargedAndRebuilt(SaleQuote(FULL_SALE, 0), 400, 350)
  {
    hide RoundTotal, RawTotal, Displayed, SaleQuote;
    MondayQuote();
    FullFlightQuote();
    WithoutSurcharge(SaleQuote(MONDAY_SALE, 0));
    WithoutSurcharge(SaleQuote(FULL_SALE, 0));
    RebuiltTotalGap();
  }

  lemma FridayQuote(today: nat, time: int)
    requires today <= 25 && time == TimeMultiplier(25 - today)
    ensures SaleQuote(FRIDAY_SALE, today) ==
            PriceBreakdown(100, 100, time, 125, [SurchargeLine(SALE_SEAT, 0)], 100 * 100 * time * 125 * 120, 0)
  {
    hide FirstTime, SaleQuote;
    SalePrice(FRIDAY_SALE, today);
  }

  lemma FridayTotal(today: nat, time: int, total: Cents)
    requires today <= 25 && time == TimeMultiplier(25 - today) && RoundTotal(1_400_000_000 * time) == total
    ensures Total(SaleQuote(FRIDAY_SALE, today)) == total
  {
    hide FirstTime, RoundTotal, SaleQuote, RawTotal;
    FridayQuote(today, time);
    FridayRaw(time);
  }

  lemma FridayRounded()
    ensures RoundTotal(126_000_000_000) == 130 && RoundTotal(140_000_000_000) == 100
  {
    hide RoundTotal;
    RoundTotalAt(126_000_000_000, 130, TENTH, 13);
    RoundTotalAt(140_000_000_000, 100, UNIT, 1);
  }

  /** A quote that costs less five days later: an international 1.00 for a Friday is
      charged 1.30 (from 1.26) 25 days ahead, and 1.00 (from 1.40) 20 days ahead. */
  lemma TotalFallsAsPriceRises()
    ensures Total(SaleQuote(FRIDAY_SALE, 0)) == 130 && Total(SaleQuote(FRIDAY_SALE, 5)) == 100
  {
    hide FirstTime, RoundTotal, SaleQuote;
    TimeChain(25);
    TimeChain(20);
    FridayRounded();
    FridayTotal(0, 90, 130);
    FridayTotal(5, 100, 100);
  }

  lemma FridayRaw(time: int)
    ensures RawTotal(PriceBreakdown(100, 100, time, 125, [SurchargeLine(SALE_SEAT, 0)], 100 * 100 * time * 125 * 120, 0))
            == 1_400_000_000 * time
  {
    OneLineSum(SurchargeLine(SALE_SEAT, 0));
  }

  lemma WithoutSurcharge(b: PriceBreakdown)
    requires |b.surcharges| == 1 && b.surcharges[0].amount == 0
    ensures RawTotal(b) == RawTotal(b.(surcharges := []))
    ensures RawTotal(Displayed(b)) == RawTotal(Displayed(b.(surcharges := [])))
  {
    OneLineSum(b.surcharges[0]);
    assert b.surcharges == [b.surcharges[0]];
  }
}
