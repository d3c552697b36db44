/** The quote and booking services over their shared mutable collaborators,
    each method proved to do to the whole state what QuoteCall and CommitCall say. */
module Services {
  import opened Entities
  import opened Adapters
  import opened LockTables
  import opened SeatLocks
  import opened Breakdown
  import opened Pricing
  import opened Bookings
  import opened QuoteStores
  import opened Worlds
  import opened Quoting
  import opened Committing

  class QuoteService {
    const flights: map<FlightId, Flight>
    const quotes: QuoteStore
    const audit: AuditLog
    const clock: Clock
    const ids: IdGenerator
    const bookings: BookingRepository

    constructor (flights: map<FlightId, Flight>, quotes: QuoteStore, audit: AuditLog, clock: Clock, ids: IdGenerator,
                 bookings: BookingRepository)
      ensures this.flights == flights && this.quotes == quotes && this.audit == audit
      ensures this.clock == clock && this.ids == ids && this.bookings == bookings
    {
      this.flights, this.quotes, this.audit := flights, quotes, audit;
      this.clock, this.ids, this.bookings := clock, ids, bookings;
    }

    /** The state this service sees, with the given remainder. */
    ghost function State(rest: World): World
      reads quotes, audit, clock, ids, bookings
    {
      rest.(flights := flights, now := clock.instant, quotes := quotes.quotes, bookings := bookings.bookings,
            audit := audit.events, quoteIds := ids.quoteIds, sessionIds := ids.sessionIds)
    }

    method Quote(request: QuoteRequest, ghost rest: World) returns (result: QuoteResult)
      modifies quotes, audit, ids`quoteIds, ids`sessionIds
      ensures (State(rest), result) == QuoteCall(old(State(rest)), request)
    {
      if request.flightId !in flights {
        return QuoteNotFound;
      }
      var flight := flights[request.flightId];
      var now := clock.Now();
      if DaysBefore(flight, now) < 0 {
        return FlightAlreadyDeparted;
      }
      var snapshot := bookings.IterAll();
      var booked := CountBookedSeats(snapshot, request.flightId);
      var priced := PriceFlight(flight, request.flightId, request.seatIds, booked, now);
      var session := request.sessionId;
      if session.None? {
        session := ids.NewSessionId();
        if session.None? {
          return QuoteIdsExhausted;
        }
      }
      var id := ids.NewQuoteId();
      if id.None? {
        return QuoteIdsExhausted;
      }
      var q := MakeQuote(id.value, session.value, request, priced, now);
      quotes.Save(q);
      audit.Write(BuildAuditEvent(q, priced));
      return Quoted(q);
    }

    static method PriceFlight(flight: Flight, flightId: FlightId, seats: seq<SeatId>, booked: nat, now: Time)
      returns (priced: Priced)
      requires DaysBefore(flight, now) >= 0
      ensures priced == PriceSeats(flight, flightId, seats, booked, now)
    {
      var occupancy, days, day := OccupancyPct(flight.cabin, booked), DaysBefore(flight, now), DayOf(flight.departureAt);
      var lines := CollectSurcharges(flight.cabin, seats);
      var base := SumTaxableBase(flight.baseFare, DemandMultiplier(occupancy), TimeMultiplier(days), DayMultiplier(day), lines);
      var taxes := ComputeTaxes(base, flight.routeKind);
      var fees := LookupFlatFees(flightId);
      priced := Priced(Price(flight.baseFare, occupancy, days, day, lines, taxes, fees), occupancy, days, day);
    }

    static method CollectSurcharges(cabin: Cabin, seats: seq<SeatId>) returns (lines: seq<SurchargeLine>)
      ensures lines == SeatSurcharges(cabin, seats)
    {
      lines := [];
      for i := 0 to |seats|
        invariant lines == SeatSurcharges(cabin, seats[..i])
      {
        assert seats[..i + 1][..i] == seats[..i];
        if seats[i] !in cabin { continue; }
        var seat := cabin[seats[i]];
        lines := lines + [SurchargeLine(seats[i], LookupSeatSurcharge(seat.seatClass, seat.kind))];
      }
      assert seats[..|seats|] == seats;
    }

    static method SumTaxableBase(fare: Cents, demand: int, time: int, day: int, lines: seq<SurchargeLine>) returns (base: int)
      ensures base == TaxableBase(fare, demand, time, day, lines)
    {
      var multiplied := fare * demand * time * day;
      base := multiplied;
      for i := 0 to |lines|
        invariant base == multiplied + SurchargeSum(lines[..i]) * 1_000_000
      {
        assert lines[..i + 1][..i] == lines[..i];
        base := base + lines[i].amount * 1_000_000;
      }
      assert lines[..|lines|] == lines;
    }
  }

  class BookingService {
    const flights: map<FlightId, Flight>
    const bookings: BookingRepository
    const quotes: QuoteStore
    const locks: SeatLockStore
    const payment: PaymentGateway
    const email: EmailSender
    const audit: AuditLog
    const clock: Clock
    const ids: IdGenerator

    constructor (flights: map<FlightId, Flight>, bookings: BookingRepository, quotes: QuoteStore, locks: SeatLockStore,
                 payment: PaymentGateway, email: EmailSender, audit: AuditLog, clock: Clock, ids: IdGenerator)
      ensures this.flights == flights && this.bookings == bookings && this.quotes == quotes && this.locks == locks
      ensures this.payment == payment && this.email == email && this.audit == audit && this.clock == clock && this.ids == ids
    {
      this.flights, this.bookings, this.quotes, this.locks := flights, bookings, quotes, locks;
      this.payment, this.email, this.audit, this.clock, this.ids := payment, email, audit, clock, ids;
    }

    ghost function State(): World
      reads bookings, quotes, locks, payment, email, audit, clock, ids
    {
      World(flights, clock.instant, quotes.quotes, locks.Table(), bookings.bookings, email.queued, audit.events,
            payment.charges, ids.references, ids.quoteIds, ids.lockIds, ids.sessionIds)
    }

    method Commit(request: CommitRequest) returns (result: CommitResult)
      modifies bookings, locks, payment, email, audit, ids`references
      ensures (State(), result) == CommitCall(old(State()), request, Verdict(payment.failOnTokens, request.paymentToken))
    {
      hide Total, SeatsError, LockError, ResolveQuote, SaveBooking, LockTables.Release, MakeBooking, CommittedEvent, FailedEvent, Verdict;
      if request.flightId !in flights {
        return Refused(FlightNotFound);
      }
      var flight := flights[request.flightId];
      var now := clock.Now();
      var lookup := Resolve(request.quoteId, now);
      if lookup.BadQuote? {
        return Refused(lookup.error);
      }
      var seatError := ValidateSeats(flight.cabin, request);
      if seatError.Some? {
        return Refused(seatError.value);
      }
      var lockError := ValidateLock(request, now);
      if lockError.Some? {
        return Refused(lockError.value);
      }
      var total := flight.baseFare;
      if lookup.FoundQuote? {
        total := ComputeTotal(lookup.quote.breakdown);
      }
      var verdict := payment.Charge(request.paymentToken, total);
      if !verdict.succeeded {
        audit.Write(FailedEvent(request, verdict, now));
        return Refused(PaymentDeclined);
      }
      var reference := ids.NewBookingReference();
      if reference.None? {
        return ReferencesExhausted;
      }
      var booking := MakeBooking(reference.value, request, total, QuoteOf(lookup), now);
      bookings.Save(booking);
      email.QueueConfirmation(booking);
      if request.lockId.Some? {
        locks.Release(request.lockId.value);
      }
      audit.Write(CommittedEvent(booking));
      return Booked(booking);
    }

    method Resolve(id: Option<QuoteId>, now: Time) returns (lookup: QuoteLookup)
      ensures lookup == ResolveQuote(quotes.quotes, id, now)
    {
      if id.None? {
        return NoQuoteGiven;
      }
      var valid := quotes.GetValid(id.value, now);
      if valid.Some? {
        return FoundQuote(valid.value);
      }
      var raw := quotes.Get(id.value);
      return BadQuote(if raw.None? then NoSuchQuote else QuoteExpired);
    }

    method ValidateSeats(cabin: Cabin, request: CommitRequest) returns (error: Option<CommitError>)
      ensures error == SeatsError(cabin, bookings.bookings, request.flightId, request.seatIds)
    {
      for i := 0 to |request.seatIds|
        invariant forall k :: 0 <= k < i ==> SeatError(cabin, bookings.bookings, request.flightId, request.seatIds[k]) == None
      {
        var seat := request.seatIds[i];
        if seat !in cabin {
          error := Some(UnknownSeat(seat));
        } else if cabin[seat].status == Blocked {
          error := Some(SeatNotForSale(seat));
        } else {
          var snapshot := bookings.IterAll();
          var taken := FindBooked(snapshot, request.flightId, seat);
          error := if taken then Some(SeatTaken(seat)) else None;
        }
        if error.Some? {
          SeatsErrorFirst(cabin, bookings.bookings, request.flightId, request.seatIds, i);
          return;
        }
      }
      SeatsErrorNone(cabin, bookings.bookings, request.flightId, request.seatIds);
      error := None;
    }

    method ValidateLock(request: CommitRequest, now: Time) returns (error: Option<CommitError>)
      ensures error == LockError(locks.Table(), request.lockId, request.sessionId, now)
    {
      if request.lockId.None? {
        return None;
      }
      var valid := locks.IsValid(request.lockId.value, now);
      var raw := locks.Get(request.lockId.value);
      if valid {
        return OwnershipError(raw, request.sessionId);
      }
      return Some(if raw.None? then LockNotFound else LockExpired);
    }
  }
}
