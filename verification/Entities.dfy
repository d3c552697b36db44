/** The booking system's entities.

    Time is a count of microseconds since 0001-01-01T00:00Z, which is a Monday.
    Fares, surcharges and charged totals are whole cents. An unrounded amount is
    an integer number of 10^-11 dollars (`Raw`): two fractional digits for the
    fare, six for the three multipliers and three for the tax rate make every
    amount the program computes exact at that scale. */
module Entities {
  datatype Option<+T> = None | Some(value: T)

  type Time = nat
  type Cents = int
  type Raw = int
  type LockId = string

  const MINUTE: nat := 60_000_000
  const DAY: nat := 1440 * MINUTE
  const LOCK_TTL: nat := 10 * MINUTE
  const QUOTE_TTL: nat := 30 * MINUTE

  datatype FlightId = FlightId(value: string)
  datatype SeatId = SeatId(value: string)
  datatype BookingReference = BookingReference(value: string)
  datatype QuoteId = QuoteId(value: string)
  datatype SessionId = SessionId(value: string)

  datatype SeatClass = Economy | Business | First
  datatype SeatKind =
    | Standard | Middle | Aisle | Window | ExitRow | FrontSection | Bulkhead
    | LieFlatSuite | WindowSuite | AisleAccess | PrivateSuite | FrontRow
  datatype SeatStatus = Available | Occupied | Blocked

  /** A seat; its id is the key under which the cabin stores it. */
  datatype Seat = Seat(seatClass: SeatClass, kind: SeatKind, status: SeatStatus)
  type Cabin = map<SeatId, Seat>

  datatype RouteKind = Domestic | International
  datatype DayOfWeek = Mon | Tue | Wed | Thu | Fri | Sat | Sun

  datatype Flight = Flight(
    origin: string, destination: string, departureAt: Time, arrivalAt: Time,
    airline: string, baseFare: Cents, cabin: Cabin, routeKind: RouteKind)

  /** A non-negative decimal number coeff * 10^exp. */
  datatype Decimal = Decimal(coeff: nat, exp: int)

  datatype SurchargeLine = SurchargeLine(seat: SeatId, amount: Cents)

  /** Multipliers are in hundredths. Taxes and fees keep full precision. */
  datatype PriceBreakdown = PriceBreakdown(
    baseFare: Cents, demand: int, time: int, day: int,
    surcharges: seq<SurchargeLine>, taxes: Raw, fees: Raw)

  datatype Quote = Quote(
    id: QuoteId, sessionId: SessionId, flightId: FlightId, seatIds: seq<SeatId>,
    passengers: int, breakdown: PriceBreakdown, createdAt: Time, expiresAt: Time)

  datatype LockRecord = LockRecord(
    lockId: LockId, flightId: FlightId, seatIds: seq<SeatId>, sessionId: SessionId, expiresAt: Time)

  datatype BookingStatus = Confirmed | CheckedIn | Completed | CancelledByTraveler | CancelledByOperator

  datatype Booking = Booking(
    reference: BookingReference, flightId: FlightId, seatIds: seq<SeatId>, passengers: seq<string>,
    totalCharged: Cents, status: BookingStatus, quoteId: QuoteId, confirmedAt: Time)

  datatype Event =
    | QuoteCreated(quoteId: QuoteId, sessionId: SessionId, flightId: FlightId, seatIds: seq<SeatId>,
                   occupancy: Decimal, daysBefore: int, departureDay: DayOfWeek,
                   baseFare: Cents, total: Cents, createdAt: Time, expiresAt: Time)
    | BookingCommitted(reference: BookingReference, committedQuote: QuoteId, flightId: FlightId,
                       seatIds: seq<SeatId>, totalCharged: Cents, at: Time)
    | PaymentFailed(failedQuote: Option<QuoteId>, flightId: FlightId, seatIds: seq<SeatId>,
                    paymentToken: string, reason: string, attemptedAt: Time)

  /** The gateway's verdict on one charge. */
  datatype PaymentResult = PaymentResult(succeeded: bool, reason: Option<string>)

  /** One call of the gateway, as the gateway saw it. */
  datatype Charge = Charge(paymentToken: string, amount: Cents, succeeded: bool)

  ghost predicate Distinct<T>(s: seq<T>) {
    forall i, j :: 0 <= i < j < |s| ==> s[i] != s[j]
  }
}
