/** Committing a booking: the checks in their order, and what commit() does
    when nothing interrupts it. */
module Committing {
  import opened Entities
  import opened LockTables
  import opened Breakdown
  import opened Bookings
  import opened QuoteStores
  import opened Worlds

  datatype CommitRequest = CommitRequest(
    flightId: FlightId, seatIds: seq<SeatId>, passengers: seq<string>, paymentToken: string,
    quoteId: Option<QuoteId>, lockId: Option<LockId>, sessionId: Option<SessionId>)

  datatype CommitError =
    | FlightNotFound | NoSuchQuote | QuoteExpired
    | UnknownSeat(seat: SeatId) | SeatNotForSale(seat: SeatId) | SeatTaken(seat: SeatId)
    | LockNotFound | LockExpired | LockSessionMismatch | PaymentDeclined

  datatype CommitResult = Booked(booking: Booking) | Refused(error: CommitError) | ReferencesExhausted

  /** Carried by bookings that cite no quote. */
  const NO_QUOTE := QuoteId("Q000-WS")

  datatype QuoteLookup = NoQuoteGiven | FoundQuote(quote: Quote) | BadQuote(error: CommitError)

  function ResolveQuote(quotes: map<QuoteId, Quote>, id: Option<QuoteId>, now: Time): QuoteLookup {
    if id.None? then NoQuoteGiven
    else
      var valid := GetValidQuote(quotes, id.value, now);
      if valid.Some? then FoundQuote(valid.value)
      else if GetQuote(quotes, id.value).None? then BadQuote(NoSuchQuote)
      else BadQuote(QuoteExpired)
  }

  function SeatError(cabin: Cabin, bookings: seq<Booking>, flightId: FlightId, seat: SeatId): Option<CommitError> {
    if seat !in cabin then Some(UnknownSeat(seat))
    else if cabin[seat].status == Blocked then Some(SeatNotForSale(seat))
    else if SeatAlreadyBooked(bookings, flightId, seat) then Some(SeatTaken(seat))
    else None
  }

  /** The error of the first failing seat. */
  function SeatsError(cabin: Cabin, bookings: seq<Booking>, flightId: FlightId, seats: seq<SeatId>): Option<CommitError> {
    if seats == [] then None
    else
      var first := SeatError(cabin, bookings, flightId, seats[0]);
      if first.Some? then first else SeatsError(cabin, bookings, flightId, seats[1..])
  }

  function OwnershipError(record: Option<LockRecord>, session: Option<SessionId>): Option<CommitError> {
    if record.None? || session.None? || record.value.sessionId == session.value then None
    else Some(LockSessionMismatch)
  }

  function LockError(locks: LockTable, lockId: Option<LockId>, session: Option<SessionId>, now: Time): Option<CommitError> {
    if lockId.None? then None
    else if IsValid(locks, lockId.value, now) then OwnershipError(Get(locks, lockId.value), session)
    else if Get(locks, lockId.value).None? then Some(LockNotFound)
    else Some(LockExpired)
  }

  function QuoteOf(lookup: QuoteLookup): Option<Quote> {
    if lookup.FoundQuote? then Some(lookup.quote) else None
  }

  /** The total the quote locked in, or the flight's base fare without a quote. */
  function AmountDue(flight: Flight, quote: Option<Quote>): Cents {
    if quote.Some? then Total(quote.value.breakdown) else flight.baseFare
  }

  function CitedQuote(quote: Option<Quote>): QuoteId {
    if quote.Some? then quote.value.id else NO_QUOTE
  }

  function MakeBooking(reference: BookingReference, r: CommitRequest, total: Cents, quote: Option<Quote>, now: Time): Booking {
    Booking(reference, r.flightId, r.seatIds, r.passengers, total, Confirmed, CitedQuote(quote), now)
  }

  function CommittedEvent(b: Booking): Event {
    BookingCommitted(b.reference, b.quoteId, b.flightId, b.seatIds, b.totalCharged, b.confirmedAt)
  }

  function Reason(verdict: PaymentResult): string {
    if verdict.reason.Some? && verdict.reason.value != "" then verdict.reason.value else "declined"
  }

  function FailedEvent(r: CommitRequest, verdict: PaymentResult, now: Time): Event {
    PaymentFailed(r.quoteId, r.flightId, r.seatIds, r.paymentToken, Reason(verdict), now)
  }

  /** The first failing check, in the order commit makes them. */
  function CheckError(w: World, r: CommitRequest): Option<CommitError> {
    if r.flightId !in w.flights then Some(FlightNotFound)
    else
      var lookup := ResolveQuote(w.quotes, r.quoteId, w.now);
      if lookup.BadQuote? then Some(lookup.error)
      else
        var seats := SeatsError(w.flights[r.flightId].cabin, w.bookings, r.flightId, r.seatIds);
        if seats.Some? then seats else LockError(w.locks, r.lockId, r.sessionId, w.now)
  }

  function Due(w: World, r: CommitRequest): Cents
    requires r.flightId in w.flights
  {
    AmountDue(w.flights[r.flightId], QuoteOf(ResolveQuote(w.quotes, r.quoteId, w.now)))
  }

  function ReleaseGiven(locks: LockTable, lockId: Option<LockId>): LockTable {
    if lockId.Some? then Release(locks, lockId.value) else locks
  }

  /** One commit call, run without interruption. */
  function CommitCall(w: World, r: CommitRequest, verdict: PaymentResult): (World, CommitResult) {
    var error := CheckError(w, r);
    if error.Some? then (w, Refused(error.value))
    else
      var total := Due(w, r);
      var w1 := w.(charges := w.charges + [Charge(r.paymentToken, total, verdict.succeeded)]);
      if !verdict.succeeded then
        (w1.(audit := w.audit + [FailedEvent(r, verdict, w.now)]), Refused(PaymentDeclined))
      else if w.references == [] then (w1, ReferencesExhausted)
      else
        var b := MakeBooking(w.references[0], r, total, QuoteOf(ResolveQuote(w.quotes, r.quoteId, w.now)), w.now);
        (w1.(references := w.references[1..], bookings := SaveBooking(w.bookings, b), emails := w.emails + [b],
             locks := ReleaseGiven(w.locks, r.lockId), audit := w.audit + [CommittedEvent(b)]), Booked(b))
  }

  lemma {:induction false} SeatsErrorNone(cabin: Cabin, bookings: seq<Booking>, flightId: FlightId, seats: seq<SeatId>)
    ensures SeatsError(cabin, bookings, flightId, seats) == None <==>
            forall i :: 0 <= i < |seats| ==> SeatError(cabin, bookings, flightId, seats[i]) == None
  {
    if seats != [] {
      SeatsErrorNone(cabin, bookings, flightId, seats[1..]);
      assert forall i :: 0 < i < |seats| ==> seats[i] == seats[1..][i - 1];
    }
  }

  lemma {:induction false} SeatsErrorFirst(cabin: Cabin, bookings: seq<Booking>, flightId: FlightId, seats: seq<SeatId>, i: nat)
    requires i < |seats| && SeatError(cabin, bookings, flightId, seats[i]).Some?
    requires forall k :: 0 <= k < i ==> SeatError(cabin, bookings, flightId, seats[k]) == None
    ensures SeatsError(cabin, bookings, flightId, seats) == SeatError(cabin, bookings, flightId, seats[i])
  {
    if i > 0 {
      SeatsErrorFirst(cabin, bookings, flightId, seats[1..], i - 1);
    }
  }

  // ---- What each refusal means

  /** The cabin has the seat for sale and no confirmed booking of the flight lists it. */
  ghost predicate Free(w: World, flightId: FlightId, seat: SeatId)
    requires flightId in w.flights
  {
    && seat in w.flights[flightId].cabin && w.flights[flightId].cabin[seat].status != Blocked
    && forall b :: b in w.bookings && b.flightId == flightId && b.status == Confirmed ==> seat !in b.seatIds
  }

  ghost predicate QuoteHonored(w: World, r: CommitRequest) {
    r.quoteId.Some? ==> r.quoteId.value in w.quotes && w.now < w.quotes[r.quoteId.value].expiresAt
  }

  /** The seat is the first of the request that is not free, on a known flight and a live quote. */
  ghost predicate FirstNotFree(w: World, r: CommitRequest, seat: SeatId) {
    && r.flightId in w.flights && QuoteHonored(w, r)
    && exists i :: 0 <= i < |r.seatIds| && r.seatIds[i] == seat && !Free(w, r.flightId, seat)
                   && forall k :: 0 <= k < i ==> Free(w, r.flightId, r.seatIds[k])
  }

  /** Flight, quote and seats are in order, and the request names a lock. */
  ghost predicate UpToLock(w: World, r: CommitRequest) {
    && r.flightId in w.flights && QuoteHonored(w, r) && r.lockId.Some?
    && forall k :: 0 <= k < |r.seatIds| ==> Free(w, r.flightId, r.seatIds[k])
  }

  /** What the error tells the caller, in terms of the stores alone. */
  ghost predicate Truthful(w: World, r: CommitRequest, e: CommitError) {
    match e
    case FlightNotFound => r.flightId !in w.flights
    case NoSuchQuote => r.flightId in w.flights && r.quoteId.Some? && r.quoteId.value !in w.quotes
    case QuoteExpired =>
      r.flightId in w.flights && r.quoteId.Some? && r.quoteId.value in w.quotes && w.quotes[r.quoteId.value].expiresAt <= w.now
    case UnknownSeat(seat) => FirstNotFree(w, r, seat) && seat !in w.flights[r.flightId].cabin
    case SeatNotForSale(seat) =>
      FirstNotFree(w, r, seat) && seat in w.flights[r.flightId].cabin && w.flights[r.flightId].cabin[seat].status == Blocked
    case SeatTaken(seat) =>
      FirstNotFree(w, r, seat) && seat in w.flights[r.flightId].cabin && w.flights[r.flightId].cabin[seat].status != Blocked
    case LockNotFound => UpToLock(w, r) && r.lockId.value !in w.locks.byLock
    case LockExpired =>
      UpToLock(w, r) && r.lockId.value in w.locks.byLock && w.locks.byLock[r.lockId.value].expiresAt <= w.now
    case LockSessionMismatch =>
      && UpToLock(w, r) && r.lockId.value in w.locks.byLock && w.now < w.locks.byLock[r.lockId.value].expiresAt
      && r.sessionId.Some? && r.sessionId.value != w.locks.byLock[r.lockId.value].sessionId
    case PaymentDeclined => false
  }

  lemma FreeMeansNoError(w: World, flightId: FlightId, seat: SeatId)
    requires flightId in w.flights
    ensures Free(w, flightId, seat) <==> SeatError(w.flights[flightId].cabin, w.bookings, flightId, seat) == None
  {
    if SeatAlreadyBooked(w.bookings, flightId, seat) {
      var i :| 0 <= i < |w.bookings| && Holds(w.bookings[i], flightId, seat);
      assert w.bookings[i] in w.bookings;
    } else {
      forall b | b in w.bookings && b.flightId == flightId && b.status == Confirmed ensures seat !in b.seatIds {
        var i :| 0 <= i < |w.bookings| && w.bookings[i] == b;
        assert !Holds(w.bookings[i], flightId, seat);
      }
    }
  }

  /** The error of the seats is that of the first one not free. */
  lemma SeatsErrorMeans(w: World, r: CommitRequest)
    requires r.flightId in w.flights && QuoteHonored(w, r)
    ensures var error := SeatsError(w.flights[r.flightId].cabin, w.bookings, r.flightId, r.seatIds);
            if error.None? then forall k :: 0 <= k < |r.seatIds| ==> Free(w, r.flightId, r.seatIds[k])
            else exists seat :: FirstNotFree(w, r, seat) && error == SeatError(w.flights[r.flightId].cabin, w.bookings, r.flightId, seat)
  {
    hide SeatError, Free;
    var cabin := w.flights[r.flightId].cabin;
    SeatsErrorNone(cabin, w.bookings, r.flightId, r.seatIds);
    forall k | 0 <= k < |r.seatIds|
      ensures Free(w, r.flightId, r.seatIds[k]) <==> SeatError(cabin, w.bookings, r.flightId, r.seatIds[k]) == None
    {
      FreeMeansNoError(w, r.flightId, r.seatIds[k]);
    }
    if SeatsError(cabin, w.bookings, r.flightId, r.seatIds).Some? {
      var i := FirstBad(w, r, 0);
      SeatsErrorFirst(cabin, w.bookings, r.flightId, r.seatIds, i);
      assert FirstNotFree(w, r, r.seatIds[i]);
    }
  }

  lemma {:induction false} FirstBad(w: World, r: CommitRequest, from: nat) returns (i: nat)
    requires r.flightId in w.flights && from <= |r.seatIds|
    requires forall k :: 0 <= k < from ==> Free(w, r.flightId, r.seatIds[k])
    requires exists k :: 0 <= k < |r.seatIds| && !Free(w, r.flightId, r.seatIds[k])
    ensures i < |r.seatIds| && !Free(w, r.flightId, r.seatIds[i])
    ensures forall k :: 0 <= k < i ==> Free(w, r.flightId, r.seatIds[k])
    decreases |r.seatIds| - from
  {
    hide Free;
    i := from;
    if Free(w, r.flightId, r.seatIds[from]) {
      i := FirstBad(w, r, from + 1);
    }
  }

  lemma OneFirst(w: World, r: CommitRequest, a: SeatId, b: SeatId)
    requires FirstNotFree(w, r, a) && FirstNotFree(w, r, b)
    ensures a == b
  {
    hide Free;
  }

  /** Every refusal of a check is true of the stores, and every true one is given:
      the errors exclude each other in the order in which commit looks for them. */
  lemma RefusalsAreTruthful(w: World, r: CommitRequest, e: CommitError)
    ensures CheckError(w, r) == Some(e) <==> Truthful(w, r, e)
  {
    hide SeatsError, Free, FirstNotFree;
    if r.flightId in w.flights && QuoteHonored(w, r) {
      SeatsErrorMeans(w, r);
      var error := SeatsError(w.flights[r.flightId].cabin, w.bookings, r.flightId, r.seatIds);
      if error.Some? {
        var seat :| FirstNotFree(w, r, seat) && error == SeatError(w.flights[r.flightId].cabin, w.bookings, r.flightId, seat);
        NotFreeAlone(w, r, seat, e);
      } else {
        AllFree(w, r);
      }
    } else {
      NeedsQuote(w, r);
    }
  }

  lemma NotFreeAlone(w: World, r: CommitRequest, seat: SeatId, e: CommitError)
    requires FirstNotFree(w, r, seat)
    ensures SeatError(w.flights[r.flightId].cabin, w.bookings, r.flightId, seat) == Some(e) <==> Truthful(w, r, e)
  {
    hide Free;
    FreeMeansNoError(w, r.flightId, seat);
    assert !UpToLock(w, r);
    if e.UnknownSeat? || e.SeatNotForSale? || e.SeatTaken? {
      if FirstNotFree(w, r, e.seat) {
        OneFirst(w, r, seat, e.seat);
      }
    }
  }

  lemma AllFree(w: World, r: CommitRequest)
    requires r.flightId in w.flights
    requires forall k :: 0 <= k < |r.seatIds| ==> Free(w, r.flightId, r.seatIds[k])
    ensures forall seat :: !FirstNotFree(w, r, seat)
  {
    hide Free;
  }

  lemma NeedsQuote(w: World, r: CommitRequest)
    requires r.flightId !in w.flights || !QuoteHonored(w, r)
    ensures !UpToLock(w, r) && forall seat :: !FirstNotFree(w, r, seat)
  {
    hide Free;
  }

  // ---- What a commit charges and leaves behind

  /** The amount: the flight's base fare, or the total of the stored quote that is named. */
  ghost predicate Asked(w: World, r: CommitRequest, amount: Cents) {
    && r.flightId in w.flights
    && (r.quoteId.None? ==> amount == w.flights[r.flightId].baseFare)
    && (r.quoteId.Some? ==> r.quoteId.value in w.quotes && amount == Total(w.quotes[r.quoteId.value].breakdown))
  }

  /** The booking of the request, field by field. */
  ghost predicate BookedAs(w: World, r: CommitRequest, b: Booking) {
    && w.references != [] && b.reference == w.references[0]
    && b.flightId == r.flightId && b.seatIds == r.seatIds && b.passengers == r.passengers
    && b.status == Confirmed && b.confirmedAt == w.now && Asked(w, r, b.totalCharged)
    && b.quoteId == if r.quoteId.None? then QuoteId("Q000-WS") else w.quotes[r.quoteId.value].id
  }

  lemma PassedAsks(w: World, r: CommitRequest)
    requires CheckError(w, r) == None
    ensures r.flightId in w.flights && Asked(w, r, Due(w, r))
    ensures r.quoteId.Some? ==> r.quoteId.value in w.quotes
    ensures QuoteOf(ResolveQuote(w.quotes, r.quoteId, w.now))
            == if r.quoteId.None? then None else Some(w.quotes[r.quoteId.value])
  {
    hide SeatsError, LockError, Total;
  }

  /** A booked commit: the booking tells the request, and the amount is the base fare or
      the quote's total; exactly that amount is charged to the request's token; the
      booking is stored and mailed; the event tells the booking; the reference is used
      up; the named lock is released; nothing else changes. */
  lemma BookedMeans(w: World, r: CommitRequest, v: PaymentResult)
    requires CommitCall(w, r, v).1.Booked?
    ensures var (w', result) := CommitCall(w, r, v);
            var b := result.booking;
            && v.succeeded && BookedAs(w, r, b)
            && w'.charges == w.charges + [Charge(r.paymentToken, b.totalCharged, true)]
            && w'.audit == w.audit + [BookingCommitted(b.reference, b.quoteId, r.flightId, r.seatIds, b.totalCharged, w.now)]
            && w'.emails == w.emails + [b] && w'.references == w.references[1..]
            && (forall reference :: Lookup(w'.bookings, reference) ==
                                    if reference == b.reference then Some(b) else Lookup(w.bookings, reference))
            && (r.lockId.None? ==> w'.locks == w.locks)
            && w' == w.(charges := w'.charges, audit := w'.audit, emails := w'.emails, references := w'.references,
                        bookings := w'.bookings, locks := w'.locks)
  {
    hide CheckError, Due, Total, Release, SaveBooking, ResolveQuote, Lookup, QuoteOf;
    PassedAsks(w, r);
    var b := CommitCall(w, r, v).1.booking;
    forall reference
      ensures Lookup(SaveBooking(w.bookings, b), reference) == if reference == b.reference then Some(b) else Lookup(w.bookings, reference)
    {
      SaveIsADictionaryWrite(w.bookings, b, reference);
    }
  }

  /** A booked commit takes exactly the named lock out of a coherent lock table. */
  lemma BookedReleases(w: World, r: CommitRequest, v: PaymentResult, ids: seq<LockId>)
    requires CommitCall(w, r, v).1.Booked? && r.lockId.Some? && Coherent(w.locks) && FreshIds(w.locks, ids)
    ensures var t, t' := w.locks, CommitCall(w, r, v).0.locks;
            && t'.byLock.Keys == t.byLock.Keys - {r.lockId.value}
            && (forall id :: id in t'.byLock ==> t'.byLock[id] == t.byLock[id])
            && (forall s :: s in t'.bySeat <==> s in t.bySeat && t.bySeat[s].lockId != r.lockId.value)
            && (forall s :: s in t'.bySeat ==> t'.bySeat[s] == t.bySeat[s])
  {
    hide CheckError, Due, SaveBooking;
    ReleaseCoherent(w.locks, ids, r.lockId.value);
  }

  /** A declined commit: the same amount was asked of the request's token, the event
      tells the request and the gateway's reason, and nothing else changes. */
  lemma DeclinedMeans(w: World, r: CommitRequest, v: PaymentResult)
    requires CommitCall(w, r, v).1 == Refused(PaymentDeclined)
    ensures var w' := CommitCall(w, r, v).0;
            && !v.succeeded && w'.charges != []
            && Asked(w, r, w'.charges[|w'.charges| - 1].amount)
            && w' == w.(
                 charges := w.charges + [Charge(r.paymentToken, w'.charges[|w'.charges| - 1].amount, false)],
                 audit := w.audit + [PaymentFailed(r.quoteId, r.flightId, r.seatIds, r.paymentToken,
                                                   if v.reason.None? || v.reason.value == "" then "declined" else v.reason.value, w.now)])
  {
    hide CheckError, Due, Total;
    RefusalsAreTruthful(w, r, PaymentDeclined);
    PassedAsks(w, r);
  }

  /** An accepted commit without a reference left: the amount is charged, and nothing else changes. */
  lemma ExhaustedMeans(w: World, r: CommitRequest, v: PaymentResult)
    requires CommitCall(w, r, v).1 == ReferencesExhausted
    ensures var w' := CommitCall(w, r, v).0;
            && v.succeeded && w.references == [] && w'.charges != []
            && Asked(w, r, w'.charges[|w'.charges| - 1].amount)
            && w' == w.(charges := w.charges + [Charge(r.paymentToken, w'.charges[|w'.charges| - 1].amount, true)])
  {
    hide CheckError, Due, Total;
    PassedAsks(w, r);
  }

  /** Which of these a commit is: refused by a check, when a check's error is true;
      otherwise declined, exhausted or booked by the verdict and the supply. */
  lemma OutcomeMeans(w: World, r: CommitRequest, v: PaymentResult)
    ensures var (w', result) := CommitCall(w, r, v);
            && (forall e :: Truthful(w, r, e) ==> result == Refused(e) && w' == w)
            && ((forall e :: !Truthful(w, r, e)) ==>
                  && (result == Refused(PaymentDeclined) <==> !v.succeeded)
                  && (result == ReferencesExhausted <==> v.succeeded && w.references == [])
                  && (result.Booked? <==> v.succeeded && w.references != []))
  {
    hide CheckError, Due, Truthful, SaveBooking, Release;
    forall e ensures CheckError(w, r) == Some(e) <==> Truthful(w, r, e) {
      RefusalsAreTruthful(w, r, e);
    }
    if CheckError(w, r).Some? {
      assert Truthful(w, r, CheckError(w, r).value);
    }
  }
}
