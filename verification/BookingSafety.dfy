/** No double booking, in every reachable state of the concurrent system. */
module BookingSafety {
  import opened Entities
  import opened Bookings
  import opened Worlds
  import opened Committing
  import opened Steps

  /** The first n requested seats exist, are for sale and are not booked. */
  ghost predicate SeatsClear(w: World, r: CommitRequest, n: nat) {
    n <= |r.seatIds| &&
    forall k :: 0 <= k < n ==> SeatError(CabinOf(w, r.flightId), w.bookings, r.flightId, r.seatIds[k]) == None
  }

  /** How many seats have been checked at this point. */
  function SeatsPassed(r: CommitRequest, c: CheckPc): nat {
    if c.AtSeat? then c.seated else if c.AtFlight? || c.AtQuote? || c.AtQuoteRaw? then 0 else |r.seatIds|
  }

  /** What the checks made so far still guarantee, at every point of a commit. */
  ghost predicate CommitSafe(w: World, pc: Pc) {
    match pc
    case Checking(r, c) => SeatsClear(w, r, SeatsPassed(r, c))
    case Paying(r, p) => !p.ToRecordDecline? ==> SeatsClear(w, r, |r.seatIds|)
    case Recording(r, ToSave(b)) =>
      SeatsClear(w, r, |r.seatIds|) && b.flightId == r.flightId && b.seatIds == r.seatIds && b.status == Confirmed
    case _ => true
  }

  /** Every booked seat exists in its flight's cabin and is for sale. */
  ghost predicate BookedWell(w: World) {
    forall i, seat :: 0 <= i < |w.bookings| && seat in w.bookings[i].seatIds ==>
      var cabin := CabinOf(w, w.bookings[i].flightId); seat in cabin && cabin[seat].status != Blocked
  }

  /** References are used once: in a booking, by the booking about to be saved, or still to be issued. */
  ghost predicate ReferencesFresh(w: World, pc: Pc) {
    && Distinct(w.references) && Keyed(w.bookings)
    && (forall b :: b in w.bookings ==> b.reference !in w.references)
    && (pc.Recording? && pc.r.ToSave? ==>
          && pc.r.booking.reference !in w.references
          && forall b :: b in w.bookings ==> b.reference != pc.r.booking.reference)
  }

  ghost predicate Safe(s: Sys) {
    && Mutex(s) && NoDoubleBooking(s.w.bookings) && BookedWell(s.w)
    && ReferencesFresh(s.w, CommitPc(s)) && CommitSafe(s.w, CommitPc(s))
  }

  lemma SafeAfterCheck(s: Sys, r: CommitRequest, c: CheckPc)
    requires CommitSafe(s.w, Checking(r, c))
    ensures CommitSafe(s.w, AfterCheck(s, r, c))
  {
    CheckFrame(s, r, c);
  }

  lemma SafeAfterPay(s: Sys, t: ThreadId, r: CommitRequest, p: PayPc, verdict: PaymentResult)
    requires CommitSafe(s.w, Paying(r, p)) && ReferencesFresh(s.w, Paying(r, p))
    ensures var s' := PayStep(s, t, r, p, verdict);
            CommitSafe(s'.w, PcOf(s', t)) && ReferencesFresh(s'.w, PcOf(s', t))
  {
    hide SeatError;
    if p.ToName? && s.w.references != [] {
      assert s.w.references[0] in s.w.references;
      assert forall x :: x in s.w.references[1..] ==> x in s.w.references && x != s.w.references[0];
    }
  }

  lemma ClearSeatsAreUnheld(w: World, r: CommitRequest, i: nat, seat: SeatId)
    requires SeatsClear(w, r, |r.seatIds|) && i < |w.bookings| && seat in r.seatIds
    ensures !Holds(w.bookings[i], r.flightId, seat)
  {
    var k :| 0 <= k < |r.seatIds| && r.seatIds[k] == seat;
    assert SeatError(CabinOf(w, r.flightId), w.bookings, r.flightId, r.seatIds[k]) == None;
  }

  lemma SaveKeepsSingle(bookings: seq<Booking>, b: Booking)
    requires NoDoubleBooking(bookings)
    requires forall i, seat :: 0 <= i < |bookings| && seat in b.seatIds ==> !Holds(bookings[i], b.flightId, seat)
    ensures NoDoubleBooking(bookings + [b])
  {
  }

  /** A booking with an unused reference goes last. */
  lemma SaveAppends(w: World, r: CommitRequest, b: Booking)
    requires ReferencesFresh(w, Recording(r, ToSave(b)))
    ensures SaveBooking(w.bookings, b) == w.bookings + [b]
    ensures ReferencesFresh(w.(bookings := w.bookings + [b]), Idle)
  {
    hide SaveBooking;
    assert forall x :: x in w.bookings + [b] ==> x in w.bookings || x == b;
  }

  lemma SaveBookedWell(w: World, b: Booking)
    requires BookedWell(w)
    requires forall seat :: seat in b.seatIds ==>
               var cabin := CabinOf(w, b.flightId); seat in cabin && cabin[seat].status != Blocked
    ensures BookedWell(w.(bookings := w.bookings + [b]))
  {
  }

  /** Saving a booking whose seats are clear keeps seats single-booked. */
  lemma SaveKeepsSafe(w: World, r: CommitRequest, b: Booking)
    requires NoDoubleBooking(w.bookings) && BookedWell(w)
    requires ReferencesFresh(w, Recording(r, ToSave(b))) && CommitSafe(w, Recording(r, ToSave(b)))
    ensures var w' := w.(bookings := SaveBooking(w.bookings, b));
            && w'.bookings == w.bookings + [b]
            && NoDoubleBooking(w'.bookings) && BookedWell(w') && ReferencesFresh(w', Idle)
  {
    SaveAppends(w, r, b);
    hide SeatsClear, NoDoubleBooking, BookedWell, ReferencesFresh, SaveBooking, Holds, CabinOf;
    forall i, seat | 0 <= i < |w.bookings| && seat in b.seatIds ensures !Holds(w.bookings[i], b.flightId, seat) {
      ClearSeatsAreUnheld(w, r, i, seat);
    }
    SaveKeepsSingle(w.bookings, b);
    forall seat | seat in b.seatIds
      ensures var cabin := CabinOf(w, b.flightId); seat in cabin && cabin[seat].status != Blocked
    {
      SeatsForSale(w, r, seat);
    }
    SaveBookedWell(w, b);
  }

  lemma SeatsForSale(w: World, r: CommitRequest, seat: SeatId)
    requires SeatsClear(w, r, |r.seatIds|) && seat in r.seatIds
    ensures var cabin := CabinOf(w, r.flightId); seat in cabin && cabin[seat].status != Blocked
  {
    var k :| 0 <= k < |r.seatIds| && r.seatIds[k] == seat;
    assert SeatError(CabinOf(w, r.flightId), w.bookings, r.flightId, r.seatIds[k]) == None;
  }

  lemma SafeAfterRecord(s: Sys, t: ThreadId, r: CommitRequest, step: RecordPc)
    requires PcOf(s, t) == Recording(r, step)
    requires NoDoubleBooking(s.w.bookings) && BookedWell(s.w)
    requires CommitSafe(s.w, Recording(r, step)) && ReferencesFresh(s.w, Recording(r, step))
    ensures var s' := RecordStep(s, t, r, step);
            && NoDoubleBooking(s'.w.bookings) && BookedWell(s'.w)
            && CommitSafe(s'.w, PcOf(s', t)) && ReferencesFresh(s'.w, PcOf(s', t))
  {
    hide NoDoubleBooking, SaveBooking, SeatsClear;
    RecordFrame(s, t, r, step);
    if step.ToSave? {
      SaveKeepsSafe(s.w, r, step.booking);
    }
  }

  lemma SafeElsewhere(s: Sys, l: Label)
    requires Safe(s) && !CommitStep(s, l)
    ensures Safe(Step(s, l))
  {
    hide NoDoubleBooking, Step, CommitPc, CommitStep, Mutex, SeatError;
    MutexStep(s, l);
    OtherStep(s, l);
    CatalogAndClock(s, l);
  }

  lemma SafeStep(s: Sys, l: Label)
    requires Safe(s)
    ensures Safe(Step(s, l))
  {
    hide NoDoubleBooking, AfterCheck, PayStep, RecordStep, BookedWell, ReferencesFresh, SeatsClear;
    if CommitStep(s, l) {
      MutexStep(s, l);
      match PcOf(s, l.t)
      case CommitWaiting(r) => EnterSafe(s.w, CommitPc(s), r);
      case Checking(r, c) => CheckFrame(s, r, c); SafeAfterCheck(s, r, c); NotSaving(s.w, PcOf(s, l.t), AfterCheck(s, r, c));
      case Paying(r, p) => PayFrame(s, l.t, r, p, l.verdict); SafeAfterPay(s, l.t, r, p, l.verdict); SameBookings(s.w, PayStep(s, l.t, r, p, l.verdict).w);
      case Recording(r, step) => RecordFrame(s, l.t, r, step); SafeAfterRecord(s, l.t, r, step); LeavingSafe(s.w, PcOf(s, l.t));
    } else {
      SafeElsewhere(s, l);
    }
  }

  lemma EnterSafe(w: World, pc: Pc, r: CommitRequest)
    requires ReferencesFresh(w, pc)
    ensures ReferencesFresh(w, Checking(r, AtFlight)) && CommitSafe(w, Checking(r, AtFlight))
  {
  }

  lemma NotSaving(w: World, pc: Pc, pc': Pc)
    requires ReferencesFresh(w, pc) && (pc'.Recording? ==> !pc'.r.ToSave?)
    ensures ReferencesFresh(w, pc')
  {
  }

  lemma LeavingSafe(w: World, pc: Pc)
    requires ReferencesFresh(w, pc)
    ensures ReferencesFresh(w, Idle)
  {
  }

  lemma SameBookings(w: World, w': World)
    requires BookedWell(w) && w'.bookings == w.bookings && w'.flights == w.flights
    ensures BookedWell(w')
  {
  }

  lemma {:induction false} SafeExec(s: Sys, ls: seq<Label>)
    requires Safe(s)
    ensures Safe(Exec(s, ls))
    decreases |ls|
  {
    if ls != [] {
      SafeStep(s, ls[0]);
      SafeExec(Step(s, ls[0]), ls[1..]);
    }
  }

  lemma InitiallySafe(s: Sys)
    requires Initial(s)
    ensures Safe(s)
  {
  }

  /** Over every run, however acquires, quotes, commits and the clock interleave and
      whatever becomes of the committers' seat locks meanwhile, no two bookings of
      a flight hold the same seat, every booked seat exists and is for sale, and
      no reference is given twice. */
  lemma NoDoubleBookingEver(from: Sys, ls: seq<Label>)
    requires Initial(from)
    ensures var w := Exec(from, ls).w;
            NoDoubleBooking(w.bookings) && BookedWell(w) && Keyed(w.bookings)
  {
    InitiallySafe(from);
    SafeExec(from, ls);
  }
}
