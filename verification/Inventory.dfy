/** Occupancy counts seats: the numerator that pricing uses is a set's size. */
module Inventory {
  import opened Entities
  import opened LockTables
  import opened Occupancy
  import Pricing
  import opened Bookings
  import opened Worlds
  import opened Quoting
  import opened Committing
  import opened SeatMaps
  import opened Steps
  import Races
  import SoloRuns
  import opened BookingSafety

  /** The seats the seat map shows as not available when no lock is held. */
  function NotAvailable(w: World, flightId: FlightId): set<SeatId>
    requires flightId in w.flights
  {
    set s | s in w.flights[flightId].cabin && !Shown(w.(locks := EMPTY_TABLE), flightId, None, s)
  }

  /** The numerator of the occupancy percentage. */
  function Taken(w: World, flightId: FlightId): nat
    requires flightId in w.flights
  {
    |UnavailableSeats(w.flights[flightId].cabin)| + ActiveBookedSeatCount(w.bookings, flightId)
  }

  ghost predicate DistinctSeats(bookings: seq<Booking>, flightId: FlightId) {
    forall i :: 0 <= i < |bookings| && bookings[i].flightId == flightId && bookings[i].status == Confirmed ==>
      Distinct(bookings[i].seatIds)
  }

  lemma DistinctNext(seats: seq<SeatId>, seat: SeatId)
    ensures Distinct(seats + [seat]) <==> Distinct(seats) && seat !in seats
  {
    var next := seats + [seat];
    assert next[|seats|] == seat && forall i :: 0 <= i < |seats| ==> next[i] == seats[i];
    if Distinct(next) {
      forall i | 0 <= i < |seats| ensures seats[i] != seat {
        assert next[i] != next[|seats|];
      }
    }
  }

  lemma {:induction false} SetOfSeats(seats: seq<SeatId>)
    ensures |SeatsOf(seats)| <= |seats|
    ensures |SeatsOf(seats)| == |seats| <==> Distinct(seats)
  {
    if seats != [] {
      hide Distinct;
      var n := |seats| - 1;
      assert seats == seats[..n] + [seats[n]];
      SetOfSeats(seats[..n]);
      DistinctNext(seats[..n], seats[n]);
      assert SeatsOf(seats) == SeatsOf(seats[..n]) + {seats[n]};
    }
  }

  lemma DisjointUnion(a: set<SeatId>, b: set<SeatId>)
    requires a !! b
    ensures |a + b| == |a| + |b|
  {
  }

  lemma {:induction false} CountMeasuresSet(bookings: seq<Booking>, flightId: FlightId)
    requires NoDoubleBooking(bookings)
    ensures |OccupiedSeatIds(bookings, flightId)| <= ActiveBookedSeatCount(bookings, flightId)
    ensures |OccupiedSeatIds(bookings, flightId)| == ActiveBookedSeatCount(bookings, flightId) <==> DistinctSeats(bookings, flightId)
  {
    if bookings != [] {
      var n := |bookings| - 1;
      var before, last := bookings[..n], bookings[n];
      CountMeasuresSet(before, flightId);
      assert forall i :: 0 <= i < n ==> before[i] == bookings[i];
      SetOfSeats(last.seatIds);
      if last.flightId == flightId && last.status == Confirmed {
        forall seat | seat in last.seatIds ensures seat !in OccupiedSeatIds(before, flightId) {
          OccupiedMeansBooked(before, flightId, seat);
          assert Holds(last, flightId, seat);
        }
        DisjointUnion(OccupiedSeatIds(before, flightId), SeatsOf(last.seatIds));
      }
      SplitDistinct(bookings, flightId);
    }
  }

  lemma SplitDistinct(bookings: seq<Booking>, flightId: FlightId)
    requires bookings != []
    ensures var n := |bookings| - 1;
            DistinctSeats(bookings, flightId) <==>
            DistinctSeats(bookings[..n], flightId)
            && (bookings[n].flightId == flightId && bookings[n].status == Confirmed ==> Distinct(bookings[n].seatIds))
  {
    var n := |bookings| - 1;
    assert forall i :: 0 <= i < n ==> bookings[..n][i] == bookings[i];
  }

  /** The seats the cabin itself marks as occupied; they can be booked all the same. */
  function MarkedOccupied(cabin: Cabin): set<SeatId> {
    set s | s in cabin && cabin[s].status == Occupied
  }

  function NotForSale(cabin: Cabin): set<SeatId> {
    set s | s in cabin && cabin[s].status == Blocked
  }

  /** Seats listed more than once by the confirmed bookings of the flight. */
  function Repeated(bookings: seq<Booking>, flightId: FlightId): int {
    ActiveBookedSeatCount(bookings, flightId) - |OccupiedSeatIds(bookings, flightId)|
  }

  /** The seats not available are those not for sale and, apart from them, the booked ones. */
  lemma NotAvailableSplits(w: World, flightId: FlightId)
    requires flightId in w.flights && BookedWell(w)
    ensures NotAvailable(w, flightId) == NotForSale(w.flights[flightId].cabin) + OccupiedSeatIds(w.bookings, flightId)
    ensures NotForSale(w.flights[flightId].cabin) !! OccupiedSeatIds(w.bookings, flightId)
  {
    forall seat | seat in OccupiedSeatIds(w.bookings, flightId)
      ensures seat in w.flights[flightId].cabin && w.flights[flightId].cabin[seat].status != Blocked
    {
      OccupiedMeansBooked(w.bookings, flightId, seat);
    }
  }

  lemma UnavailableSplits(cabin: Cabin)
    ensures |UnavailableSeats(cabin)| == |NotForSale(cabin)| + |MarkedOccupied(cabin)|
  {
    assert UnavailableSeats(cabin) == NotForSale(cabin) + MarkedOccupied(cabin);
    DisjointUnion(NotForSale(cabin), MarkedOccupied(cabin));
  }

  /** In every reachable state the occupancy numerator of a flight exceeds the number of
      seats the lock-free seat map shows as not available by the seats the cabin marks
      as occupied and the repetitions within bookings: it is that number exactly when
      there is neither, and is then at most the size of the cabin. */
  lemma OccupancyCountsSeats(from: Sys, ls: seq<Label>, flightId: FlightId)
    requires Initial(from) && flightId in Exec(from, ls).w.flights
    ensures var w := Exec(from, ls).w;
            var cabin := w.flights[flightId].cabin;
            && Taken(w, flightId) == |NotAvailable(w, flightId)| + |MarkedOccupied(cabin)| + Repeated(w.bookings, flightId)
            && Repeated(w.bookings, flightId) >= 0
            && (Taken(w, flightId) == |NotAvailable(w, flightId)| <==>
                  DistinctSeats(w.bookings, flightId) && forall s :: s in cabin ==> cabin[s].status != Occupied)
            && |NotAvailable(w, flightId)| <= |cabin|
  {
    var w := Exec(from, ls).w;
    NoDoubleBookingEver(from, ls);
    hide NoDoubleBooking, BookedWell, UnavailableSeats, DistinctSeats, Exec;
    var cabin := w.flights[flightId].cabin;
    CountMeasuresSet(w.bookings, flightId);
    NotAvailableSplits(w, flightId);
    DisjointUnion(NotForSale(cabin), OccupiedSeatIds(w.bookings, flightId));
    UnavailableSplits(cabin);
    Subset(NotAvailable(w, flightId), cabin.Keys);
    NoneMarked(cabin);
  }

  lemma NoneMarked(cabin: Cabin)
    ensures |MarkedOccupied(cabin)| == 0 <==> forall s :: s in cabin ==> cabin[s].status != Occupied
  {
    if |MarkedOccupied(cabin)| == 0 {
      forall s | s in cabin ensures cabin[s].status != Occupied {
        assert s !in MarkedOccupied(cabin);
      }
    }
  }

  lemma {:induction false} Subset(a: set<SeatId>, b: set<SeatId>)
    requires a <= b
    ensures |a| <= |b|
  {
    assert b == a + (b - a);
    DisjointUnion(a, b - a);
  }

  /** In every reachable state, a quote's demand multiplier is the bucket of the seats
      the lock-free seat map shows as not available, plus those the cabin marks as
      occupied and the repetitions within bookings. */
  lemma DemandFollowsTheSeatMap(from: Sys, ls: seq<Label>, flightId: FlightId, seats: seq<SeatId>)
    requires Initial(from) && flightId in Exec(from, ls).w.flights
    requires var flight := Exec(from, ls).w.flights[flightId];
             |flight.cabin| < CABIN_LIMIT && DaysBefore(flight, Exec(from, ls).w.now) >= 0
    ensures var w := Exec(from, ls).w;
            var cabin := w.flights[flightId].cabin;
            var counted := |NotAvailable(w, flightId)| + |MarkedOccupied(cabin)| + Repeated(w.bookings, flightId);
            && counted >= 0
            && PriceSeats(w.flights[flightId], flightId, seats, ActiveBookedSeatCount(w.bookings, flightId), w.now).breakdown.demand
               == Pricing.DemandByCount(counted, |cabin|)
  {
    hide Exec, Initial, NotAvailable, DistinctSeats, MarkedOccupied, Repeated, UnavailableSeats, PriceSeats;
    var w := Exec(from, ls).w;
    OccupancyCountsSeats(from, ls, flightId);
    QuoteInputsAreExact(w.flights[flightId], flightId, seats, ActiveBookedSeatCount(w.bookings, flightId), w.now);
  }

  // ---- Requests without repeated seats

  /** The call does not ask to commit a seat twice. */
  predicate AsksOnce(l: Label) {
    l.CallCommit? ==> forall i, j :: 0 <= i < j < |l.commitRequest.seatIds| ==> l.commitRequest.seatIds[i] != l.commitRequest.seatIds[j]
  }

  ghost predicate RequestOnce(pc: Pc) {
    pc.CommitWaiting? || InCommit(pc) ==> Distinct(pc.request.seatIds)
  }

  ghost predicate OnceOnly(s: Sys) {
    && (forall t: ThreadId :: RequestOnce(PcOf(s, t)))
    && (forall i :: 0 <= i < |s.w.bookings| ==> Distinct(s.w.bookings[i].seatIds))
  }

  lemma RequestStays(s: Sys, l: Label, t: ThreadId)
    requires RequestOnce(PcOf(s, t)) && AsksOnce(l)
    ensures RequestOnce(PcOf(Step(s, l), t))
  {
    hide AcquireStep, QuoteStep, AfterCheck, PayStep, RecordStep, Distinct;
    if l.CallCommit? {
      assert Distinct(l.commitRequest.seatIds) by { AskedOnce(l); }
    }
    if l.Go? {
      match PcOf(s, l.t)
      case Acquiring(want, a) => if want.AcquireOp? { AcquireFrame(s, l.t, want, a); }
      case Pricing(q) => QuoteFrame(s, l.t, q);
      case Checking(r, c) => CheckFrame(s, r, c);
      case Paying(r, p) => PayFrame(s, l.t, r, p, l.verdict);
      case Recording(r, step) => RecordFrame(s, l.t, r, step); RecordRequest(s, l.t, r, step);
      case _ =>
    }
  }

  lemma AskedOnce(l: Label)
    requires l.CallCommit? && AsksOnce(l)
    ensures Distinct(l.commitRequest.seatIds)
  {
  }

  lemma RecordRequest(s: Sys, t: ThreadId, r: CommitRequest, step: RecordPc)
    requires PcOf(s, t) == Recording(r, step)
    ensures var pc' := PcOf(RecordStep(s, t, r, step), t); pc'.Idle? || (pc'.Recording? && pc'.request == r)
  {
    hide Bookings.SaveBooking, Release;
  }

  /** Bookings change only by the save of a booking with its request's seats. */
  lemma SavesTheRequest(s: Sys, l: Label)
    requires Safe(s)
    ensures var b, b' := s.w.bookings, Step(s, l).w.bookings;
            b' == b || (CommitPc(s).Recording? && b != b' && |b'| == |b| + 1 && b'[..|b|] == b
                        && b'[|b|].seatIds == CommitPc(s).request.seatIds)
  {
    hide AcquireStep, QuoteStep, AfterCheck, PayStep, SeatsClear, NoDoubleBooking, BookedWell;
    if CommitStep(s, l) {
      match PcOf(s, l.t)
      case Paying(r, p) => PayFrame(s, l.t, r, p, l.verdict);
      case _ =>
    } else {
      OtherStep(s, l);
    }
  }

  lemma {:induction false} OnceExec(s: Sys, ls: seq<Label>)
    requires Safe(s) && OnceOnly(s) && forall l :: l in ls ==> AsksOnce(l)
    ensures OnceOnly(Exec(s, ls))
    decreases |ls|
  {
    hide Safe, Step, AsksOnce, Distinct, RequestOnce;
    if ls != [] {
      SavesTheRequest(s, ls[0]);
      SafeStep(s, ls[0]);
      forall t: ThreadId ensures RequestOnce(PcOf(Step(s, ls[0]), t)) {
        RequestStays(s, ls[0], t);
      }
      var b, b' := s.w.bookings, Step(s, ls[0]).w.bookings;
      forall i | 0 <= i < |b'| ensures Distinct(b'[i].seatIds) {
        if i < |b| {
          assert b'[i] == b[i];
        } else {
          RequestedOnce(CommitPc(s));
        }
      }
      OnceExec(Step(s, ls[0]), ls[1..]);
    }
  }

  lemma RequestedOnce(pc: Pc)
    requires RequestOnce(pc) && pc.Recording?
    ensures Distinct(pc.request.seatIds)
  {
  }

  /** When no commit call of the run lists a seat twice, the occupancy numerator is the
      number of seats not available plus those the cabin marks as occupied; it is the
      former exactly when the cabin marks none. */
  lemma OccupancyOfPlainRequests(from: Sys, ls: seq<Label>, flightId: FlightId)
    requires Initial(from) && flightId in Exec(from, ls).w.flights && forall l :: l in ls ==> AsksOnce(l)
    ensures var w := Exec(from, ls).w;
            var cabin := w.flights[flightId].cabin;
            && Taken(w, flightId) == |NotAvailable(w, flightId)| + |MarkedOccupied(cabin)|
            && (Taken(w, flightId) == |NotAvailable(w, flightId)| <==> forall s :: s in cabin ==> cabin[s].status != Occupied)
  {
    InitiallySafe(from);
    OnceExec(from, ls);
    OccupancyCountsSeats(from, ls, flightId);
    NoDoubleBookingEver(from, ls);
    hide Exec, Initial, NoDoubleBooking, BookedWell, Distinct;
    CountMeasuresSet(Exec(from, ls).w.bookings, flightId);
    NoneMarked(Exec(from, ls).w.flights[flightId].cabin);
  }

  // ---- A seat counted twice

  /** A flight with one seat, which the cabin marks as occupied. */
  ghost predicate OneMarkedSeat(w: World, flightId: FlightId, seat: SeatId) {
    && flightId in w.flights && w.flights[flightId].cabin.Keys == {seat}
    && w.flights[flightId].cabin[seat].status == Occupied && w.references != []
  }

  lemma CountedAndShown(w: World, flightId: FlightId, seat: SeatId)
    requires OneMarkedSeat(w, flightId, seat) && w.bookings == []
    ensures Taken(w, flightId) == 1 && NotAvailable(w, flightId) == {} && |w.flights[flightId].cabin| == 1
  {
    assert UnavailableSeats(w.flights[flightId].cabin) == {seat};
    assert |w.flights[flightId].cabin| == |w.flights[flightId].cabin.Keys|;
  }

  lemma OneBookingCount(b: Booking, flightId: FlightId, seat: SeatId)
    requires b.flightId == flightId && b.status == Confirmed && b.seatIds == [seat]
    ensures ActiveBookedSeatCount([b], flightId) == 1
  {
    assert [b][..0] == [];
  }

  /** The seat can be booked, by anyone, without quote or lock. */
  lemma MarkedSeatIsSold(w: World, flightId: FlightId, seat: SeatId, token: string)
    requires OneMarkedSeat(w, flightId, seat) && w.bookings == []
    ensures var r := CommitRequest(flightId, [seat], [], token, None, None, None);
            var (w', result) := CommitCall(w, r, PaymentResult(true, None));
            && result.Booked? && w'.flights == w.flights && w'.bookings == [result.booking]
            && result.booking.flightId == flightId && result.booking.status == Confirmed && result.booking.seatIds == [seat]
  {
    hide SeatError, SeatsError, Release, SaveBooking;
    var r := CommitRequest(flightId, [seat], [], token, None, None, None);
    assert SeatError(w.flights[flightId].cabin, w.bookings, flightId, seat) == None by { MarkedSeatPasses(w, flightId, seat); }
    SeatsErrorNone(w.flights[flightId].cabin, w.bookings, flightId, [seat]);
    assert CheckError(w, r) == None;
    var b := CommitCall(w, r, PaymentResult(true, None)).1.booking;
    assert SaveBooking([], b) == [] + [b];
  }

  lemma MarkedSeatPasses(w: World, flightId: FlightId, seat: SeatId)
    requires OneMarkedSeat(w, flightId, seat) && w.bookings == []
    ensures SeatError(w.flights[flightId].cabin, w.bookings, flightId, seat) == None
  {
  }

  lemma MarkedSeatTaken(w: World, b: Booking, flightId: FlightId, seat: SeatId)
    requires OneMarkedSeat(w.(references := [b.reference]), flightId, seat) && w.bookings == [b]
    requires b.flightId == flightId && b.status == Confirmed && b.seatIds == [seat]
    ensures Taken(w, flightId) == 2
  {
    hide ActiveBookedSeatCount;
    OneBookingCount(b, flightId, seat);
    assert UnavailableSeats(w.flights[flightId].cabin) == {seat};
  }

  /** From every initial state with such a flight: the seat is counted as taken and yet
      shown as available; it can be booked, and then counts twice, so that the flight
      is 200 percent occupied. */
  lemma MarkedSeatsCountTwice(from: Sys, flightId: FlightId, seat: SeatId, token: string) returns (ls: seq<Label>)
    requires Initial(from) && OneMarkedSeat(from.w, flightId, seat)
    ensures Taken(from.w, flightId) == 1 && NotAvailable(from.w, flightId) == {}
    ensures var w := Exec(from, ls).w;
            && flightId in w.flights && |w.flights[flightId].cabin| == 1
            && Taken(w, flightId) == 2
  {
    hide Exec, CommitCall, SoloRuns.Alone, Step, Taken, NotAvailable;
    var r := CommitRequest(flightId, [seat], [], token, None, None, None);
    CountedAndShown(from.w, flightId, seat);
    MarkedSeatIsSold(from.w, flightId, seat, token);
    var (w', result) := CommitCall(from.w, r, Races.ACCEPTED);
    MarkedSeatTaken(w', result.booking, flightId, seat);
    var n := SoloRuns.CommitAlone(from, 1, r, Races.ACCEPTED);
    ls := [CallCommit(1, r)];
    Races.ExecOne(from, ls[0]);
    Races.ThenAlone(from, ls, 1, n);
    ls := ls + SoloRuns.Goes(1, Races.ACCEPTED, n);
  }
}
