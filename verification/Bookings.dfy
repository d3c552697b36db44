/** The booking repository, and what other services read from it. */
module Bookings {
  import opened Entities

  /** A dictionary keyed by reference, as the sequence of its values in insertion order. */
  ghost predicate Keyed(bookings: seq<Booking>) {
    forall i, j :: 0 <= i < j < |bookings| ==> bookings[i].reference != bookings[j].reference
  }

  /** Storing under a known reference replaces in place; a new reference goes last. */
  function SaveBooking(bookings: seq<Booking>, b: Booking): (r: seq<Booking>)
    ensures b in r
    ensures (forall x :: x in bookings ==> x.reference != b.reference) ==> r == bookings + [b]
  {
    if bookings == [] then [b]
    else if bookings[0].reference == b.reference then [b] + bookings[1..]
    else
      var r := [bookings[0]] + SaveBooking(bookings[1..], b);
      assert bookings == [bookings[0]] + bookings[1..];
      r
  }

  function Lookup(bookings: seq<Booking>, reference: BookingReference): Option<Booking> {
    if bookings == [] then None
    else if bookings[0].reference == reference then Some(bookings[0])
    else Lookup(bookings[1..], reference)
  }

  /** Saving is a dictionary write: the reference now finds the booking, and every
      other reference finds what it found. */
  lemma {:induction false} SaveIsADictionaryWrite(bookings: seq<Booking>, b: Booking, reference: BookingReference)
    ensures Lookup(SaveBooking(bookings, b), reference) == if reference == b.reference then Some(b) else Lookup(bookings, reference)
  {
    if bookings != [] {
      SaveIsADictionaryWrite(bookings[1..], b, reference);
    }
  }

  lemma {:induction false} SavedFrom(bookings: seq<Booking>, b: Booking)
    ensures forall x :: x in SaveBooking(bookings, b) ==> x == b || x in bookings
  {
    if bookings != [] {
      SavedFrom(bookings[1..], b);
    }
  }

  lemma KeyedNext(first: Booking, rest: seq<Booking>)
    ensures Keyed([first] + rest) <==> Keyed(rest) && forall x :: x in rest ==> x.reference != first.reference
  {
    var all := [first] + rest;
    assert all[0] == first && forall i :: 0 <= i < |rest| ==> all[i + 1] == rest[i];
    if Keyed(all) {
      forall i | 0 <= i < |rest| ensures rest[i].reference != first.reference {
        assert all[0].reference != all[i + 1].reference;
      }
    }
  }

  /** References stay keys. */
  lemma {:induction false} SaveKeepsKeys(bookings: seq<Booking>, b: Booking)
    requires Keyed(bookings)
    ensures Keyed(SaveBooking(bookings, b))
  {
    hide Keyed;
    KeyedNext(b, []);
    if bookings != [] {
      assert bookings == [bookings[0]] + bookings[1..];
      KeyedNext(bookings[0], bookings[1..]);
      if bookings[0].reference == b.reference {
        KeyedNext(b, bookings[1..]);
      } else {
        SaveKeepsKeys(bookings[1..], b);
        SavedFrom(bookings[1..], b);
        KeyedNext(bookings[0], SaveBooking(bookings[1..], b));
      }
    } else {
      assert [b] + [] == [b];
      EmptyKeyed();
    }
  }

  lemma EmptyKeyed()
    ensures Keyed([])
  {
  }

  /** Under unique references, looking up finds the one booking of the reference. */
  lemma {:induction false} LookupFinds(bookings: seq<Booking>, reference: BookingReference)
    requires Keyed(bookings)
    ensures forall b :: Lookup(bookings, reference) == Some(b) <==> b in bookings && b.reference == reference
  {
    if bookings != [] {
      hide Keyed;
      assert bookings == [bookings[0]] + bookings[1..];
      KeyedNext(bookings[0], bookings[1..]);
      LookupFinds(bookings[1..], reference);
    }
  }

  predicate Holds(b: Booking, flightId: FlightId, seat: SeatId) {
    b.flightId == flightId && b.status == Confirmed && seat in b.seatIds
  }

  predicate SeatAlreadyBooked(bookings: seq<Booking>, flightId: FlightId, seat: SeatId) {
    exists i :: 0 <= i < |bookings| && Holds(bookings[i], flightId, seat)
  }

  /** The number of seats the confirmed bookings of a flight list, repetitions included. */
  function ActiveBookedSeatCount(bookings: seq<Booking>, flightId: FlightId): nat {
    if bookings == [] then 0
    else
      var last := bookings[|bookings| - 1];
      ActiveBookedSeatCount(bookings[..|bookings| - 1], flightId)
      + if last.flightId == flightId && last.status == Confirmed then |last.seatIds| else 0
  }

  function SeatsOf(seats: seq<SeatId>): set<SeatId> {
    set s | s in seats
  }

  function OccupiedSeatIds(bookings: seq<Booking>, flightId: FlightId): set<SeatId> {
    if bookings == [] then {}
    else
      var last := bookings[|bookings| - 1];
      OccupiedSeatIds(bookings[..|bookings| - 1], flightId)
      + if last.flightId == flightId && last.status == Confirmed then SeatsOf(last.seatIds) else {}
  }

  lemma {:induction false} OccupiedMeansBooked(bookings: seq<Booking>, flightId: FlightId, seat: SeatId)
    ensures seat in OccupiedSeatIds(bookings, flightId) <==> SeatAlreadyBooked(bookings, flightId, seat)
  {
    if bookings != [] {
      var n := |bookings| - 1;
      OccupiedMeansBooked(bookings[..n], flightId, seat);
      assert forall i :: 0 <= i < n ==> bookings[..n][i] == bookings[i];
      if Holds(bookings[n], flightId, seat) {
        assert SeatAlreadyBooked(bookings, flightId, seat);
      }
    }
  }

  /** No seat of a flight is held by two different bookings. */
  ghost predicate NoDoubleBooking(bookings: seq<Booking>) {
    forall i, j, f, s :: 0 <= i < j < |bookings| && Holds(bookings[i], f, s) ==> !Holds(bookings[j], f, s)
  }

  class BookingRepository {
    var bookings: seq<Booking>

    constructor ()
      ensures bookings == []
    {
      bookings := [];
    }

    /** A booking is answered exactly when it is the stored one of the reference. */
    method Get(reference: BookingReference) returns (r: Option<Booking>)
      ensures r == Lookup(bookings, reference)
      ensures Keyed(bookings) ==> forall b :: r == Some(b) <==> b in bookings && b.reference == reference
    {
      if Keyed(bookings) {
        LookupFinds(bookings, reference);
      }
      r := Lookup(bookings, reference);
    }

    /** Exactly the saved booking is found under its reference, and every other
        reference finds what it found; order is that of first insertion. */
    method Save(b: Booking)
      modifies this
      ensures forall reference ::
                Lookup(bookings, reference) == if reference == b.reference then Some(b) else Lookup(old(bookings), reference)
      ensures old(Keyed(bookings)) ==> Keyed(bookings)
      ensures bookings == SaveBooking(old(bookings), b)
    {
      forall reference
        ensures Lookup(SaveBooking(bookings, b), reference) == if reference == b.reference then Some(b) else Lookup(bookings, reference)
      {
        SaveIsADictionaryWrite(bookings, b, reference);
      }
      if Keyed(bookings) {
        SaveKeepsKeys(bookings, b);
      }
      bookings := SaveBooking(bookings, b);
    }

    /** The snapshot holds exactly what the references find. */
    method IterAll() returns (snapshot: seq<Booking>)
      ensures snapshot == bookings
      ensures Keyed(bookings) ==> forall b :: b in snapshot <==> Lookup(bookings, b.reference) == Some(b)
    {
      if Keyed(bookings) {
        forall b ensures b in bookings <==> Lookup(bookings, b.reference) == Some(b) {
          LookupFinds(bookings, b.reference);
        }
      }
      snapshot := bookings;
    }
  }

  method FindBooked(bookings: seq<Booking>, flightId: FlightId, seat: SeatId) returns (booked: bool)
    ensures booked == SeatAlreadyBooked(bookings, flightId, seat)
  {
    for i := 0 to |bookings|
      invariant forall k :: 0 <= k < i ==> !Holds(bookings[k], flightId, seat)
    {
      if bookings[i].flightId == flightId && bookings[i].status == Confirmed && seat in bookings[i].seatIds {
        assert Holds(bookings[i], flightId, seat);
        return true;
      }
    }
    return false;
  }

  method CountBookedSeats(bookings: seq<Booking>, flightId: FlightId) returns (count: nat)
    ensures count == ActiveBookedSeatCount(bookings, flightId)
  {
    count := 0;
    for i := 0 to |bookings|
      invariant count == ActiveBookedSeatCount(bookings[..i], flightId)
    {
      assert bookings[..i + 1][..i] == bookings[..i];
      if bookings[i].flightId == flightId && bookings[i].status == Confirmed {
        count := count + |bookings[i].seatIds|;
      }
    }
    assert bookings[..|bookings|] == bookings;
  }

  method CollectOccupied(bookings: seq<Booking>, flightId: FlightId) returns (occupied: set<SeatId>)
    ensures occupied == OccupiedSeatIds(bookings, flightId)
  {
    occupied := {};
    for i := 0 to |bookings|
      invariant occupied == OccupiedSeatIds(bookings[..i], flightId)
    {
      assert bookings[..i + 1][..i] == bookings[..i];
      if bookings[i].flightId == flightId && bookings[i].status == Confirmed {
        occupied := occupied + SeatsOf(bookings[i].seatIds);
      }
    }
    assert bookings[..|bookings|] == bookings;
  }
}
