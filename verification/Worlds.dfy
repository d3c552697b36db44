/** All shared state of the system as one value. */
module Worlds {
  import opened Entities
  import opened LockTables

  /** The catalog is fixed; bookings are the repository's values in insertion
      order; charges are the gateway's calls; the last four are id supplies. */
  datatype World = World(
    flights: map<FlightId, Flight>, now: Time, quotes: map<QuoteId, Quote>, locks: LockTable,
    bookings: seq<Booking>, emails: seq<Booking>, audit: seq<Event>, charges: seq<Charge>,
    references: seq<BookingReference>, quoteIds: seq<QuoteId>, lockIds: seq<LockId>, sessionIds: seq<SessionId>)
}
