/** The mutable collaborators of the services: clock, id supplies, payment
    gateway, outgoing mail and audit log. */
module Adapters {
  import opened Entities

  class Clock {
    var instant: Time

    constructor (instant: Time)
      ensures this.instant == instant
    {
      this.instant := instant;
    }

    method Now() returns (now: Time)
      ensures now == instant
    {
      now := instant;
    }
  }

  /** Four independent queues; an exhausted queue answers None. */
  class IdGenerator {
    var references: seq<BookingReference>
    var quoteIds: seq<QuoteId>
    var lockIds: seq<LockId>
    var sessionIds: seq<SessionId>

    constructor (references: seq<BookingReference>, quoteIds: seq<QuoteId>, lockIds: seq<LockId>, sessionIds: seq<SessionId>)
      ensures this.references == references && this.quoteIds == quoteIds
      ensures this.lockIds == lockIds && this.sessionIds == sessionIds
    {
      this.references, this.quoteIds := references, quoteIds;
      this.lockIds, this.sessionIds := lockIds, sessionIds;
    }

    method NewBookingReference() returns (id: Option<BookingReference>)
      modifies this`references
      ensures old(references) == [] ==> id == None && references == []
      ensures old(references) != [] ==> id == Some(old(references)[0]) && references == old(references)[1..]
    {
      if references == [] { return None; }
      id, references := Some(references[0]), references[1..];
    }

    method NewQuoteId() returns (id: Option<QuoteId>)
      modifies this`quoteIds
      ensures old(quoteIds) == [] ==> id == None && quoteIds == []
      ensures old(quoteIds) != [] ==> id == Some(old(quoteIds)[0]) && quoteIds == old(quoteIds)[1..]
    {
      if quoteIds == [] { return None; }
      id, quoteIds := Some(quoteIds[0]), quoteIds[1..];
    }

    method NewSessionId() returns (id: Option<SessionId>)
      modifies this`sessionIds
      ensures old(sessionIds) == [] ==> id == None && sessionIds == []
      ensures old(sessionIds) != [] ==> id == Some(old(sessionIds)[0]) && sessionIds == old(sessionIds)[1..]
    {
      if sessionIds == [] { return None; }
      id, sessionIds := Some(sessionIds[0]), sessionIds[1..];
    }
  }

  /** The gateway's decision on a token. */
  function Verdict(failOnTokens: set<string>, token: string): PaymentResult {
    if token in failOnTokens then PaymentResult(false, Some("declined")) else PaymentResult(true, None)
  }

  class PaymentGateway {
    const failOnTokens: set<string>
    ghost var charges: seq<Charge>

    constructor (failOnTokens: set<string>)
      ensures this.failOnTokens == failOnTokens && charges == []
    {
      this.failOnTokens := failOnTokens;
      charges := [];
    }

    method Charge(token: string, amount: Cents) returns (result: PaymentResult)
      modifies this
      ensures result.succeeded <==> token !in failOnTokens
      ensures result == Verdict(failOnTokens, token)
      ensures charges == old(charges) + [Entities.Charge(token, amount, result.succeeded)]
    {
      if token in failOnTokens {
        result := PaymentResult(false, Some("declined"));
      } else {
        result := PaymentResult(true, None);
      }
      charges := charges + [Entities.Charge(token, amount, result.succeeded)];
    }
  }

  class EmailSender {
    var queued: seq<Booking>

    constructor ()
      ensures queued == []
    {
      queued := [];
    }

    method QueueConfirmation(b: Booking)
      modifies this
      ensures queued == old(queued) + [b]
    {
      queued := queued + [b];
    }
  }

  class AuditLog {
    var events: seq<Event>

    constructor ()
      ensures events == []
    {
      events := [];
    }

    method Write(e: Event)
      modifies this
      ensures events == old(events) + [e]
    {
      events := events + [e];
    }
  }
}
