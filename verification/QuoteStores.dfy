/** The quote store: unconditional saves, and a time-to-live enforced when reading. */
module QuoteStores {
  import opened Entities

  function GetQuote(quotes: map<QuoteId, Quote>, id: QuoteId): Option<Quote> {
    if id in quotes then Some(quotes[id]) else None
  }

  /** The window is half-open: at expiresAt the quote is gone. */
  function GetValidQuote(quotes: map<QuoteId, Quote>, id: QuoteId, now: Time): Option<Quote> {
    if id in quotes && now < quotes[id].expiresAt then Some(quotes[id]) else None
  }

  class QuoteStore {
    var quotes: map<QuoteId, Quote>

    constructor ()
      ensures quotes == map[]
    {
      quotes := map[];
    }

    /** The quote is readable under its id until it expires; other ids read as before. */
    method Save(q: Quote)
      modifies this
      ensures forall now: Time :: GetValidQuote(quotes, q.id, now) == if now < q.expiresAt then Some(q) else None
      ensures forall id :: GetQuote(quotes, id) == if id == q.id then Some(q) else GetQuote(old(quotes), id)
      ensures quotes == old(quotes)[q.id := q]
    {
      quotes := quotes[q.id := q];
    }

    method GetValid(id: QuoteId, now: Time) returns (r: Option<Quote>)
      ensures r == GetValidQuote(quotes, id, now)
    {
      if id !in quotes {
        return None;
      }
      var q := quotes[id];
      if now >= q.expiresAt {
        return None;
      }
      return Some(q);
    }

    /** What a time-aware read would answer at every instant: the same quote before
        its expiry, and nothing from then on or when there is none. */
    method Get(id: QuoteId) returns (r: Option<Quote>)
      ensures forall now: Time :: GetValidQuote(quotes, id, now) == if r.Some? && now < r.value.expiresAt then r else None
      ensures r == GetQuote(quotes, id)
    {
      r := if id in quotes then Some(quotes[id]) else None;
    }
  }
}
