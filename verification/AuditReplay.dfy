/** Reconciling an audit log: every commit against the quote it cites. */
module AuditReplay {
  import opened Entities
  import opened Pricing
  import opened Committing

  datatype Mismatch =
    | QuoteMissing(reference: BookingReference, cited: QuoteId)
    | TotalDiffers(reference: BookingReference, quoted: Cents, charged: Cents)

  /** The QuoteCreated events by id; a later one replaces an earlier one. */
  function QuotesById(events: seq<Event>): map<QuoteId, Event> {
    if events == [] then map[]
    else
      var last := events[|events| - 1];
      var before := QuotesById(events[..|events| - 1]);
      if last.QuoteCreated? then before[last.quoteId := last] else before
  }

  function MismatchOf(quotes: map<QuoteId, Event>, e: Event): seq<Mismatch> {
    if !e.BookingCommitted? || e.committedQuote == NO_QUOTE then []
    else if e.committedQuote !in quotes then [QuoteMissing(e.reference, e.committedQuote)]
    else
      var quoted := quotes[e.committedQuote];
      if quoted.QuoteCreated? && quoted.total != e.totalCharged
      then [TotalDiffers(e.reference, quoted.total, e.totalCharged)] else []
  }

  function Mismatches(quotes: map<QuoteId, Event>, events: seq<Event>): seq<Mismatch> {
    if events == [] then []
    else Mismatches(quotes, events[..|events| - 1]) + MismatchOf(quotes, events[|events| - 1])
  }

  function VerifyCommits(events: seq<Event>): seq<Mismatch> {
    Mismatches(QuotesById(events), events)
  }

  method Reconcile(events: seq<Event>) returns (mismatches: seq<Mismatch>)
    ensures mismatches == VerifyCommits(events)
  {
    var quotes: map<QuoteId, Event> := map[];
    for i := 0 to |events|
      invariant quotes == QuotesById(events[..i])
    {
      assert events[..i + 1][..i] == events[..i];
      if events[i].QuoteCreated? {
        quotes := quotes[events[i].quoteId := events[i]];
      }
    }
    assert events[..|events|] == events;
    mismatches := [];
    for i := 0 to |events|
      invariant mismatches == Mismatches(quotes, events[..i])
    {
      assert events[..i + 1][..i] == events[..i];
      var e := events[i];
      if !e.BookingCommitted? { continue; }
      if e.committedQuote == NO_QUOTE { continue; }
      if e.committedQuote !in quotes {
        mismatches := mismatches + [QuoteMissing(e.reference, e.committedQuote)];
        continue;
      }
      var quoted := quotes[e.committedQuote];
      if quoted.QuoteCreated? && quoted.total != e.totalCharged {
        mismatches := mismatches + [TotalDiffers(e.reference, quoted.total, e.totalCharged)];
      }
    }
  }

  /** The event's inputs priced again; the event carries no surcharges, taxes or fees. */
  function ReplayQuote(e: Event): PriceBreakdown
    requires e.QuoteCreated? && e.daysBefore >= 0
  {
    Price(e.baseFare, e.occupancy, e.daysBefore, e.departureDay, [], 0, 0)
  }

  lemma {:induction false} QuotesByIdFinds(events: seq<Event>, id: QuoteId)
    ensures id in QuotesById(events) <==> exists e :: e in events && e.QuoteCreated? && e.quoteId == id
    ensures id in QuotesById(events) ==>
              QuotesById(events)[id] in events && QuotesById(events)[id].QuoteCreated? && QuotesById(events)[id].quoteId == id
  {
    if events != [] {
      var n := |events| - 1;
      QuotesByIdFinds(events[..n], id);
      assert events == events[..n] + [events[n]];
    }
  }

  /** The reconciliation is clean exactly when no single event is a mismatch. */
  lemma {:induction false} CleanWhenEachMatches(quotes: map<QuoteId, Event>, events: seq<Event>)
    ensures Mismatches(quotes, events) == [] <==> forall e :: e in events ==> MismatchOf(quotes, e) == []
  {
    if events != [] {
      var n := |events| - 1;
      CleanWhenEachMatches(quotes, events[..n]);
      assert events == events[..n] + [events[n]];
    }
  }

  // ---- What a mismatch tells

  /** The last QuoteCreated event of the id in the log. */
  ghost predicate LastQuote(events: seq<Event>, id: QuoteId, j: nat) {
    && j < |events| && events[j].QuoteCreated? && events[j].quoteId == id
    && forall k :: j < k < |events| ==> !(events[k].QuoteCreated? && events[k].quoteId == id)
  }

  lemma {:induction false} IndexedIsLast(events: seq<Event>, id: QuoteId)
    ensures id in QuotesById(events) ==> exists j: nat :: LastQuote(events, id, j) && QuotesById(events)[id] == events[j]
  {
    if events != [] {
      var n := |events| - 1;
      IndexedIsLast(events[..n], id);
      if events[n].QuoteCreated? && events[n].quoteId == id {
        assert LastQuote(events, id, n);
      } else if id in QuotesById(events) {
        var j: nat :| LastQuote(events[..n], id, j) && QuotesById(events[..n])[id] == events[..n][j];
        assert LastQuote(events, id, j) by {
          assert forall k :: 0 <= k < n ==> events[..n][k] == events[k];
        }
      }
    }
  }

  /** What one event of the log yields: nothing unless it is a commit citing a quote;
      the reference and the cited id when the log has no such quote; and the reference
      with the amount the last such quote recorded and the amount charged, in that
      order, exactly when these differ. */
  lemma MismatchMeans(events: seq<Event>, e: Event)
    ensures var found := MismatchOf(QuotesById(events), e);
            && (!e.BookingCommitted? || e.committedQuote == QuoteId("Q000-WS") ==> found == [])
            && (e.BookingCommitted? && e.committedQuote != QuoteId("Q000-WS") ==>
                  && ((forall q :: q in events ==> !(q.QuoteCreated? && q.quoteId == e.committedQuote)) ==>
                        found == [QuoteMissing(e.reference, e.committedQuote)])
                  && forall j: nat :: LastQuote(events, e.committedQuote, j) ==>
                       found == if events[j].total == e.totalCharged then []
                                else [TotalDiffers(e.reference, events[j].total, e.totalCharged)])
  {
    if e.BookingCommitted? {
      QuotesByIdFinds(events, e.committedQuote);
      IndexedIsLast(events, e.committedQuote);
      forall j: nat | LastQuote(events, e.committedQuote, j)
        ensures e.committedQuote in QuotesById(events) && QuotesById(events)[e.committedQuote] == events[j]
      {
        assert events[j] in events;
      }
    }
  }

  /** The reconciliation lists the mismatches of the events in the order of the log. */
  lemma {:induction false} MismatchesInOrder(quotes: map<QuoteId, Event>, a: seq<Event>, b: seq<Event>)
    ensures Mismatches(quotes, a + b) == Mismatches(quotes, a) + Mismatches(quotes, b)
  {
    hide MismatchOf;
    if b == [] {
      assert a + b == a;
    } else {
      var n := |b| - 1;
      MismatchesInOrder(quotes, a, b[..n]);
      assert (a + b)[..|a| + n] == a + b[..n];
    }
  }
}
