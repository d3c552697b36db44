/** Conservation: charges, bookings, mail and the audit log agree on every run. */
module Ledger {
  import opened Entities
  import LockTables
  import opened Bookings
  import opened Worlds
  import opened Quoting
  import opened Committing
  import opened Steps
  import opened BookingSafety

  function Totals(bookings: seq<Booking>): seq<Cents> {
    seq(|bookings|, i requires 0 <= i < |bookings| => bookings[i].totalCharged)
  }

  function EventsOf(bookings: seq<Booking>): seq<Event> {
    seq(|bookings|, i requires 0 <= i < |bookings| => CommittedEvent(bookings[i]))
  }

  /** The amounts of the successful charges, in order. */
  function Succeeded(charges: seq<Charge>): seq<Cents> {
    if charges == [] then []
    else
      var last := charges[|charges| - 1];
      Succeeded(charges[..|charges| - 1]) + if last.succeeded then [last.amount] else []
  }

  /** The tokens of the declined charges, in order. */
  function Declined(charges: seq<Charge>): seq<string> {
    if charges == [] then []
    else
      var last := charges[|charges| - 1];
      Declined(charges[..|charges| - 1]) + if last.succeeded then [] else [last.paymentToken]
  }

  function CommittedEvents(audit: seq<Event>): seq<Event> {
    if audit == [] then []
    else
      var last := audit[|audit| - 1];
      CommittedEvents(audit[..|audit| - 1]) + if last.BookingCommitted? then [last] else []
  }

  /** The tokens of the PaymentFailed events, in order. */
  function FailedTokens(audit: seq<Event>): seq<string> {
    if audit == [] then []
    else
      var last := audit[|audit| - 1];
      FailedTokens(audit[..|audit| - 1]) + if last.PaymentFailed? then [last.paymentToken] else []
  }

  /** What a PaymentFailed event tells of the request. */
  datatype Failure = Failure(quoteId: Option<QuoteId>, flightId: FlightId, seatIds: seq<SeatId>, paymentToken: string)

  function FailureOf(r: CommitRequest): Failure {
    Failure(r.quoteId, r.flightId, r.seatIds, r.paymentToken)
  }

  /** The failures in the audit log, in order. */
  function FailuresIn(audit: seq<Event>): seq<Failure> {
    if audit == [] then []
    else
      var last := audit[|audit| - 1];
      FailuresIn(audit[..|audit| - 1])
      + if last.PaymentFailed? then [Failure(last.failedQuote, last.flightId, last.seatIds, last.paymentToken)] else []
  }

  /** The failures of the commits answered with a declined payment, in order. */
  function DeclinesOf(commits: seq<CommitRecord>): seq<Failure> {
    if commits == [] then []
    else
      var last := commits[|commits| - 1];
      DeclinesOf(commits[..|commits| - 1]) + if last.result == Refused(PaymentDeclined) then [FailureOf(last.request)] else []
  }

  /** The bookings answered to callers, in order. */
  function BookedOf(commits: seq<CommitRecord>): seq<Booking> {
    if commits == [] then []
    else
      var last := commits[|commits| - 1].result;
      BookedOf(commits[..|commits| - 1]) + if last.Booked? then [last.booking] else []
  }

  /** How many commits died for want of a booking reference. */
  function Exhausted(commits: seq<CommitRecord>): nat {
    if commits == [] then 0
    else Exhausted(commits[..|commits| - 1]) + if commits[|commits| - 1].result.ReferencesExhausted? then 1 else 0
  }

  // ---- The work in flight inside the commit lock

  /** Saved but not yet answered. */
  function Unanswered(pc: Pc): seq<Booking> {
    if pc.Recording? then
      match pc.r
      case ToMail(b) => [b]
      case ToRelease(b) => [b]
      case ToAudit(b) => [b]
      case ToLeave(result) => if result.Booked? then [result.booking] else []
      case _ => []
    else []
  }

  function Unmailed(pc: Pc): seq<Booking> {
    if pc.Recording? && pc.r.ToMail? then [pc.r.booking] else []
  }

  function Unaudited(pc: Pc): seq<Booking> {
    if pc.Recording? && pc.r.ToLeave? then [] else Unanswered(pc)
  }

  function Unreported(pc: Pc): seq<string> {
    if pc.Paying? && pc.p.ToRecordDecline? then [pc.request.paymentToken] else []
  }

  /** Charged, with neither a saved booking nor an answer yet. */
  function Unsettled(pc: Pc): nat {
    if pc.Paying? && pc.p.ToName? then 1
    else if pc.Recording? && pc.r.ToSave? then 1
    else if pc.Recording? && pc.r.ToLeave? && pc.r.result.ReferencesExhausted? then 1
    else 0
  }

  ghost predicate Recorded(w: World, commits: seq<CommitRecord>, pc: Pc) {
    && w.bookings == BookedOf(commits) + Unanswered(pc)
    && w.bookings == w.emails + Unmailed(pc)
    && EventsOf(w.bookings) == CommittedEvents(w.audit) + EventsOf(Unaudited(pc))
    && Declined(w.charges) == FailedTokens(w.audit) + Unreported(pc)
  }

  /** The successful charges are the totals of the bookings, then those not settled. */
  ghost predicate Paid(w: World, commits: seq<CommitRecord>, pc: Pc) {
    var paid := Succeeded(w.charges);
    && |paid| == |w.bookings| + Exhausted(commits) + Unsettled(pc)
    && paid[..|w.bookings|] == Totals(w.bookings)
    && (Exhausted(commits) > 0 ==> w.references == [])
    && (pc.Paying? && pc.p.ToName? ==> paid[|paid| - 1] == DueFor(w, pc.request, pc.p.quote))
    && (pc.Recording? && pc.r.ToSave? ==> Exhausted(commits) == 0 && paid[|paid| - 1] == pc.r.booking.totalCharged)
    && (pc.Recording? && pc.r.ToLeave? && pc.r.result.ReferencesExhausted? ==> w.references == [])
  }

  /** Every reference is still to be issued, about to be used, or used. */
  ghost predicate Counted(w: World, pc: Pc, supply: nat) {
    |w.references| + |w.bookings| + (if pc.Recording? && pc.r.ToSave? then 1 else 0) == supply
  }

  ghost predicate Books(s: Sys, supply: nat) {
    && Safe(s)
    && Recorded(s.w, s.commits, CommitPc(s)) && Paid(s.w, s.commits, CommitPc(s)) && Counted(s.w, CommitPc(s), supply)
  }

  lemma Appended<T>(s: seq<T>, x: T)
    ensures (s + [x])[..|s|] == s && (s + [x])[|s|] == x
  {
  }

  lemma QuoteEvent(audit: seq<Event>, e: Event)
    requires e.QuoteCreated?
    ensures CommittedEvents(audit + [e]) == CommittedEvents(audit) && FailedTokens(audit + [e]) == FailedTokens(audit)
  {
    Appended(audit, e);
  }

  /** Outside commit the audit log gains at most a QuoteCreated event. */
  lemma OtherAudit(s: Sys, l: Label)
    requires Mutex(s) && !CommitStep(s, l)
    ensures var a, a' := s.w.audit, Step(s, l).w.audit;
            CommittedEvents(a') == CommittedEvents(a) && FailedTokens(a') == FailedTokens(a)
  {
    hide AcquireStep, AfterCheck, PayStep, RecordStep, PriceSeats, DrawIds, CommittedEvents, FailedTokens, Mutex;
    if l.Go? {
      match PcOf(s, l.t)
      case Acquiring(want, a) => if want.AcquireOp? { AcquireFrame(s, l.t, want, a); }
      case Pricing(q) =>
        if q.ToDraw? { DrawsOnlyIds(s.w, q.request.sessionId); }
        if q.ToReport? { QuoteEvent(s.w.audit, BuildAuditEvent(q.made, q.priced)); }
      case _ =>
    }
  }

  lemma BooksElsewhere(s: Sys, l: Label, supply: nat)
    requires Mutex(s) && Books(s, supply) && !CommitStep(s, l)
    ensures Books(Step(s, l), supply)
  {
    hide Step, CommitPc, CommitStep, Mutex, CommittedEvents, FailedTokens, Declined, Succeeded, Safe;
    SafeStep(s, l);
    OtherStep(s, l);
    OtherAudit(s, l);
    CatalogAndClock(s, l);
  }

  ghost predicate Entries(w: World, commits: seq<CommitRecord>, pc: Pc, supply: nat) {
    Recorded(w, commits, pc) && Paid(w, commits, pc) && Counted(w, pc, supply)
  }

  lemma ChargeEntries(w: World, commits: seq<CommitRecord>, r: CommitRequest, now: Time, quote: Option<Quote>, verdict: PaymentResult, supply: nat)
    requires Entries(w, commits, Paying(r, ToCharge(now, quote)), supply)
    ensures var charge := Charge(r.paymentToken, DueFor(w, r, quote), verdict.succeeded);
            Entries(w.(charges := w.charges + [charge]), commits,
                    Paying(r, if verdict.succeeded then ToName(now, quote) else ToRecordDecline(now, verdict)), supply)
  {
    hide CommittedEvents, FailedTokens, EventsOf, BookedOf;
    var charge := Charge(r.paymentToken, DueFor(w, r, quote), verdict.succeeded);
    Appended(w.charges, charge);
    var paid, n := Succeeded(w.charges), |w.bookings|;
    assert (paid + [charge.amount])[..n] == paid[..n];
    assert paid + [] == paid;
    assert Declined(w.charges) + [] == Declined(w.charges);
  }

  lemma DeclineEntries(w: World, commits: seq<CommitRecord>, r: CommitRequest, now: Time, verdict: PaymentResult, supply: nat)
    requires Entries(w, commits, Paying(r, ToRecordDecline(now, verdict)), supply)
    ensures Entries(w.(audit := w.audit + [FailedEvent(r, verdict, now)]), commits, Recording(r, ToLeave(Refused(PaymentDeclined))), supply)
  {
    hide Reason, EventsOf, BookedOf, Declined, Succeeded;
    Appended(w.audit, FailedEvent(r, verdict, now));
  }

  lemma NameEntries(w: World, commits: seq<CommitRecord>, r: CommitRequest, now: Time, quote: Option<Quote>, supply: nat)
    requires Entries(w, commits, Paying(r, ToName(now, quote)), supply)
    ensures w.references == [] ==> Entries(w, commits, Recording(r, ToLeave(ReferencesExhausted)), supply)
    ensures w.references != [] ==>
              Entries(w.(references := w.references[1..]), commits,
                      Recording(r, ToSave(MakeBooking(w.references[0], r, DueFor(w, r, quote), quote, now))), supply)
  {
    hide DueFor, CommittedEvents, FailedTokens, EventsOf, BookedOf, Declined, Succeeded, Totals, Exhausted;
  }

  lemma SaveEntries(w: World, commits: seq<CommitRecord>, r: CommitRequest, b: Booking, supply: nat)
    requires Entries(w, commits, Recording(r, ToSave(b)), supply) && SaveBooking(w.bookings, b) == w.bookings + [b]
    ensures Entries(w.(bookings := SaveBooking(w.bookings, b)), commits, Recording(r, ToMail(b)), supply)
  {
    hide CommittedEvents, FailedTokens, BookedOf, Declined, Succeeded, SaveBooking, Exhausted;
    var paid := Succeeded(w.charges);
    assert Totals(w.bookings + [b]) == Totals(w.bookings) + [b.totalCharged];
    assert EventsOf(w.bookings + [b]) == EventsOf(w.bookings) + EventsOf([b]);
    assert paid == paid[..|w.bookings|] + [b.totalCharged];
  }

  lemma MailEntries(w: World, commits: seq<CommitRecord>, r: CommitRequest, b: Booking, supply: nat)
    requires Entries(w, commits, Recording(r, ToMail(b)), supply)
    ensures Entries(w.(emails := w.emails + [b]), commits, Recording(r, ToRelease(b)), supply)
  {
    hide CommittedEvents, FailedTokens, BookedOf, Declined, Succeeded, Exhausted, EventsOf;
  }

  lemma AuditEntries(w: World, commits: seq<CommitRecord>, r: CommitRequest, b: Booking, supply: nat)
    requires Entries(w, commits, Recording(r, ToAudit(b)), supply)
    ensures Entries(w.(audit := w.audit + [CommittedEvent(b)]), commits, Recording(r, ToLeave(Booked(b))), supply)
  {
    hide BookedOf, Declined, Succeeded, Exhausted;
    Appended(w.audit, CommittedEvent(b));
    assert EventsOf([b]) == [CommittedEvent(b)];
  }

  lemma LeaveEntries(w: World, commits: seq<CommitRecord>, r: CommitRequest, result: CommitResult, supply: nat)
    requires Entries(w, commits, Recording(r, ToLeave(result)), supply)
    ensures Entries(w, commits + [CommitRecord(r, result)], Idle, supply)
  {
    hide CommittedEvents, FailedTokens, Declined, Succeeded, EventsOf;
    Appended(commits, CommitRecord(r, result));
  }

  lemma PayEntries(s: Sys, t: ThreadId, r: CommitRequest, p: PayPc, verdict: PaymentResult, supply: nat)
    requires Entries(s.w, s.commits, Paying(r, p), supply)
    ensures var s' := PayStep(s, t, r, p, verdict); Entries(s'.w, s'.commits, PcOf(s', t), supply)
  {
    hide Entries;
    match p
    case ToCharge(now, quote) => ChargeEntries(s.w, s.commits, r, now, quote, verdict, supply);
    case ToRecordDecline(now, refusal) => DeclineEntries(s.w, s.commits, r, now, refusal, supply);
    case ToName(now, quote) => NameEntries(s.w, s.commits, r, now, quote, supply);
  }

  lemma RecordEntries(s: Sys, t: ThreadId, r: CommitRequest, step: RecordPc, supply: nat)
    requires PcOf(s, t) == Recording(r, step) && Entries(s.w, s.commits, Recording(r, step), supply)
    requires ReferencesFresh(s.w, Recording(r, step))
    ensures var s' := RecordStep(s, t, r, step); Entries(s'.w, s'.commits, PcOf(s', t), supply)
  {
    hide Entries, CommittedEvent;
    match step
    case ToSave(b) => SaveEntries(s.w, s.commits, r, b, supply);
    case ToMail(b) => MailEntries(s.w, s.commits, r, b, supply);
    case ToRelease(b) => ReleaseEntries(s.w, RecordStep(s, t, r, step).w, s.commits, r, b, supply);
    case ToAudit(b) => AuditEntries(s.w, s.commits, r, b, supply);
    case ToLeave(result) => LeaveEntries(s.w, s.commits, r, result, supply);
  }

  lemma ReleaseEntries(w: World, w': World, commits: seq<CommitRecord>, r: CommitRequest, b: Booking, supply: nat)
    requires Entries(w, commits, Recording(r, ToRelease(b)), supply) && w' == w.(locks := w'.locks)
    ensures Entries(w', commits, Recording(r, ToAudit(b)), supply)
  {
    hide CommittedEvents, FailedTokens, BookedOf, Declined, Succeeded, Exhausted, EventsOf;
  }

  lemma CheckEntries(w: World, commits: seq<CommitRecord>, pc: Pc, pc': Pc, supply: nat)
    requires Entries(w, commits, pc, supply)
    requires !pc.Paying? && !pc.Recording?
    requires pc'.Paying? ==> pc'.p.ToCharge?
    requires pc'.Recording? ==> pc'.r.ToLeave? && pc'.r.result.Refused?
    ensures Entries(w, commits, pc', supply)
  {
    hide CommittedEvents, FailedTokens, BookedOf, Declined, Succeeded, Exhausted, EventsOf;
  }

  lemma BooksStep(s: Sys, l: Label, supply: nat)
    requires Books(s, supply)
    ensures Books(Step(s, l), supply)
  {
    hide AfterCheck, PayStep, RecordStep, Recorded, Paid, Counted;
    if CommitStep(s, l) {
      SafeStep(s, l);
      match PcOf(s, l.t)
      case CommitWaiting(r) =>
        if s.committer.None? { CheckEntries(s.w, s.commits, Idle, Checking(r, AtFlight), supply); }
      case Checking(r, c) =>
        CheckFrame(s, r, c);
        CheckEntries(s.w, s.commits, Checking(r, c), AfterCheck(s, r, c), supply);
      case Paying(r, p) => PayFrame(s, l.t, r, p, l.verdict); PayEntries(s, l.t, r, p, l.verdict, supply);
      case Recording(r, step) => RecordFrame(s, l.t, r, step); RecordEntries(s, l.t, r, step, supply);
    } else {
      BooksElsewhere(s, l, supply);
    }
  }

  lemma {:induction false} BooksExec(s: Sys, ls: seq<Label>, supply: nat)
    requires Books(s, supply)
    ensures Books(Exec(s, ls), supply)
    decreases |ls|
  {
    hide Books, Step;
    if ls != [] {
      BooksStep(s, ls[0], supply);
      BooksExec(Step(s, ls[0]), ls[1..], supply);
    }
  }

  // ---- Failed payments

  /** Reported as declined, and about to be answered. */
  function Unreturned(pc: Pc): seq<Failure> {
    if pc.Recording? && pc.r == ToLeave(Refused(PaymentDeclined)) then [FailureOf(pc.request)] else []
  }

  ghost predicate FailuresKept(audit: seq<Event>, commits: seq<CommitRecord>, pc: Pc) {
    FailuresIn(audit) == DeclinesOf(commits) + Unreturned(pc)
  }

  lemma NextFailure(audit: seq<Event>, e: Event)
    ensures FailuresIn(audit + [e]) ==
            FailuresIn(audit) + if e.PaymentFailed? then [Failure(e.failedQuote, e.flightId, e.seatIds, e.paymentToken)] else []
  {
    assert (audit + [e])[..|audit|] == audit;
  }

  lemma ChecksNeverDecline(s: Sys, r: CommitRequest, c: CheckPc)
    ensures Unreturned(AfterCheck(s, r, c)) == []
  {
  }

  lemma FailuresOther(s: Sys, l: Label)
    requires Mutex(s) && !CommitStep(s, l) && FailuresKept(s.w.audit, s.commits, CommitPc(s))
    ensures FailuresKept(Step(s, l).w.audit, Step(s, l).commits, CommitPc(Step(s, l)))
  {
    OtherStep(s, l);
    hide AcquireStep, AfterCheck, PayStep, RecordStep, PriceSeats, DrawIds, CommitPc, Mutex, FailuresIn, DeclinesOf, Unreturned;
    if l.Go? {
      match PcOf(s, l.t)
      case Acquiring(want, a) => if want.AcquireOp? { AcquireFrame(s, l.t, want, a); }
      case Pricing(q) =>
        if q.ToDraw? { DrawsOnlyIds(s.w, q.request.sessionId); }
        if q.ToReport? { NextFailure(s.w.audit, BuildAuditEvent(q.made, q.priced)); }
      case _ =>
    }
  }

  lemma FailuresPay(s: Sys, t: ThreadId, r: CommitRequest, p: PayPc, v: PaymentResult)
    requires FailuresKept(s.w.audit, s.commits, Paying(r, p))
    ensures var s' := PayStep(s, t, r, p, v); FailuresKept(s'.w.audit, s'.commits, PcOf(s', t))
  {
    hide Reason, DueFor, MakeBooking, FailuresIn, DeclinesOf;
    if p.ToRecordDecline? {
      NextFailure(s.w.audit, FailedEvent(r, p.verdict, p.now));
    }
  }

  lemma FailuresRecord(s: Sys, t: ThreadId, r: CommitRequest, step: RecordPc)
    requires PcOf(s, t) == Recording(r, step) && FailuresKept(s.w.audit, s.commits, Recording(r, step))
    ensures var s' := RecordStep(s, t, r, step); FailuresKept(s'.w.audit, s'.commits, PcOf(s', t))
  {
    hide SaveBooking, LockTables.Release, FailuresIn;
    if step.ToAudit? {
      NextFailure(s.w.audit, CommittedEvent(step.booking));
    }
    if step.ToLeave? {
      Appended(s.commits, CommitRecord(r, step.result));
    }
  }

  lemma FailuresStep(s: Sys, l: Label)
    requires Mutex(s) && FailuresKept(s.w.audit, s.commits, CommitPc(s))
    ensures FailuresKept(Step(s, l).w.audit, Step(s, l).commits, CommitPc(Step(s, l)))
  {
    hide FailuresIn, DeclinesOf, AcquireStep, QuoteStep, AfterCheck, PayStep, RecordStep;
    if CommitStep(s, l) {
      match PcOf(s, l.t)
      case CommitWaiting(r) =>
      case Checking(r, c) => CheckFrame(s, r, c); ChecksNeverDecline(s, r, c);
      case Paying(r, p) => PayFrame(s, l.t, r, p, l.verdict); FailuresPay(s, l.t, r, p, l.verdict);
      case Recording(r, step) => RecordFrame(s, l.t, r, step); FailuresRecord(s, l.t, r, step);
    } else {
      FailuresOther(s, l);
    }
  }

  lemma {:induction false} FailuresExec(s: Sys, ls: seq<Label>)
    requires Mutex(s) && FailuresKept(s.w.audit, s.commits, CommitPc(s))
    ensures FailuresKept(Exec(s, ls).w.audit, Exec(s, ls).commits, CommitPc(Exec(s, ls)))
    decreases |ls|
  {
    hide FailuresKept, Mutex, Step, CommitPc;
    if ls != [] {
      FailuresStep(s, ls[0]);
      MutexStep(s, ls[0]);
      FailuresExec(Step(s, ls[0]), ls[1..]);
    }
  }

  /** Whenever no commit is in progress: the mail queue, the bookings and the
      answered bookings are the same sequence; the BookingCommitted events are
      theirs, in order; the PaymentFailed events tell quote, flight, seats and token of
      the commits answered as declined, in order, and there is one for every declined
      charge; and the successful charges are exactly the totals booked, in order, if
      and only if no commit ran out of references, which cannot happen before the
      supply is used up. */
  lemma Conservation(from: Sys, ls: seq<Label>)
    requires Initial(from) && Exec(from, ls).committer.None?
    ensures var s := Exec(from, ls); var w := s.w;
            && w.emails == w.bookings == BookedOf(s.commits)
            && CommittedEvents(w.audit) == EventsOf(w.bookings)
            && FailuresIn(w.audit) == DeclinesOf(s.commits)
            && FailedTokens(w.audit) == Declined(w.charges)
            && (Succeeded(w.charges) == Totals(w.bookings) <==> Exhausted(s.commits) == 0)
            && |Succeeded(w.charges)| == |w.bookings| + Exhausted(s.commits)
            && Totals(w.bookings) <= Succeeded(w.charges)
            && (|w.bookings| < |from.w.references| ==> Exhausted(s.commits) == 0)
  {
    var supply := |from.w.references|;
    assert Books(from, supply) by {
      InitiallySafe(from);
    }
    BooksExec(from, ls, supply);
    FailuresExec(from, ls);
    hide Exec, Initial, Books;
    Settled(Exec(from, ls), supply);
  }

  /** What the books say when no commit is in progress. */
  lemma Settled(s: Sys, supply: nat)
    requires Books(s, supply) && s.committer.None? && FailuresKept(s.w.audit, s.commits, CommitPc(s))
    ensures var w := s.w;
            && w.emails == w.bookings == BookedOf(s.commits)
            && CommittedEvents(w.audit) == EventsOf(w.bookings)
            && FailuresIn(w.audit) == DeclinesOf(s.commits)
            && FailedTokens(w.audit) == Declined(w.charges)
            && (Succeeded(w.charges) == Totals(w.bookings) <==> Exhausted(s.commits) == 0)
            && |Succeeded(w.charges)| == |w.bookings| + Exhausted(s.commits)
            && Totals(w.bookings) <= Succeeded(w.charges)
            && (|w.bookings| < supply ==> Exhausted(s.commits) == 0)
  {
    hide Safe, CommittedEvents, FailedTokens, Declined, FailuresIn, DeclinesOf, BookedOf, Succeeded, Exhausted;
    assert EventsOf([]) == [];
    var paid, n := Succeeded(s.w.charges), |s.w.bookings|;
    assert paid[..n] == Totals(s.w.bookings);
    if |paid| == n {
      assert paid[..n] == paid;
    }
  }

  /** At every moment of every run, also within a commit: what is booked has been
      charged, what is mailed, reported or answered has been booked, each in the same
      order, and what is reported as failed has been declined. */
  lemma EffectsInOrder(from: Sys, ls: seq<Label>)
    requires Initial(from)
    ensures var s := Exec(from, ls); var w := s.w;
            && Totals(w.bookings) <= Succeeded(w.charges)
            && w.emails <= w.bookings && CommittedEvents(w.audit) <= EventsOf(w.bookings) && BookedOf(s.commits) <= w.bookings
            && FailedTokens(w.audit) <= Declined(w.charges)
  {
    var supply := |from.w.references|;
    assert Books(from, supply) by {
      InitiallySafe(from);
    }
    BooksExec(from, ls, supply);
    hide Exec, Initial, Safe, Counted, CommittedEvents, FailedTokens, Declined, BookedOf, Succeeded, Exhausted, Unmailed, Unaudited, Unanswered, Unreported;
    var s := Exec(from, ls);
    var paid, n := Succeeded(s.w.charges), |s.w.bookings|;
    assert paid[..n] == Totals(s.w.bookings);
  }

  /** A commit that is accepted when no reference is left charges without booking. */
  lemma ExhaustionStrandsACharge(w: World, r: CommitRequest, verdict: PaymentResult)
    requires CheckError(w, r) == None && verdict.succeeded
    ensures CommitCall(w, r, verdict).1 == ReferencesExhausted <==> w.references == []
    ensures w.references == [] ==>
              CommitCall(w, r, verdict).0 == w.(charges := w.charges + [Charge(r.paymentToken, Due(w, r), true)])
  {
  }
}
