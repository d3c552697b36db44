/** The audit trail of quotes and the bookings that cite them, on every run. */
module QuoteTrail {
  import opened Entities
  import opened Breakdown
  import Pricing
  import opened Bookings
  import opened Worlds
  import opened Quoting
  import opened Committing
  import opened AuditReplay
  import opened Steps

  /** The multipliers of a priced breakdown are those of the recorded inputs. */
  ghost predicate Honest(p: Priced) {
    var b := p.breakdown;
    b == Pricing.Price(b.baseFare, p.occupancy, p.daysBefore, p.day, b.surcharges, b.taxes, b.fees)
  }

  ghost predicate WellTimed(q: Quote, now: Time) {
    q.createdAt <= now && q.expiresAt == q.createdAt + QUOTE_TTL
  }

  /** The quote a thread has made but not stored yet. */
  function Draft(pc: Pc): Option<Quote> {
    if pc.Pricing? && pc.q.ToStore? then Some(pc.q.made) else None
  }

  /** The quote a thread has stored but not reported to the audit log yet. */
  function Pending(pc: Pc): Option<Quote> {
    if pc.Pricing? && pc.q.ToReport? then Some(pc.q.made) else None
  }

  ghost predicate PricingOk(pc: Pc, now: Time) {
    pc.Pricing? ==>
      match pc.q
      case ToRead(_, at) => at <= now
      case ToDraw(_, at, priced) => at <= now && Honest(priced)
      case ToStore(made, priced) => WellTimed(made, now) && Honest(priced) && made.breakdown == priced.breakdown
      case ToReport(made, priced) => Honest(priced) && made.breakdown == priced.breakdown
  }

  /** A quote id is still to be issued, or drafted by one thread, or stored; never two of these. */
  ghost predicate IdsFresh(s: Sys) {
    && Distinct(s.w.quoteIds)
    && (forall id :: id in s.w.quoteIds ==> id !in s.w.quotes)
    && (forall t: ThreadId :: Draft(PcOf(s, t)).Some? ==>
          var id := Draft(PcOf(s, t)).value.id; id !in s.w.quotes && id !in s.w.quoteIds)
    && (forall t: ThreadId, u: ThreadId :: t != u && Draft(PcOf(s, t)).Some? && Draft(PcOf(s, u)).Some? ==>
          Draft(PcOf(s, t)).value.id != Draft(PcOf(s, u)).value.id)
  }

  ghost predicate StoredWell(s: Sys) {
    && (forall id :: id in s.w.quotes ==> s.w.quotes[id].id == id && WellTimed(s.w.quotes[id], s.w.now))
    && (forall t: ThreadId :: PricingOk(PcOf(s, t), s.w.now))
    && (forall t: ThreadId :: Pending(PcOf(s, t)).Some? ==>
          var q := Pending(PcOf(s, t)).value; q.id in s.w.quotes && s.w.quotes[q.id] == q)
  }

  /** The event tells the quote, and replaying its inputs gives the quote's fare and multipliers. */
  ghost predicate Tells(e: Event, q: Quote) {
    && e.QuoteCreated? && e.quoteId == q.id && e.total == Total(q.breakdown)
    && e.sessionId == q.sessionId && e.flightId == q.flightId && e.seatIds == q.seatIds
    && e.createdAt == q.createdAt && e.expiresAt == q.expiresAt
    && e.daysBefore >= 0
    && ReplayQuote(e) == q.breakdown.(surcharges := [], taxes := 0, fees := 0)
  }

  ghost predicate SomePending(s: Sys, id: QuoteId) {
    exists t: ThreadId :: Pending(PcOf(s, t)).Some? && Pending(PcOf(s, t)).value.id == id
  }

  ghost predicate Logged(audit: seq<Event>, id: QuoteId) {
    exists e :: e in audit && e.QuoteCreated? && e.quoteId == id
  }

  /** Logged quotes are stored and told truly. */
  ghost predicate Told(w: World) {
    forall e :: e in w.audit && e.QuoteCreated? ==> e.quoteId in w.quotes && Tells(e, w.quotes[e.quoteId])
  }

  /** Stored quotes are logged or about to be. */
  ghost predicate Reported(s: Sys) {
    forall id :: id in s.w.quotes ==> Logged(s.w.audit, id) || SomePending(s, id)
  }

  /** The amount is the total of the stored quote, when one is cited. */
  ghost predicate CitesWell(w: World, id: QuoteId, amount: Cents) {
    id == NO_QUOTE || (id in w.quotes && amount == Total(w.quotes[id].breakdown))
  }

  ghost predicate Holding(w: World, quote: Option<Quote>) {
    quote.Some? ==> quote.value.id in w.quotes && w.quotes[quote.value.id] == quote.value
  }

  function QuoteHeld(pc: Pc): Option<Quote> {
    if pc.Checking? && (pc.c.AtSeat? || pc.c.AtLock? || pc.c.AtLockOwner? || pc.c.AtLockRaw?) then pc.c.quote
    else if pc.Paying? && !pc.p.ToRecordDecline? then pc.p.quote
    else None
  }

  function BookingHeld(pc: Pc): Option<Booking> {
    if pc.Recording? && !pc.r.ToLeave? then Some(pc.r.booking) else None
  }

  /** Committed events, and the commit in progress, cite stored quotes at their totals. */
  ghost predicate Cited(w: World, pc: Pc) {
    && (forall e :: e in w.audit && e.BookingCommitted? ==> CitesWell(w, e.committedQuote, e.totalCharged))
    && Holding(w, QuoteHeld(pc))
    && (BookingHeld(pc).Some? ==> CitesWell(w, BookingHeld(pc).value.quoteId, BookingHeld(pc).value.totalCharged))
  }

  ghost predicate Trail(s: Sys) {
    Mutex(s) && IdsFresh(s) && StoredWell(s) && Told(s.w) && Reported(s) && Cited(s.w, CommitPc(s))
  }

  // ---- What a step of one thread must bring to keep the trail

  lemma KeepsIds(s: Sys, s': Sys, t: ThreadId)
    requires IdsFresh(s) && OnlyThread(s, s', t)
    requires s'.w.quoteIds == s.w.quoteIds || (s.w.quoteIds != [] && s'.w.quoteIds == s.w.quoteIds[1..])
    requires Draft(PcOf(s', t)).Some? ==>
               && s.w.quoteIds != [] && s'.w.quoteIds == s.w.quoteIds[1..]
               && Draft(PcOf(s', t)).value.id == s.w.quoteIds[0]
    requires s'.w.quotes == s.w.quotes
             || (Draft(PcOf(s, t)).Some? && Draft(PcOf(s', t)).None? && s'.w.quoteIds == s.w.quoteIds
                 && s'.w.quotes.Keys == s.w.quotes.Keys + {Draft(PcOf(s, t)).value.id})
    ensures IdsFresh(s')
  {
    if s'.w.quoteIds != s.w.quoteIds {
      assert forall id :: id in s.w.quoteIds[1..] ==> id in s.w.quoteIds && id != s.w.quoteIds[0];
      assert s.w.quoteIds[0] in s.w.quoteIds;
    }
  }

  lemma LaterOk(pc: Pc, now: Time, now': Time)
    requires PricingOk(pc, now) && now <= now'
    ensures PricingOk(pc, now')
  {
    hide Honest;
  }

  lemma KeepsStored(s: Sys, s': Sys, t: ThreadId)
    requires StoredWell(s) && OnlyThread(s, s', t) && s.w.now <= s'.w.now && Grows(s.w, s'.w)
    requires PricingOk(PcOf(s', t), s'.w.now)
    requires forall id :: id in s'.w.quotes && id !in s.w.quotes ==> s'.w.quotes[id].id == id && WellTimed(s'.w.quotes[id], s'.w.now)
    requires Pending(PcOf(s', t)).Some? ==>
               var q := Pending(PcOf(s', t)).value; q.id in s'.w.quotes && s'.w.quotes[q.id] == q
    ensures StoredWell(s')
  {
    hide PricingOk, Pending;
    forall u: ThreadId ensures PricingOk(PcOf(s', u), s'.w.now) {
      if u != t { LaterOk(PcOf(s, u), s.w.now, s'.w.now); }
    }
  }

  lemma KeepsReported(s: Sys, s': Sys, t: ThreadId)
    requires Reported(s) && OnlyThread(s, s', t)
    requires forall id :: Logged(s.w.audit, id) ==> Logged(s'.w.audit, id)
    requires Pending(PcOf(s, t)).Some? ==> Logged(s'.w.audit, Pending(PcOf(s, t)).value.id)
    requires forall id :: id in s'.w.quotes && id !in s.w.quotes ==>
               Pending(PcOf(s', t)).Some? && Pending(PcOf(s', t)).value.id == id
    ensures Reported(s')
  {
    hide Logged, Pending;
    forall id | id in s'.w.quotes ensures Logged(s'.w.audit, id) || SomePending(s', id) {
      if id !in s.w.quotes {
        assert Pending(PcOf(s', t)).Some?;
      } else if !Logged(s.w.audit, id) {
        var u: ThreadId :| Pending(PcOf(s, u)).Some? && Pending(PcOf(s, u)).value.id == id;
        assert u != t ==> Pending(PcOf(s', u)).Some?;
      }
    }
  }

  /** The log is as before, or has one more event. */
  ghost predicate Gains(a: seq<Event>, a': seq<Event>) {
    a' == a || (|a'| == |a| + 1 && a'[..|a|] == a)
  }

  lemma GainsKeepsLogged(a: seq<Event>, a': seq<Event>)
    requires Gains(a, a')
    ensures forall e :: e in a' ==> e in a || (|a'| == |a| + 1 && e == a'[|a|])
    ensures forall id :: Logged(a, id) ==> Logged(a', id)
  {
    assert forall e :: e in a ==> e in a';
  }

  // ---- Steps outside quoting

  lemma NotQuoting(s: Sys, l: Label)
    requires !(l.Go? && PcOf(s, l.t).Pricing?)
    ensures var s', t := Step(s, l), if l.Tick? then 0 else l.t;
            && OnlyThread(s, s', t) && s'.w.quotes == s.w.quotes && s'.w.quoteIds == s.w.quoteIds && s.w.now <= s'.w.now
            && (l.Tick? || (Draft(PcOf(s', t)).None? && Pending(PcOf(s', t)).None? && Pending(PcOf(s, t)).None?
                            && PricingOk(PcOf(s', t), s'.w.now)) || s' == s)
  {
    hide AcquireStep, AfterCheck, PayStep, RecordStep;
    if l.Go? {
      match PcOf(s, l.t)
      case Acquiring(want, a) => if want.AcquireOp? { AcquireFrame(s, l.t, want, a); }
      case Checking(r, c) => CheckFrame(s, r, c);
      case Paying(r, p) => PayFrame(s, l.t, r, p, l.verdict);
      case Recording(r, step) => RecordFrame(s, l.t, r, step);
      case _ =>
    }
  }

  lemma NotQuotingLog(s: Sys, l: Label)
    requires !(l.Go? && PcOf(s, l.t).Pricing?)
    ensures var a, a' := s.w.audit, Step(s, l).w.audit;
            Gains(a, a') && (a' != a ==> !a'[|a|].QuoteCreated?)
  {
    hide AcquireStep, AfterCheck, DueFor;
    if l.Go? {
      match PcOf(s, l.t)
      case Acquiring(want, a) => if want.AcquireOp? { AcquireFrame(s, l.t, want, a); }
      case _ =>
    }
  }

  lemma TrailNotQuoting(s: Sys, l: Label)
    requires IdsFresh(s) && StoredWell(s) && Told(s.w) && Reported(s) && !(l.Go? && PcOf(s, l.t).Pricing?)
    ensures var s' := Step(s, l); IdsFresh(s') && StoredWell(s') && Told(s'.w) && Reported(s')
  {
    NotQuoting(s, l);
    NotQuotingLog(s, l);
    var s' := Step(s, l);
    GainsKeepsLogged(s.w.audit, s'.w.audit);
    if l.Tick? {
      TrailTick(s, l);
    } else if s' != s {
      hide Step, Tells, Logged, PricingOk;
      KeepsIds(s, s', l.t);
      KeepsStored(s, s', l.t);
      KeepsReported(s, s', l.t);
    }
  }

  lemma TrailTick(s: Sys, l: Label)
    requires IdsFresh(s) && StoredWell(s) && Reported(s) && l.Tick?
    ensures var s' := Step(s, l); IdsFresh(s') && StoredWell(s') && Reported(s')
  {
    var s' := Step(s, l);
    assert forall u: ThreadId :: PcOf(s', u) == PcOf(s, u);
    hide PricingOk, Logged, Pending, Draft;
    forall u: ThreadId ensures PricingOk(PcOf(s', u), s'.w.now) {
      LaterOk(PcOf(s, u), s.w.now, s'.w.now);
    }
    forall id | id in s'.w.quotes ensures Logged(s'.w.audit, id) || SomePending(s', id) {
      if !Logged(s.w.audit, id) {
        var u: ThreadId :| Pending(PcOf(s, u)).Some? && Pending(PcOf(s, u)).value.id == id;
        assert Pending(PcOf(s', u)).Some?;
      }
    }
  }

  // ---- Steps of quoting

  lemma ReadIsHonest(s: Sys, t: ThreadId, r: QuoteRequest, now: Time)
    requires now <= s.w.now
    ensures var s' := QuoteStep(s, t, ToRead(r, now));
            s'.w == s.w && PricingOk(PcOf(s', t), s'.w.now) && Draft(PcOf(s', t)).None? && Pending(PcOf(s', t)).None?
  {
    hide SeatSurcharges, ActiveBookedSeatCount, OccupancyPct, DayOf;
  }

  lemma DrawIsFresh(s: Sys, t: ThreadId, r: QuoteRequest, now: Time, priced: Priced)
    requires PricingOk(Pricing(ToDraw(r, now, priced)), s.w.now)
    ensures var s' := QuoteStep(s, t, ToDraw(r, now, priced));
            && s'.w == s.w.(sessionIds := s'.w.sessionIds, quoteIds := s'.w.quoteIds)
            && PricingOk(PcOf(s', t), s'.w.now) && Pending(PcOf(s', t)).None?
            && (s'.w.quoteIds == s.w.quoteIds || (s.w.quoteIds != [] && s'.w.quoteIds == s.w.quoteIds[1..]))
            && (Draft(PcOf(s', t)).Some? ==>
                  && s.w.quoteIds != [] && s'.w.quoteIds == s.w.quoteIds[1..]
                  && Draft(PcOf(s', t)).value.id == s.w.quoteIds[0])
  {
    hide Honest;
  }

  lemma EventTells(made: Quote, priced: Priced)
    requires Honest(priced) && made.breakdown == priced.breakdown
    ensures Tells(BuildAuditEvent(made, priced), made)
  {
  }

  lemma TrailQuoting(s: Sys, t: ThreadId, q: QuotePc)
    requires PcOf(s, t) == Pricing(q) && IdsFresh(s) && StoredWell(s) && Told(s.w) && Reported(s)
    ensures var s' := QuoteStep(s, t, q); IdsFresh(s') && StoredWell(s') && Told(s'.w) && Reported(s')
  {
    var s' := QuoteStep(s, t, q);
    QuoteFrame(s, t, q);
    assert PricingOk(Pricing(q), s.w.now) by { assert PricingOk(PcOf(s, t), s.w.now); }
    hide IdsFresh, StoredWell, Told, Reported, Honest, PriceSeats, ActiveBookedSeatCount, DrawIds;
    match q
    case ToRead(r, now) =>
      ReadIsHonest(s, t, r, now);
      TrailFrom(s, s', t);
    case ToDraw(r, now, priced) =>
      DrawIsFresh(s, t, r, now, priced);
      TrailFrom(s, s', t);
    case ToStore(made, priced) =>
      assert Draft(PcOf(s, t)) == Some(made);
      TrailFrom(s, s', t);
    case ToReport(made, priced) =>
      EventTells(made, priced);
      ReportKeeps(s, s', t, made, BuildAuditEvent(made, priced));
  }

  /** A quoting step that leaves the log alone. */
  lemma TrailFrom(s: Sys, s': Sys, t: ThreadId)
    requires IdsFresh(s) && StoredWell(s) && Told(s.w) && Reported(s)
    requires OnlyThread(s, s', t) && s'.w.audit == s.w.audit && s'.w.now == s.w.now
    requires PricingOk(PcOf(s', t), s'.w.now) && Pending(PcOf(s, t)).None?
    requires s'.w.quoteIds == s.w.quoteIds || (s.w.quoteIds != [] && s'.w.quoteIds == s.w.quoteIds[1..])
    requires Draft(PcOf(s', t)).Some? ==>
               && s.w.quoteIds != [] && s'.w.quoteIds == s.w.quoteIds[1..]
               && Draft(PcOf(s', t)).value.id == s.w.quoteIds[0]
    requires if Draft(PcOf(s, t)).None? then s'.w.quotes == s.w.quotes && Pending(PcOf(s', t)).None?
             else
               var q := Draft(PcOf(s, t)).value;
               && s'.w.quotes == s.w.quotes[q.id := q] && s'.w.quoteIds == s.w.quoteIds
               && Pending(PcOf(s', t)) == Some(q) && Draft(PcOf(s', t)).None? && WellTimed(q, s'.w.now)
    ensures IdsFresh(s') && StoredWell(s') && Told(s'.w) && Reported(s')
  {
    hide Tells, Logged, PricingOk;
    KeepsIds(s, s', t);
    KeepsStored(s, s', t);
    KeepsReported(s, s', t);
  }

  lemma ReportKeeps(s: Sys, s': Sys, t: ThreadId, made: Quote, event: Event)
    requires IdsFresh(s) && StoredWell(s) && Told(s.w) && Reported(s)
    requires OnlyThread(s, s', t) && PcOf(s', t).Idle? && Draft(PcOf(s, t)).None? && Pending(PcOf(s, t)) == Some(made)
    requires s'.w == s.w.(audit := s.w.audit + [event]) && Tells(event, made)
    ensures IdsFresh(s') && StoredWell(s') && Told(s'.w) && Reported(s')
  {
    GainsKeepsLogged(s.w.audit, s'.w.audit);
    assert event in s'.w.audit && event.QuoteCreated? && event.quoteId == made.id;
    assert Logged(s'.w.audit, made.id);
    hide Logged, Tells;
    KeepsIds(s, s', t);
    KeepsStored(s, s', t);
    KeepsReported(s, s', t);
  }

  // ---- Citations

  /** Stored quotes are never dropped or replaced. */
  ghost predicate Grows(w: World, w': World) {
    forall id :: id in w.quotes ==> id in w'.quotes && w'.quotes[id] == w.quotes[id]
  }

  lemma QuotesGrow(s: Sys, l: Label)
    requires IdsFresh(s)
    ensures Grows(s.w, Step(s, l).w)
  {
    hide AcquireStep, AfterCheck, PayStep, RecordStep;
    if l.Go? && PcOf(s, l.t).Pricing? {
      if PcOf(s, l.t).q.ToStore? {
        assert Draft(PcOf(s, l.t)).Some?;
      }
    } else {
      NotQuoting(s, l);
    }
  }

  lemma CitedGrows(w: World, w': World, pc: Pc)
    requires Cited(w, pc) && Grows(w, w')
    requires forall e :: e in w'.audit && e.BookingCommitted? ==> e in w.audit
    ensures Cited(w', pc)
  {
  }

  lemma CitedCheck(s: Sys, r: CommitRequest, c: CheckPc)
    requires StoredWell(s) && Cited(s.w, Checking(r, c))
    ensures Cited(s.w, AfterCheck(s, r, c))
  {
    hide SeatError, OwnershipError;
    CheckFrame(s, r, c);
  }

  lemma CitedPay(s: Sys, t: ThreadId, r: CommitRequest, p: PayPc, verdict: PaymentResult)
    requires Cited(s.w, Paying(r, p))
    ensures var s' := PayStep(s, t, r, p, verdict); Cited(s'.w, PcOf(s', t))
  {
    hide Total;
  }

  lemma CitedRecord(s: Sys, t: ThreadId, r: CommitRequest, step: RecordPc)
    requires PcOf(s, t) == Recording(r, step) && Cited(s.w, Recording(r, step))
    ensures var s' := RecordStep(s, t, r, step); Cited(s'.w, PcOf(s', t))
  {
    hide Total, SaveBooking;
  }

  lemma CitedIdle(w: World, pc: Pc)
    requires Cited(w, pc)
    ensures Cited(w, Idle) && forall r :: Cited(w, Checking(r, AtFlight))
  {
  }

  lemma CitedStep(s: Sys, l: Label)
    requires Trail(s)
    ensures Cited(Step(s, l).w, CommitPc(Step(s, l)))
  {
    hide Cited, IdsFresh, StoredWell, Told, Reported, AcquireStep, QuoteStep, AfterCheck, PayStep, RecordStep;
    if CommitStep(s, l) {
      CitedIdle(s.w, CommitPc(s));
      match PcOf(s, l.t)
      case CommitWaiting(r) =>
      case Checking(r, c) => CheckFrame(s, r, c); CitedCheck(s, r, c);
      case Paying(r, p) => PayFrame(s, l.t, r, p, l.verdict); CitedPay(s, l.t, r, p, l.verdict);
      case Recording(r, step) => RecordFrame(s, l.t, r, step); CitedRecord(s, l.t, r, step);
    } else {
      QuotesGrow(s, l);
      OtherStep(s, l);
      NoNewCommits(s, l);
      CitedGrows(s.w, Step(s, l).w, CommitPc(s));
    }
  }

  lemma NoNewCommits(s: Sys, l: Label)
    requires !CommitStep(s, l)
    ensures forall e :: e in Step(s, l).w.audit && e.BookingCommitted? ==> e in s.w.audit
  {
    hide AcquireStep;
    if l.Go? {
      match PcOf(s, l.t)
      case Acquiring(want, a) => if want.AcquireOp? { AcquireFrame(s, l.t, want, a); }
      case _ =>
    }
  }

  lemma TrailStep(s: Sys, l: Label)
    requires Trail(s)
    ensures Trail(Step(s, l))
  {
    hide IdsFresh, StoredWell, Told, Reported, Cited, CommitPc, AcquireStep, QuoteStep, AfterCheck, PayStep, RecordStep;
    MutexStep(s, l);
    CitedStep(s, l);
    if l.Go? && PcOf(s, l.t).Pricing? {
      TrailQuoting(s, l.t, PcOf(s, l.t).q);
    } else {
      TrailNotQuoting(s, l);
    }
  }

  lemma {:induction false} TrailExec(s: Sys, ls: seq<Label>)
    requires Trail(s)
    ensures Trail(Exec(s, ls))
    decreases |ls|
  {
    hide Trail, Step;
    if ls != [] {
      TrailStep(s, ls[0]);
      TrailExec(Step(s, ls[0]), ls[1..]);
    }
  }

  lemma InitialTrail(s: Sys)
    requires Initial(s)
    ensures Trail(s)
  {
  }

  lemma TrailEver(from: Sys, ls: seq<Label>)
    requires Initial(from)
    ensures Trail(Exec(from, ls))
  {
    InitialTrail(from);
    TrailExec(from, ls);
  }

  // ---- Pending quotes are not logged

  /** A quote about to be reported is not logged, and only one thread is about to report it. */
  ghost predicate PendingFresh(s: Sys) {
    && (forall t: ThreadId :: Pending(PcOf(s, t)).Some? ==> !Logged(s.w.audit, Pending(PcOf(s, t)).value.id))
    && (forall t: ThreadId, u: ThreadId :: t != u && Pending(PcOf(s, t)).Some? && Pending(PcOf(s, u)).Some? ==>
          Pending(PcOf(s, t)).value.id != Pending(PcOf(s, u)).value.id)
  }

  /** Which ids are logged, after one more event. */
  lemma LoggedNext(a: seq<Event>, a': seq<Event>, id: QuoteId)
    requires Gains(a, a')
    ensures Logged(a', id) <==> Logged(a, id) || (a' != a && a'[|a|].QuoteCreated? && a'[|a|].quoteId == id)
  {
    GainsKeepsLogged(a, a');
    if a' != a {
      assert a'[|a|] in a';
    }
  }

  lemma PendingNotQuoting(s: Sys, l: Label)
    requires PendingFresh(s) && !(l.Go? && PcOf(s, l.t).Pricing?)
    ensures PendingFresh(Step(s, l))
  {
    NotQuoting(s, l);
    NotQuotingLog(s, l);
    var s' := Step(s, l);
    forall id ensures Logged(s'.w.audit, id) == Logged(s.w.audit, id) {
      LoggedNext(s.w.audit, s'.w.audit, id);
    }
    if l.Tick? {
      assert forall u: ThreadId :: PcOf(s', u) == PcOf(s, u);
    }
    hide Step, Logged, Pending, Draft, PricingOk;
    if !l.Tick? && s' != s {
      assert forall u: ThreadId :: Pending(PcOf(s', u)).Some? ==> Pending(PcOf(s', u)) == Pending(PcOf(s, u));
    } else {
      assert forall u: ThreadId :: Pending(PcOf(s', u)) == Pending(PcOf(s, u));
    }
  }

  /** A quoting step either leaves the log alone and makes at most the stored draft
      pending, or logs its own pending quote. */
  lemma PendingQuoting(s: Sys, t: ThreadId, q: QuotePc)
    requires PendingFresh(s) && IdsFresh(s) && StoredWell(s) && Told(s.w) && PcOf(s, t) == Pricing(q)
    ensures PendingFresh(QuoteStep(s, t, q))
  {
    var s' := QuoteStep(s, t, q);
    QuoteFrame(s, t, q);
    match q
    case ToRead(_, _) => QuietStep(s, s', t, q);
    case ToDraw(_, _, _) => QuietStep(s, s', t, q);
    case ToStore(made, priced) =>
      assert Draft(PcOf(s, t)) == Some(made);
      UnstoredUnlogged(s.w, made.id);
      hide Logged, Tells, PricingOk;
      assert Pending(PcOf(s', t)) == Some(made) && s'.w.audit == s.w.audit;
    case ToReport(made, priced) =>
      assert Pending(PcOf(s, t)) == Some(made);
      forall id ensures Logged(s'.w.audit, id) <==> Logged(s.w.audit, id) || id == made.id {
        assert s'.w.audit[..|s.w.audit|] == s.w.audit;
        LoggedNext(s.w.audit, s'.w.audit, id);
      }
      hide Logged, Tells, PricingOk, QuoteStep;
      assert Pending(PcOf(s', t)).None?;
  }

  lemma UnstoredUnlogged(w: World, id: QuoteId)
    requires Told(w) && id !in w.quotes
    ensures !Logged(w.audit, id)
  {
    hide Tells;
  }

  lemma QuietStep(s: Sys, s': Sys, t: ThreadId, q: QuotePc)
    requires PendingFresh(s) && PcOf(s, t) == Pricing(q) && (q.ToRead? || q.ToDraw?) && s' == QuoteStep(s, t, q)
    ensures PendingFresh(s')
  {
    QuoteFrame(s, t, q);
    QuietFrame(s, t, q);
    hide QuoteStep, Logged;
  }

  lemma QuietFrame(s: Sys, t: ThreadId, q: QuotePc)
    requires q.ToRead? || q.ToDraw?
    ensures QuoteStep(s, t, q).w.audit == s.w.audit && Pending(PcOf(QuoteStep(s, t, q), t)).None?
  {
    hide PriceSeats, MakeQuote, ActiveBookedSeatCount, DaysBefore;
  }

  lemma {:induction false} PendingExec(s: Sys, ls: seq<Label>)
    requires Trail(s) && PendingFresh(s)
    ensures PendingFresh(Exec(s, ls))
    decreases |ls|
  {
    hide IdsFresh, StoredWell, Told, Reported, Cited, PendingFresh, AcquireStep, QuoteStep, AfterCheck, PayStep, RecordStep, Mutex;
    if ls != [] {
      if ls[0].Go? && PcOf(s, ls[0].t).Pricing? {
        PendingQuoting(s, ls[0].t, PcOf(s, ls[0].t).q);
      } else {
        PendingNotQuoting(s, ls[0]);
      }
      TrailStep(s, ls[0]);
      PendingExec(Step(s, ls[0]), ls[1..]);
    }
  }

  lemma NonePending(s: Sys)
    requires Initial(s)
    ensures PendingFresh(s)
  {
  }

  /** On every run, a stored quote is pending in some thread exactly as long as it is
      not logged. */
  lemma PendingUntilLogged(from: Sys, ls: seq<Label>, id: QuoteId)
    requires Initial(from)
    ensures var s := Exec(from, ls);
            SomePending(s, id) <==> id in s.w.quotes && !Logged(s.w.audit, id)
  {
    TrailEver(from, ls);
    InitialTrail(from);
    NonePending(from);
    PendingExec(from, ls);
    hide Exec, IdsFresh, Told, Cited, Mutex, Logged, PricingOk, Initial;
  }

  // ---- QuoteAnswered quotes are exactly the logged ones

  /** A quote is answered to its caller exactly when it is logged, and is then the stored one. */
  ghost predicate AnswersLogged(s: Sys) {
    && (forall q :: Quoted(q) in s.answers ==> q.id in s.w.quotes && s.w.quotes[q.id] == q && Logged(s.w.audit, q.id))
    && (forall id :: Logged(s.w.audit, id) ==> id in s.w.quotes && Quoted(s.w.quotes[id]) in s.answers)
  }

  lemma NotQuotingAnswers(s: Sys, l: Label)
    requires !(l.Go? && PcOf(s, l.t).Pricing?)
    ensures Step(s, l).answers == s.answers
  {
    hide AcquireStep, AfterCheck, PayStep, RecordStep;
    if l.Go? {
      match PcOf(s, l.t)
      case Acquiring(want, a) => if want.AcquireOp? { AcquireFrame(s, l.t, want, a); }
      case Paying(r, p) => PayFrame(s, l.t, r, p, l.verdict);
      case Recording(r, step) => RecordFrame(s, l.t, r, step);
      case _ =>
    }
  }

  lemma AnswersNotQuoting(s: Sys, l: Label)
    requires AnswersLogged(s) && !(l.Go? && PcOf(s, l.t).Pricing?)
    ensures AnswersLogged(Step(s, l))
  {
    NotQuoting(s, l);
    NotQuotingLog(s, l);
    NotQuotingAnswers(s, l);
    var s' := Step(s, l);
    forall id ensures Logged(s'.w.audit, id) == Logged(s.w.audit, id) {
      LoggedNext(s.w.audit, s'.w.audit, id);
    }
    hide Step, Logged;
  }

  lemma QuietAnswers(s: Sys, t: ThreadId, q: QuotePc)
    requires q.ToRead? || q.ToDraw?
    ensures var s' := QuoteStep(s, t, q);
            s'.w.quotes == s.w.quotes && s'.w.audit == s.w.audit && forall a :: Quoted(a) in s'.answers <==> Quoted(a) in s.answers
  {
    hide PriceSeats, MakeQuote, ActiveBookedSeatCount, DaysBefore, DrawIds;
    if q.ToDraw? {
      DrawsOnlyIds(s.w, q.request.sessionId);
    }
  }

  lemma AnswersStored(s: Sys, t: ThreadId, made: Quote, priced: Priced)
    requires AnswersLogged(s) && made.id !in s.w.quotes
    ensures AnswersLogged(QuoteStep(s, t, ToStore(made, priced)))
  {
    hide Logged;
  }

  lemma AnswersReported(s: Sys, t: ThreadId, made: Quote, priced: Priced)
    requires AnswersLogged(s) && made.id in s.w.quotes && s.w.quotes[made.id] == made
    ensures AnswersLogged(QuoteStep(s, t, ToReport(made, priced)))
  {
    var s', e := QuoteStep(s, t, ToReport(made, priced)), BuildAuditEvent(made, priced);
    assert s'.w.audit == s.w.audit + [e] && s'.answers == s.answers + [Quoted(made)] && s'.w.quotes == s.w.quotes;
    forall id ensures Logged(s'.w.audit, id) <==> Logged(s.w.audit, id) || id == made.id {
      assert s'.w.audit[..|s.w.audit|] == s.w.audit;
      LoggedNext(s.w.audit, s'.w.audit, id);
    }
    hide Logged, QuoteStep, BuildAuditEvent;
  }

  lemma AnswersQuoting(s: Sys, t: ThreadId, q: QuotePc)
    requires AnswersLogged(s) && IdsFresh(s) && StoredWell(s) && PcOf(s, t) == Pricing(q)
    ensures AnswersLogged(QuoteStep(s, t, q))
  {
    hide QuoteStep, Logged, PricingOk, WellTimed;
    match q
    case ToRead(_, _) => QuietAnswers(s, t, q);
    case ToDraw(_, _, _) => QuietAnswers(s, t, q);
    case ToStore(made, priced) =>
      assert Draft(PcOf(s, t)) == Some(made);
      AnswersStored(s, t, made, priced);
    case ToReport(made, priced) =>
      assert Pending(PcOf(s, t)) == Some(made);
      AnswersReported(s, t, made, priced);
  }

  lemma {:induction false} AnswersExec(s: Sys, ls: seq<Label>)
    requires Trail(s) && AnswersLogged(s)
    ensures AnswersLogged(Exec(s, ls))
    decreases |ls|
  {
    hide IdsFresh, StoredWell, Told, Reported, Cited, AnswersLogged, AcquireStep, QuoteStep, AfterCheck, PayStep, RecordStep, Mutex;
    if ls != [] {
      if ls[0].Go? && PcOf(s, ls[0].t).Pricing? {
        AnswersQuoting(s, ls[0].t, PcOf(s, ls[0].t).q);
      } else {
        AnswersNotQuoting(s, ls[0]);
      }
      TrailStep(s, ls[0]);
      AnswersExec(Step(s, ls[0]), ls[1..]);
    }
  }

  /** On every run, the quotes answered to their callers are the stored quotes that are
      logged, and no others. */
  lemma AnsweredIsLogged(from: Sys, ls: seq<Label>, q: Quote)
    requires Initial(from)
    ensures var s := Exec(from, ls);
            Quoted(q) in s.answers <==> q.id in s.w.quotes && s.w.quotes[q.id] == q && Logged(s.w.audit, q.id)
  {
    InitialTrail(from);
    assert AnswersLogged(from);
    AnswersExec(from, ls);
    hide Exec, Logged;
  }

  // ---- Reconciliation

  /** A committed event mismatches exactly when its quote is stored but not yet reported. */
  lemma MismatchMeansPending(s: Sys, e: Event)
    requires Trail(s) && e in s.w.audit && e.BookingCommitted?
    ensures MismatchOf(QuotesById(s.w.audit), e) ==
            if e.committedQuote != NO_QUOTE && !Logged(s.w.audit, e.committedQuote)
            then [QuoteMissing(e.reference, e.committedQuote)] else []
    ensures e.committedQuote != NO_QUOTE && !Logged(s.w.audit, e.committedQuote) ==> SomePending(s, e.committedQuote)
  {
    hide IdsFresh, StoredWell, Tells, Mutex;
    QuotesByIdFinds(s.w.audit, e.committedQuote);
    if e.committedQuote in QuotesById(s.w.audit) {
      TellsTotal(QuotesById(s.w.audit)[e.committedQuote], s.w.quotes[e.committedQuote]);
    }
  }

  lemma TellsTotal(e: Event, q: Quote)
    requires Tells(e, q)
    ensures e.total == Total(q.breakdown)
  {
  }

  /** On every run, a commit in the log that cites a quote mismatches exactly when some
      thread has stored that quote and not reported it yet, and is then reported as
      citing no quote; a wrong total never occurs. */
  lemma MismatchEver(from: Sys, ls: seq<Label>, e: Event)
    requires Initial(from) && e in Exec(from, ls).w.audit && e.BookingCommitted?
    ensures var s := Exec(from, ls);
            MismatchOf(QuotesById(s.w.audit), e) ==
            if e.committedQuote != NO_QUOTE && SomePending(s, e.committedQuote)
            then [QuoteMissing(e.reference, e.committedQuote)] else []
  {
    TrailEver(from, ls);
    MismatchMeansPending(Exec(from, ls), e);
    PendingUntilLogged(from, ls, e.committedQuote);
  }

  /** The quote of this id has been answered to its caller. */
  ghost predicate QuoteAnswered(s: Sys, id: QuoteId) {
    id in s.w.quotes && Quoted(s.w.quotes[id]) in s.answers
  }

  lemma CitedIsAnsweredOrPending(from: Sys, ls: seq<Label>, e: Event)
    requires Initial(from) && e in Exec(from, ls).w.audit && e.BookingCommitted? && e.committedQuote != NO_QUOTE
    ensures !SomePending(Exec(from, ls), e.committedQuote) <==> QuoteAnswered(Exec(from, ls), e.committedQuote)
  {
    TrailEver(from, ls);
    PendingUntilLogged(from, ls, e.committedQuote);
    CitedIsStored(Exec(from, ls), e);
    AnsweredIsLogged(from, ls, Exec(from, ls).w.quotes[e.committedQuote]);
    hide Exec, Initial, SomePending, Logged, Trail;
    StoredUnderItsId(from, ls, e.committedQuote);
  }

  lemma CitedIsStored(s: Sys, e: Event)
    requires Trail(s) && e in s.w.audit && e.BookingCommitted? && e.committedQuote != NO_QUOTE
    ensures e.committedQuote in s.w.quotes
  {
    hide IdsFresh, StoredWell, Told, Reported, Mutex;
  }

  lemma StoredUnderItsId(from: Sys, ls: seq<Label>, id: QuoteId)
    requires Initial(from) && id in Exec(from, ls).w.quotes
    ensures Exec(from, ls).w.quotes[id].id == id
  {
    TrailEver(from, ls);
    hide Exec, IdsFresh, Told, Reported, Cited, Mutex, PricingOk;
  }

  /** On every run the reconciliation of the log is empty exactly when every quote cited
      by a commit in it has been answered to its caller, that is, when no thread has
      stored a cited quote and not reported it yet. Every QuoteCreated event tells its
      stored quote, and replaying it gives that quote's fare and multipliers. */
  lemma AuditReconciles(from: Sys, ls: seq<Label>)
    requires Initial(from)
    ensures var s := Exec(from, ls);
            && (VerifyCommits(s.w.audit) == [] <==>
                  forall e :: e in s.w.audit && e.BookingCommitted? && e.committedQuote != NO_QUOTE ==> !SomePending(s, e.committedQuote))
            && (VerifyCommits(s.w.audit) == [] <==>
                  forall e :: e in s.w.audit && e.BookingCommitted? && e.committedQuote != NO_QUOTE ==> QuoteAnswered(s, e.committedQuote))
            && ((forall t: ThreadId :: Pending(PcOf(s, t)).None?) ==> VerifyCommits(s.w.audit) == [])
            && Told(s.w)
  {
    TrailEver(from, ls);
    forall e | e in Exec(from, ls).w.audit && e.BookingCommitted? && e.committedQuote != NO_QUOTE
      ensures !SomePending(Exec(from, ls), e.committedQuote) <==> QuoteAnswered(Exec(from, ls), e.committedQuote)
    {
      CitedIsAnsweredOrPending(from, ls, e);
    }
    hide QuoteAnswered;
    hide Exec, Initial, SomePending, Told, IdsFresh, StoredWell, Reported, Cited, Mutex;
    var s := Exec(from, ls);
    CleanWhenEachMatches(QuotesById(s.w.audit), s.w.audit);
    forall e | e in s.w.audit
      ensures MismatchOf(QuotesById(s.w.audit), e) == [] <==>
              (e.BookingCommitted? && e.committedQuote != NO_QUOTE ==> !SomePending(s, e.committedQuote))
    {
      if e.BookingCommitted? {
        MismatchEver(from, ls, e);
      }
    }
    if forall t: ThreadId :: Pending(PcOf(s, t)).None? {
      forall id ensures !SomePending(s, id) {
        NotPending(s, id);
      }
    }
  }

  lemma NotPending(s: Sys, id: QuoteId)
    requires forall t: ThreadId :: Pending(PcOf(s, t)).None?
    ensures !SomePending(s, id)
  {
  }
}
