/** The interleaved commits of any run are a sequential history of atomic ones: each
    takes effect as CommitCall at one moment between its call and its return, in the
    order of return, and together they account for everything commits write. */
module CommitRefinement {
  import opened Entities
  import opened LockTables
  import opened Bookings
  import opened QuoteStores
  import opened Worlds
  import opened Quoting
  import opened Committing
  import opened Steps
  import opened BookingSafety
  import opened QuoteTrail
  import opened Futures
  import opened CommitHistory
  import opened CommitPoints

  /** What commits alone write: everything but the lock released at the end. */
  datatype Owned = Owned(bookings: seq<Booking>, emails: seq<Booking>, charges: seq<Charge>,
                         references: seq<BookingReference>, events: seq<Event>)

  /** The audit log without the events of quotes. */
  function CommitEvents(audit: seq<Event>): seq<Event> {
    if audit == [] then []
    else
      var last := audit[|audit| - 1];
      CommitEvents(audit[..|audit| - 1]) + if last.QuoteCreated? then [] else [last]
  }

  function OwnedOf(w: World): Owned {
    Owned(w.bookings, w.emails, w.charges, w.references, CommitEvents(w.audit))
  }

  /** The moment a commit is decided: the number of steps before it, the state of that
      moment with the clock as read at the call's start, and the payment's verdict. */
  datatype Decision = Decision(at: nat, env: World, verdict: PaymentResult, record: CommitRecord)

  /** The quote or lock called expired is live. */
  ghost predicate Misjudged(d: Decision) {
    var r := d.record.request;
    || (d.record.result == Refused(QuoteExpired) && r.quoteId.Some? && GetValidQuote(d.env.quotes, r.quoteId.value, d.env.now).Some?)
    || (d.record.result == Refused(LockExpired) && r.lockId.Some? && IsValid(d.env.locks, r.lockId.value, d.env.now))
  }

  /** The atomic call at that moment gives the recorded answer, unless misjudged. */
  ghost predicate Answered(d: Decision) {
    Misjudged(d) || CommitCall(d.env, d.record.request, d.verdict).1 == d.record.result
  }

  /** What commits have written after it: a misjudged commit writes nothing. */
  ghost function After(d: Decision): Owned {
    if Misjudged(d) then OwnedOf(d.env) else OwnedOf(CommitCall(d.env, d.record.request, d.verdict).0)
  }

  ghost function AfterAll(o: Owned, ds: seq<Decision>): Owned {
    if ds == [] then o else After(ds[|ds| - 1])
  }

  /** Each decision starts from what the ones before it have written. */
  ghost predicate Chain(o: Owned, ds: seq<Decision>) {
    ds == [] ||
    var n := |ds| - 1;
    && Chain(o, ds[..n])
    && OwnedOf(ds[n].env) == AfterAll(o, ds[..n]) && Answered(ds[n])
    && (n > 0 ==> ds[n - 1].at < ds[n].at)
  }

  /** The clock reading the commit works with. */
  function DecidingClock(w: World, pc: Pc): Time {
    if pc.Checking? then ReadAt(w, pc.c) else if pc.Paying? then pc.p.now else w.now
  }

  /** The next step is the charge or a check of a commit of that request; the decision's
      state is this one with the commit's own clock reading; and the decision misjudges
      exactly if the step is the second read of a check and finds the quote or lock live. */
  ghost predicate TakenAt(s: Sys, l: Label, d: Decision) {
    && l.Go? && l.verdict == d.verdict
    && var pc := PcOf(s, l.t);
       && (pc.Checking? || (pc.Paying? && pc.p.ToCharge?)) && pc.request == d.record.request
       && d.env == s.w.(now := DecidingClock(s.w, pc)) && d.env.now <= s.w.now
       && (Misjudged(d) <==> pc.Checking? && FoundLive(s.w, pc.request, pc.c))
  }

  ghost predicate Occurred(from: Sys, ls: seq<Label>, d: Decision) {
    d.at < |ls| && TakenAt(Exec(from, ls[..d.at]), ls[d.at], d)
  }

  /** The thread that takes the decision. */
  function Decider(ls: seq<Label>, d: Decision): ThreadId {
    if d.at < |ls| && ls[d.at].Go? then ls[d.at].t else 0
  }

  /** The decision's clock is the one that the same call read when it looked up the
      flight, in the decision's own step or at some earlier label j since when the
      thread has been in the call; and if it misjudges, the first read of the check, at
      some label k since when the thread has waited for the second, saw no such quote
      or lock. */
  ghost predicate Traced(from: Sys, ls: seq<Label>, d: Decision)
    requires d.at <= |ls|
  {
    var before, t := ls[..d.at], Decider(ls, d);
    var s := Exec(from, before);
    && (d.env.now == s.w.now || exists j :: StartedBy(from, before, t, d.record.request, d.env.now, j))
    && (Misjudged(d) ==>
          && PcOf(s, t).Checking?
          && exists k :: ReadFirst(from, before, t, k) && Overtaken(StateAt(from, before, k).w, s.w, d.record.request, PcOf(s, t).c))
  }

  // ---- Between decision and return

  /** The thread in the commit lock has been decided, and how far it has got. */
  ghost predicate Underway(w: World, pc: Pc, d: Decision) {
    InCommit(pc) && pc.request == d.record.request && Answered(d) &&
    match pc
    case Paying(r, ToRecordDecline(now, verdict)) =>
      && d.record.result == Refused(PaymentDeclined)
      && After(d) == OwnedOf(w).(events := OwnedOf(w).events + [FailedEvent(r, verdict, now)])
    case Paying(r, ToName(now, quote)) =>
      if w.references == [] then d.record.result == ReferencesExhausted && After(d) == OwnedOf(w)
      else
        var b := MakeBooking(w.references[0], r, DueFor(w, r, quote), quote, now);
        && d.record.result == Booked(b)
        && After(d) == Saved(OwnedOf(w.(references := w.references[1..])), b)
    case Recording(r, ToSave(b)) => d.record.result == Booked(b) && After(d) == Saved(OwnedOf(w), b)
    case Recording(r, ToMail(b)) => d.record.result == Booked(b) && After(d) == Mailed(OwnedOf(w), b)
    case Recording(r, ToRelease(b)) => d.record.result == Booked(b) && After(d) == Reported(OwnedOf(w), b)
    case Recording(r, ToAudit(b)) => d.record.result == Booked(b) && After(d) == Reported(OwnedOf(w), b)
    case Recording(r, ToLeave(result)) => d.record.result == result && After(d) == OwnedOf(w)
    case _ => false
  }

  function Reported(o: Owned, b: Booking): Owned {
    o.(events := o.events + [CommittedEvent(b)])
  }

  function Mailed(o: Owned, b: Booking): Owned {
    Reported(o.(emails := o.emails + [b]), b)
  }

  function Saved(o: Owned, b: Booking): Owned {
    Mailed(o.(bookings := SaveBooking(o.bookings, b)), b)
  }

  /** No commit has been decided that has not returned. */
  predicate Undecided(pc: Pc) {
    !InCommit(pc) || pc.Checking? || (pc.Paying? && pc.p.ToCharge?)
  }

  /** The decisions so far explain the finished commits and all that commits have
      written, and the last one may be of the commit underway. */
  ghost predicate Explains(s: Sys, o: Owned, ds: seq<Decision>) {
    && Chain(o, ds) && |s.commits| <= |ds|
    && (forall i :: 0 <= i < |s.commits| ==> ds[i].record == s.commits[i])
    && if Undecided(CommitPc(s)) then |ds| == |s.commits| && OwnedOf(s.w) == AfterAll(o, ds)
       else |ds| == |s.commits| + 1 && Underway(s.w, CommitPc(s), ds[|ds| - 1])
  }

  lemma EventsNext(audit: seq<Event>, e: Event)
    ensures CommitEvents(audit + [e]) == CommitEvents(audit) + if e.QuoteCreated? then [] else [e]
  {
    assert (audit + [e])[..|audit|] == audit;
  }

  /** What a commit writes when its checks pass. */
  lemma Writes(w: World, r: CommitRequest, v: PaymentResult)
    requires CheckError(w, r) == None && r.flightId in w.flights
    ensures var total, quote := Due(w, r), QuoteOf(ResolveQuote(w.quotes, r.quoteId, w.now));
            var paid := OwnedOf(w).(charges := w.charges + [Charge(r.paymentToken, total, v.succeeded)]);
            var (w', result) := CommitCall(w, r, v);
            if !v.succeeded then
              result == Refused(PaymentDeclined) && OwnedOf(w') == paid.(events := paid.events + [FailedEvent(r, v, w.now)])
            else if w.references == [] then result == ReferencesExhausted && OwnedOf(w') == paid
            else
              var b := MakeBooking(w.references[0], r, total, quote, w.now);
              result == Booked(b) && OwnedOf(w') == Saved(paid.(references := w.references[1..]), b)
  {
    hide CheckError, Due, SaveBooking, ReleaseGiven, CommitEvents, ResolveQuote;
    EventsNext(w.audit, FailedEvent(r, v, w.now));
    if w.references != [] {
      var b := MakeBooking(w.references[0], r, Due(w, r), QuoteOf(ResolveQuote(w.quotes, r.quoteId, w.now)), w.now);
      EventsNext(w.audit, CommittedEvent(b));
    }
  }

  // ---- The moment of payment

  /** At the charge, the checks hold for the state of that moment. */
  lemma ChecksHoldAtCharge(w: World, r: CommitRequest, now: Time, quote: Option<Quote>)
    requires Standing(w, Paying(r, ToCharge(now, quote))) && SeatsClear(w, r, |r.seatIds|)
    ensures var w0 := w.(now := now);
            && CheckError(w0, r) == None && r.flightId in w.flights
            && Due(w0, r) == DueFor(w, r, quote) && QuoteOf(ResolveQuote(w0.quotes, r.quoteId, now)) == quote
  {
    hide SeatError, SeatsError, Breakdown.Total;
    SeatsErrorNone(w.flights[r.flightId].cabin, w.bookings, r.flightId, r.seatIds);
  }

  /** Over every run, when a commit is about to charge, the atomic call on the state of
      that moment, with the clock as read at the call's start, makes the same charge
      and is decided by the verdict and the supply alone: a decline is refused and
      reported, an empty supply leaves the charge and nothing else, and otherwise the
      next reference is booked. */
  lemma ChargesAreAtomic(from: Sys, ls: seq<Label>, t: ThreadId, v: PaymentResult)
    requires Initial(from) && PcOf(Exec(from, ls), t).Paying? && PcOf(Exec(from, ls), t).p.ToCharge?
    ensures var s := Exec(from, ls);
            var r, now := PcOf(s, t).request, PcOf(s, t).p.now;
            var (w, result) := CommitCall(s.w.(now := now), r, v);
            && now <= s.w.now && CheckError(s.w.(now := now), r) == None
            && w.charges == Step(s, Go(t, v)).w.charges
            && (!v.succeeded ==> result == Refused(PaymentDeclined) && w.audit == s.w.audit + [FailedEvent(r, v, now)]
                                 && w.bookings == s.w.bookings && w.references == s.w.references)
            && (v.succeeded && s.w.references == [] ==>
                  result == ReferencesExhausted && w == s.w.(now := now, charges := w.charges))
            && (v.succeeded && s.w.references != [] ==>
                  result.Booked? && result.booking.reference == s.w.references[0]
                  && w.charges == s.w.charges + [Charge(r.paymentToken, result.booking.totalCharged, true)])
  {
    hide Exec, Initial, CheckError, Due, DueFor, Trail, LocksFresh, NoDoubleBooking, BookedWell, ReferencesFresh, SeatsClear;
    var s := Exec(from, ls);
    StandingEver(from, ls);
    assert s.committer == Some(t);
    var pc := PcOf(s, t);
    ChecksHoldAtCharge(s.w, pc.request, pc.p.now, pc.p.quote);
  }

  lemma ChargeDecides(s: Sys, t: ThreadId, r: CommitRequest, now: Time, quote: Option<Quote>, v: PaymentResult, at: nat)
    returns (d: Decision)
    requires Standing(s.w, Paying(r, ToCharge(now, quote))) && SeatsClear(s.w, r, |r.seatIds|)
    ensures d.at == at && d.env == s.w.(now := now) && now <= s.w.now && d.verdict == v && d.record.request == r && !Misjudged(d)
    ensures var s' := PayStep(s, t, r, ToCharge(now, quote), v); Underway(s'.w, PcOf(s', t), d)
  {
    hide CheckError, Due, DueFor, CommitCall, Saved, CommitEvents, SeatsClear, LockStands;
    var w0 := s.w.(now := now);
    ChecksHoldAtCharge(s.w, r, now, quote);
    Writes(w0, r, v);
    d := Decision(at, w0, v, CommitRecord(r, CommitCall(w0, r, v).1));
    SameDue(s.w, PayStep(s, t, r, ToCharge(now, quote), v).w, r, quote);
  }

  lemma SameDue(w: World, w': World, r: CommitRequest, quote: Option<Quote>)
    requires w'.flights == w.flights
    ensures DueFor(w', r, quote) == DueFor(w, r, quote)
  {
    hide Breakdown.Total;
  }

  // ---- The moment of a refusal

  lemma RefusalDecides(s: Sys, r: CommitRequest, c: CheckPc, v: PaymentResult, at: nat) returns (d: Decision)
    requires Standing(s.w, Checking(r, c)) && SeatsClear(s.w, r, SeatsPassed(r, c)) && AfterCheck(s, r, c).Recording?
    ensures d.at == at && d.env == s.w.(now := ReadAt(s.w, c)) && ReadAt(s.w, c) <= s.w.now && d.verdict == v && d.record.request == r
    ensures Misjudged(d) <==> FoundLive(s.w, r, c)
    ensures Underway(s.w, AfterCheck(s, r, c), d)
  {
    hide CheckError, SeatsClear, CommitEvents;
    RefusalDecided(s, r, c);
    if FoundLive(s.w, r, c) {
      OvertakenMisjudges(s, r, c);
    }
    StartedBefore(s.w, r, c);
    CheckFrame(s, r, c);
    hide AfterCheck, FoundLive, Standing;
    var w0 := s.w.(now := ReadAt(s.w, c));
    d := Decision(at, w0, v, CommitRecord(r, AfterCheck(s, r, c).r.result));
    if !FoundLive(s.w, r, c) {
      TruthfulIsNotMisjudged(w0, r, d.record.result.error, d);
    }
  }

  lemma TruthfulIsNotMisjudged(w: World, r: CommitRequest, e: CommitError, d: Decision)
    requires CheckError(w, r) == Some(e) && d.env == w && d.record == CommitRecord(r, Refused(e))
    ensures !Misjudged(d)
  {
    hide CheckError;
    RefusalsAreTruthful(w, r, e);
  }

  lemma StartedBefore(w: World, r: CommitRequest, c: CheckPc)
    requires Standing(w, Checking(r, c))
    ensures ReadAt(w, c) <= w.now
  {
  }

  lemma OvertakenMisjudges(s: Sys, r: CommitRequest, c: CheckPc)
    requires FoundLive(s.w, r, c) && AfterCheck(s, r, c).Recording?
    ensures AfterCheck(s, r, c).r.ToLeave?
    ensures c.AtQuoteRaw? ==> AfterCheck(s, r, c).r.result == Refused(QuoteExpired)
    ensures c.AtLockRaw? ==> AfterCheck(s, r, c).r.result == Refused(LockExpired)
  {
  }

  // ---- Steps after the decision

  lemma PayContinues(s: Sys, t: ThreadId, r: CommitRequest, p: PayPc, v: PaymentResult, d: Decision)
    requires !p.ToCharge? && Underway(s.w, Paying(r, p), d)
    ensures var s' := PayStep(s, t, r, p, v); Underway(s'.w, PcOf(s', t), d)
  {
    hide Answered, After, DueFor, MakeBooking, FailedEvent, CommitEvents, Saved;
    if p.ToRecordDecline? {
      EventsNext(s.w.audit, FailedEvent(r, p.verdict, p.now));
      FailedIsNoQuote(r, p.verdict, p.now);
    }
  }

  lemma FailedIsNoQuote(r: CommitRequest, v: PaymentResult, now: Time)
    ensures !FailedEvent(r, v, now).QuoteCreated?
  {
  }

  lemma RecordContinues(s: Sys, t: ThreadId, r: CommitRequest, step: RecordPc, d: Decision)
    requires !step.ToLeave? && Underway(s.w, Recording(r, step), d) && PcOf(s, t) == Recording(r, step)
    ensures var s' := RecordStep(s, t, r, step); Underway(s'.w, PcOf(s', t), d)
  {
    hide Answered, After, CommitEvents, SaveBooking, Release;
    if step.ToAudit? {
      EventsNext(s.w.audit, CommittedEvent(step.booking));
    }
  }

  // ---- Steps of others

  lemma OtherEvents(s: Sys, l: Label)
    requires Mutex(s) && !CommitStep(s, l)
    ensures CommitEvents(Step(s, l).w.audit) == CommitEvents(s.w.audit)
  {
    hide AcquireStep, PriceSeats, DrawIds;
    if l.Go? {
      match PcOf(s, l.t)
      case Acquiring(want, a) => if want.AcquireOp? { AcquireFrame(s, l.t, want, a); }
      case Pricing(q) =>
        if q.ToDraw? { DrawsOnlyIds(s.w, q.request.sessionId); }
        if q.ToReport? { EventsNext(s.w.audit, BuildAuditEvent(q.made, q.priced)); }
      case _ =>
    }
  }

  lemma OtherOwned(s: Sys, l: Label)
    requires Mutex(s) && !CommitStep(s, l)
    ensures OwnedOf(Step(s, l).w) == OwnedOf(s.w)
  {
    hide Step, CommitEvents, CommitStep, Mutex;
    OtherStep(s, l);
    OtherEvents(s, l);
  }

  lemma UnderwayStays(w: World, w': World, pc: Pc, d: Decision)
    requires Underway(w, pc, d) && OwnedOf(w') == OwnedOf(w) && w'.flights == w.flights
    ensures Underway(w', pc, d)
  {
    hide Answered, After, CommitEvents, Saved, Mailed, Reported, DueFor;
    assert w'.references == w.references;
    if pc.Paying? && pc.p.ToName? {
      SameDue(w, w', pc.request, pc.p.quote);
      assert w.references != [] ==>
        OwnedOf(w'.(references := w'.references[1..])) == OwnedOf(w.(references := w.references[1..]));
    }
  }

  // ---- Every step

  lemma ExplainsElsewhere(s: Sys, l: Label, o: Owned, ds: seq<Decision>)
    requires Mutex(s) && !CommitStep(s, l) && Explains(s, o, ds)
    ensures Explains(Step(s, l), o, ds)
  {
    hide Step, CommitPc, CommitStep, Mutex, Chain, AfterAll, Underway, OwnedOf;
    OtherStep(s, l);
    OtherOwned(s, l);
    CatalogAndClock(s, l);
    if !Undecided(CommitPc(s)) {
      UnderwayStays(s.w, Step(s, l).w, CommitPc(s), ds[|ds| - 1]);
    }
  }

  lemma ChainNext(o: Owned, ds: seq<Decision>, d: Decision)
    requires Chain(o, ds) && OwnedOf(d.env) == AfterAll(o, ds) && Answered(d)
    requires forall i :: 0 <= i < |ds| ==> ds[i].at < d.at
    ensures Chain(o, ds + [d])
  {
    hide Answered, AfterAll;
    assert (ds + [d])[..|ds|] == ds;
  }

  /** A decision is added when the commit underway is decided. */
  lemma ExplainsDecided(s: Sys, s': Sys, o: Owned, ds: seq<Decision>, d: Decision)
    requires Explains(s, o, ds) && Undecided(CommitPc(s)) && !Undecided(CommitPc(s')) && s'.commits == s.commits
    requires d.env == s.w.(now := d.env.now) && Underway(s'.w, CommitPc(s'), d)
    requires forall i :: 0 <= i < |ds| ==> ds[i].at < d.at
    ensures Explains(s', o, ds + [d])
  {
    hide Chain, AfterAll, Answered, After, CommitEvents;
    ChainNext(o, ds, d);
  }

  lemma ExplainsContinued(s: Sys, s': Sys, o: Owned, ds: seq<Decision>)
    requires Explains(s, o, ds) && s'.commits == s.commits
    requires !Undecided(CommitPc(s)) && !Undecided(CommitPc(s')) && Underway(s'.w, CommitPc(s'), ds[|ds| - 1])
    ensures Explains(s', o, ds)
  {
    hide Chain, AfterAll, Underway;
  }

  lemma ExplainsUndecided(s: Sys, s': Sys, o: Owned, ds: seq<Decision>)
    requires Explains(s, o, ds) && s'.commits == s.commits && s'.w == s.w
    requires Undecided(CommitPc(s)) && Undecided(CommitPc(s'))
    ensures Explains(s', o, ds)
  {
    hide Chain, AfterAll, Underway;
  }

  lemma ExplainsReturned(s: Sys, t: ThreadId, r: CommitRequest, result: CommitResult, o: Owned, ds: seq<Decision>)
    requires Explains(s, o, ds) && s.committer == Some(t) && PcOf(s, t) == Recording(r, ToLeave(result))
    ensures Explains(RecordStep(s, t, r, ToLeave(result)), o, ds)
  {
    hide Chain, After, OwnedOf, Answered;
    assert CommitPc(s) == Recording(r, ToLeave(result));
  }

  /** One step keeps the explanation, adding a decision if it decides a commit. */
  lemma ExplainsStep(s: Sys, l: Label, o: Owned, ds: seq<Decision>, at: nat) returns (ds': seq<Decision>)
    requires Sane(s) && Standing(s.w, CommitPc(s)) && Explains(s, o, ds)
    requires forall i :: 0 <= i < |ds| ==> ds[i].at < at
    ensures Explains(Step(s, l), o, ds')
    ensures ds' == ds
            || (|ds'| == |ds| + 1 && ds'[..|ds|] == ds && ds'[|ds|].at == at && TakenAt(s, l, ds'[|ds|]))
  {
    hide Explains, Standing, Underway, AfterCheck, PayStep, RecordStep, AcquireStep, QuoteStep, Trail, LocksFresh;
    hide NoDoubleBooking, BookedWell, ReferencesFresh, SeatsClear;
    ds' := ds;
    if !CommitStep(s, l) {
      ExplainsElsewhere(s, l, o, ds);
    } else {
      match PcOf(s, l.t)
      case CommitWaiting(r) =>
        ExplainsUndecidedOrSame(s, l, o, ds);
      case Checking(r, c) =>
        CheckFrame(s, r, c);
        if AfterCheck(s, r, c).Recording? {
          var d := RefusalDecides(s, r, c, l.verdict, at);
          ExplainsDecided(s, Step(s, l), o, ds, d);
          ds' := ds + [d];
        } else {
          ExplainsUndecided(s, Step(s, l), o, ds);
        }
      case Paying(r, p) =>
        PayFrame(s, l.t, r, p, l.verdict);
        if p.ToCharge? {
          ChargeFollows(s, l.t, r, p.now, p.quote, l.verdict);
          var d := ChargeDecides(s, l.t, r, p.now, p.quote, l.verdict, at);
          ExplainsDecided(s, Step(s, l), o, ds, d);
          ds' := ds + [d];
        } else {
          NowUnderway(s, o, ds);
          PayContinues(s, l.t, r, p, l.verdict, ds[|ds| - 1]);
          StillDecided(PcOf(Step(s, l), l.t), ds[|ds| - 1], Step(s, l).w);
          ExplainsContinued(s, Step(s, l), o, ds);
        }
      case Recording(r, step) =>
        RecordFrame(s, l.t, r, step);
        if step.ToLeave? {
          ExplainsReturned(s, l.t, r, step.result, o, ds);
        } else {
          NowUnderway(s, o, ds);
          RecordContinues(s, l.t, r, step, ds[|ds| - 1]);
          ExplainsContinued(s, Step(s, l), o, ds);
        }
    }
  }

  lemma ExplainsUndecidedOrSame(s: Sys, l: Label, o: Owned, ds: seq<Decision>)
    requires Mutex(s) && Explains(s, o, ds) && l.Go? && PcOf(s, l.t).CommitWaiting?
    ensures Explains(Step(s, l), o, ds)
  {
    hide Explains, AcquireStep, QuoteStep, AfterCheck, PayStep, RecordStep;
    if s.committer.None? {
      ExplainsUndecided(s, Step(s, l), o, ds);
    }
  }

  lemma NowUnderway(s: Sys, o: Owned, ds: seq<Decision>)
    requires Explains(s, o, ds) && !Undecided(CommitPc(s))
    ensures |ds| > 0 && Underway(s.w, CommitPc(s), ds[|ds| - 1])
  {
    hide Chain, Underway, AfterAll;
  }

  lemma StillDecided(pc: Pc, d: Decision, w: World)
    requires Underway(w, pc, d)
    ensures !Undecided(pc)
  {
  }

  lemma ChargeFollows(s: Sys, t: ThreadId, r: CommitRequest, now: Time, quote: Option<Quote>, v: PaymentResult)
    ensures !Undecided(PcOf(PayStep(s, t, r, ToCharge(now, quote), v), t))
  {
  }

  // ---- Every run

  lemma OccurredStill(from: Sys, ls: seq<Label>, l: Label, d: Decision)
    requires Occurred(from, ls, d)
    ensures Occurred(from, ls + [l], d)
  {
    hide Exec, TakenAt;
    assert (ls + [l])[..d.at] == ls[..d.at];
  }

  lemma {:induction false} ExplainsExec(from: Sys, ls: seq<Label>) returns (ds: seq<Decision>)
    requires Initial(from)
    ensures Explains(Exec(from, ls), OwnedOf(from.w), ds)
    ensures forall i :: 0 <= i < |ds| ==> Occurred(from, ls, ds[i])
    decreases |ls|
  {
    hide Explains, Exec, Standing, Sane, Step;
    if ls == [] {
      ds := [];
      NothingToExplain(from);
    } else {
      var n := |ls| - 1;
      var before, l := ls[..n], ls[n];
      assert ls == before + [l];
      var ds0 := ExplainsExec(from, before);
      StandingEver(from, before);
      ExecNext(from, before, l);
      ds := ExplainsStep(Exec(from, before), l, OwnedOf(from.w), ds0, n);
      forall i | 0 <= i < |ds| ensures Occurred(from, ls, ds[i]) {
        if i < |ds0| {
          assert ds[i] == ds0[i];
          OccurredStill(from, before, l, ds0[i]);
        }
      }
    }
  }

  lemma NothingToExplain(from: Sys)
    requires Initial(from)
    ensures Explains(Exec(from, []), OwnedOf(from.w), [])
  {
  }

  lemma OccurredIsTraced(from: Sys, ls: seq<Label>, d: Decision)
    requires Initial(from) && Occurred(from, ls, d)
    ensures Traced(from, ls, d)
  {
    var before, t := ls[..d.at], ls[d.at].t;
    assert PcOf(from, t).Idle?;
    hide Exec, Initial, StateAt, ReadFirst, StartedBy, FoundLive, Overtaken, Misjudged;
    var pc := PcOf(Exec(from, before), t);
    if !(pc.Checking? && pc.c.AtFlight?) {
      var j := Began(from, before, t);
      assert StartedBy(from, before, t, d.record.request, d.env.now, j);
    }
    if Misjudged(d) {
      OnlySecondReads(Exec(from, before).w, pc);
      var k := FoundLiveMeansOvertaken(from, before, t);
      assert ReadFirst(from, before, t, k) && Overtaken(StateAt(from, before, k).w, Exec(from, before).w, d.record.request, pc.c);
    }
      assert Decider(ls, d) == t;
    assert Misjudged(d) ==> exists k :: ReadFirst(from, before, t, k) && Overtaken(StateAt(from, before, k).w, Exec(from, before).w, d.record.request, pc.c);
  }

  lemma StoredWellTimed(s: Sys, id: QuoteId)
    requires Trail(s) && id in s.w.quotes
    ensures s.w.quotes[id].id == id && s.w.quotes[id].expiresAt == s.w.quotes[id].createdAt + 1_800_000_000
  {
    hide IdsFresh, Told, Reported, Cited, Mutex, PricingOk;
  }

  /** The booking answers the request, and its amount is the flight's base fare or the
      total of the stored quote the request named, which had not expired at the clock
      reading of the commit. */
  ghost predicate BookedInRun(w: World, r: CommitRequest, b: Booking) {
    && b.flightId == r.flightId && b.seatIds == r.seatIds && b.passengers == r.passengers
    && b.status == Confirmed && b.confirmedAt <= w.now
    && r.flightId in w.flights
    && (r.quoteId.None? ==> b.quoteId == QuoteId("Q000-WS") && b.totalCharged == w.flights[r.flightId].baseFare)
    && (r.quoteId.Some? ==>
          && r.quoteId.value in w.quotes && b.quoteId == r.quoteId.value
          && b.totalCharged == Breakdown.Total(w.quotes[r.quoteId.value].breakdown)
          && b.confirmedAt < w.quotes[r.quoteId.value].createdAt + 1_800_000_000)
  }

  lemma BookedAtDecision(s: Sys, d: Decision)
    requires Trail(s) && Answered(d) && d.record.result.Booked?
    requires d.env.now <= s.w.now && d.env == s.w.(now := d.env.now)
    ensures BookedInRun(s.w, d.record.request, d.record.result.booking)
  {
    hide CommitCall, Trail, Breakdown.Total;
    var r := d.record.request;
    BookedMeans(d.env, r, d.verdict);
    if r.quoteId.Some? {
      StoredWellTimed(s, r.quoteId.value);
      NotExpired(d.env, r, d.verdict);
    }
  }

  lemma NotExpired(w: World, r: CommitRequest, v: PaymentResult)
    requires CommitCall(w, r, v).1.Booked? && r.flightId in w.flights && r.quoteId.Some? && r.quoteId.value in w.quotes
    ensures w.now < w.quotes[r.quoteId.value].expiresAt
  {
    hide CommitCall;
    RefusalsAreTruthful(w, r, QuoteExpired);
    OutcomeMeans(w, r, v);
  }

  lemma BookedStill(w: World, w': World, r: CommitRequest, b: Booking)
    requires BookedInRun(w, r, b) && Later(w, w')
    ensures BookedInRun(w', r, b)
  {
    hide Breakdown.Total;
  }

  /** Over every run, each finished commit answered with a booking: the booking answers
      its request, and charged the base fare, or the total of the quote it named. */
  lemma EveryBookingIsAnswered(from: Sys, ls: seq<Label>, i: nat)
    requires Initial(from) && i < |Exec(from, ls).commits| && Exec(from, ls).commits[i].result.Booked?
    ensures var s := Exec(from, ls); BookedInRun(s.w, s.commits[i].request, s.commits[i].result.booking)
  {
    hide Exec, Initial, Answered, BookedInRun, Sane, After, OwnedOf, TakenAt, Underway, CommitPc;
    var ds := ExplainsExec(from, ls);
    var d := ds[i];
    ChainAt(OwnedOf(from.w), ds, i);
    var s := Exec(from, ls[..d.at]);
    TakenOnState(s, ls[d.at], d);
    SaneEver(from, ls[..d.at]);
    TrailOf(s);
    hide Trail;
    BookedAtDecision(s, d);
    assert ls == ls[..d.at] + ls[d.at..];
    ExecAppend(from, ls[..d.at], ls[d.at..]);
    LaterEver(s, ls[d.at..]);
    BookedStill(s.w, Exec(from, ls).w, d.record.request, d.record.result.booking);
  }

  lemma TrailOf(s: Sys)
    requires Sane(s)
    ensures Trail(s)
  {
  }

  lemma TakenOnState(s: Sys, l: Label, d: Decision)
    requires TakenAt(s, l, d)
    ensures d.env.now <= s.w.now && d.env == s.w.(now := d.env.now)
  {
  }

  /** Whenever no commit is in progress, some sequence of atomic commits, one for each
      finished commit and in the order of return, taken at moments of the run in that
      same order and with the clock each call read, gives every answer recorded and
      writes all bookings, mail, charges, references and commit events there are; the
      only exceptions are commits told that a quote or lock has expired which was
      stored between the two reads of their check, and those write nothing. */
  lemma CommitsAreAtomic(from: Sys, ls: seq<Label>) returns (ds: seq<Decision>)
    requires Initial(from) && Exec(from, ls).committer.None?
    ensures var s := Exec(from, ls);
            && |ds| == |s.commits| && (forall i :: 0 <= i < |ds| ==> ds[i].record == s.commits[i])
            && (forall i :: 0 <= i < |ds| ==> Occurred(from, ls, ds[i]) && Traced(from, ls, ds[i]) && Answered(ds[i]))
            && (forall i :: 0 < i < |ds| ==> ds[i - 1].at < ds[i].at && OwnedOf(ds[i].env) == After(ds[i - 1]))
            && (ds != [] ==> OwnedOf(ds[0].env) == OwnedOf(from.w))
            && OwnedOf(s.w) == if ds == [] then OwnedOf(from.w) else After(ds[|ds| - 1])
  {
    hide Exec, TakenAt, Answered, After, OwnedOf, Traced;
    ds := ExplainsExec(from, ls);
    var o := OwnedOf(from.w);
    forall i | 0 <= i < |ds|
      ensures Answered(ds[i]) && OwnedOf(ds[i].env) == (if i == 0 then o else After(ds[i - 1]))
      ensures i > 0 ==> ds[i - 1].at < ds[i].at
      ensures Traced(from, ls, ds[i])
    {
      ChainAt(o, ds, i);
      OccurredIsTraced(from, ls, ds[i]);
    }
    if ds != [] {
      ChainAt(o, ds, 0);
    }
  }

  lemma {:induction false} ChainAt(o: Owned, ds: seq<Decision>, i: nat)
    requires Chain(o, ds) && i < |ds|
    ensures Answered(ds[i]) && OwnedOf(ds[i].env) == if i == 0 then o else After(ds[i - 1])
    ensures i > 0 ==> ds[i - 1].at < ds[i].at
    decreases |ds|
  {
    hide Answered, After, OwnedOf;
    if i < |ds| - 1 {
      ChainAt(o, ds[..|ds| - 1], i);
    }
  }
}
