/** The concurrent system: any number of threads, each running acquire, quote or
    commit one store call at a time, interleaved with each other and the clock. */
module Steps {
  import opened Entities
  import opened LockTables
  import opened LockRuns
  import opened Breakdown
  import opened Bookings
  import opened QuoteStores
  import opened Worlds
  import opened Quoting
  import opened Committing

  type ThreadId = nat

  datatype AcquirePc =
    | ToCheck
    | ToInstall
    | ToIndex(record: LockRecord, done: nat)
    | ToAnswer(answer: AcquireResult)

  datatype QuotePc =
    | ToRead(request: QuoteRequest, now: Time)
    | ToDraw(request: QuoteRequest, now: Time, priced: Priced)
    | ToStore(made: Quote, priced: Priced)
    | ToReport(made: Quote, priced: Priced)

  datatype CheckPc =
    | AtFlight
    | AtQuote(now: Time)
    | AtQuoteRaw(now: Time)
    | AtSeat(now: Time, quote: Option<Quote>, seated: nat)
    | AtLock(now: Time, quote: Option<Quote>)
    | AtLockOwner(now: Time, quote: Option<Quote>)
    | AtLockRaw(now: Time, quote: Option<Quote>)

  datatype PayPc =
    | ToCharge(now: Time, quote: Option<Quote>)
    | ToRecordDecline(now: Time, verdict: PaymentResult)
    | ToName(now: Time, quote: Option<Quote>)

  datatype RecordPc =
    | ToSave(booking: Booking)
    | ToMail(booking: Booking)
    | ToRelease(booking: Booking)
    | ToAudit(booking: Booking)
    | ToLeave(result: CommitResult)

  /** What a thread is about to do. The seat-lock store's own lock is held while
      Acquiring; the commit lock is held while Checking, Paying and Recording. */
  datatype Pc =
    | Idle
    | AcquireWaiting(want: LockOp)
    | Acquiring(want: LockOp, a: AcquirePc)
    | Pricing(q: QuotePc)
    | CommitWaiting(request: CommitRequest)
    | Checking(request: CommitRequest, c: CheckPc)
    | Paying(request: CommitRequest, p: PayPc)
    | Recording(request: CommitRequest, r: RecordPc)

  predicate InCommit(pc: Pc) {
    pc.Checking? || pc.Paying? || pc.Recording?
  }

  /** A finished commit call. */
  datatype CommitRecord = CommitRecord(request: CommitRequest, result: CommitResult)

  /** The shared state, the owners of the two locks, what each thread is about to
      do, and three histories: the seat-lock store's calls in the order it served
      them, the finished commits in order, and the answers to quote calls in order. */
  datatype Sys = Sys(
    w: World, committer: Option<ThreadId>, holder: Option<ThreadId>, pcs: map<ThreadId, Pc>,
    log: seq<LockCall>, commits: seq<CommitRecord>, answers: seq<QuoteResult>)

  /** What can happen next: time passes, an idle thread calls a service, or a
      thread takes its next step (the verdict matters to a charge only). */
  datatype Label =
    | Tick(elapsed: nat)
    | CallAcquire(t: ThreadId, flightId: FlightId, seats: seq<SeatId>, session: SessionId)
    | CallQuote(t: ThreadId, quoteRequest: QuoteRequest)
    | CallCommit(t: ThreadId, commitRequest: CommitRequest)
    | Go(t: ThreadId, verdict: PaymentResult)

  function PcOf(s: Sys, t: ThreadId): Pc {
    if t in s.pcs then s.pcs[t] else Idle
  }

  function To(s: Sys, t: ThreadId, pc: Pc): Sys {
    s.(pcs := s.pcs[t := pc])
  }

  function CabinOf(w: World, flightId: FlightId): Cabin {
    if flightId in w.flights then w.flights[flightId].cabin else map[]
  }

  function DueFor(w: World, r: CommitRequest, quote: Option<Quote>): Cents {
    if quote.Some? then Total(quote.value.breakdown)
    else if r.flightId in w.flights then w.flights[r.flightId].baseFare
    else 0
  }

  /** A step of acquire inside the store's lock; the lock is given up with the answer. */
  function AcquireStep(s: Sys, t: ThreadId, want: LockOp, a: AcquirePc): Sys
    requires want.AcquireOp?
  {
    match a
    case ToCheck =>
      var conflicts := Conflicts(s.w.locks, want.seats, want.session, want.at);
      To(s, t, Acquiring(want, if conflicts != [] then ToAnswer(Conflict(conflicts)) else ToInstall))
    case ToInstall =>
      if s.w.lockIds == [] then To(s, t, Acquiring(want, ToAnswer(IdsExhausted)))
      else
        var r := NewRecord(s.w.lockIds[0], want.flightId, want.seats, want.session, want.at);
        To(s.(w := s.w.(lockIds := s.w.lockIds[1..], locks := s.w.locks.(byLock := s.w.locks.byLock[r.lockId := r]))),
           t, Acquiring(want, ToIndex(r, 0)))
    case ToIndex(r, done) =>
      if done < |want.seats| then
        To(s.(w := s.w.(locks := s.w.locks.(bySeat := s.w.locks.bySeat[want.seats[done] := r]))),
           t, Acquiring(want, ToIndex(r, done + 1)))
      else To(s, t, Acquiring(want, ToAnswer(Granted(r))))
    case ToAnswer(answer) =>
      To(s.(holder := None, log := s.log + [LockCall(want, Some(answer))]), t, Idle)
  }

  /** A quote call ends with an answer. */
  function AnswerQuote(s: Sys, t: ThreadId, answer: QuoteResult): Sys {
    To(s.(answers := s.answers + [answer]), t, Idle)
  }

  function QuoteStep(s: Sys, t: ThreadId, q: QuotePc): Sys {
    match q
    case ToRead(r, now) =>
      if r.flightId !in s.w.flights then AnswerQuote(s, t, QuoteNotFound)
      else if DaysBefore(s.w.flights[r.flightId], now) < 0 then AnswerQuote(s, t, FlightAlreadyDeparted)
      else
        var booked := ActiveBookedSeatCount(s.w.bookings, r.flightId);
        To(s, t, Pricing(ToDraw(r, now, PriceSeats(s.w.flights[r.flightId], r.flightId, r.seatIds, booked, now))))
    case ToDraw(r, now, priced) =>
      var (w, ids) := DrawIds(s.w, r.sessionId);
      if ids.None? then AnswerQuote(s.(w := w), t, QuoteIdsExhausted)
      else To(s.(w := w), t, Pricing(ToStore(MakeQuote(ids.value.1, ids.value.0, r, priced, now), priced)))
    case ToStore(made, priced) =>
      To(s.(w := s.w.(quotes := s.w.quotes[made.id := made])), t, Pricing(ToReport(made, priced)))
    case ToReport(made, priced) =>
      AnswerQuote(s.(w := s.w.(audit := s.w.audit + [BuildAuditEvent(made, priced)])), t, Quoted(made))
  }

  /** Leave with the error, or go on. */
  function Unless(error: Option<CommitError>, r: CommitRequest, next: Pc): Pc {
    if error.Some? then Recording(r, ToLeave(Refused(error.value))) else next
  }

  function StoredRecord(w: World, id: Option<LockId>): Option<LockRecord> {
    if id.Some? then Get(w.locks, id.value) else None
  }

  /** What a commit does next after one of its checks; checks change nothing else.
      Its calls into the seat-lock store wait until the store's lock is free. */
  function AfterCheck(s: Sys, r: CommitRequest, c: CheckPc): Pc {
    match c
    case AtFlight =>
      Unless(if r.flightId in s.w.flights then None else Some(FlightNotFound), r, Checking(r, AtQuote(s.w.now)))
    case AtQuote(now) =>
      if r.quoteId.None? then Checking(r, AtSeat(now, None, 0))
      else
        var valid := GetValidQuote(s.w.quotes, r.quoteId.value, now);
        Checking(r, if valid.Some? then AtSeat(now, valid, 0) else AtQuoteRaw(now))
    case AtQuoteRaw(now) =>
      var raw := if r.quoteId.Some? then GetQuote(s.w.quotes, r.quoteId.value) else None;
      Recording(r, ToLeave(Refused(if raw.None? then NoSuchQuote else QuoteExpired)))
    case AtSeat(now, quote, i) =>
      if i < |r.seatIds| then
        var error := SeatError(CabinOf(s.w, r.flightId), s.w.bookings, r.flightId, r.seatIds[i]);
        Unless(error, r, Checking(r, AtSeat(now, quote, i + 1)))
      else Checking(r, AtLock(now, quote))
    case AtLock(now, quote) =>
      if r.lockId.None? then Paying(r, ToCharge(now, quote))
      else if s.holder.Some? then Checking(r, c)
      else Checking(r, if IsValid(s.w.locks, r.lockId.value, now) then AtLockOwner(now, quote) else AtLockRaw(now, quote))
    case AtLockOwner(now, quote) =>
      if s.holder.Some? then Checking(r, c)
      else Unless(OwnershipError(StoredRecord(s.w, r.lockId), r.sessionId), r, Paying(r, ToCharge(now, quote)))
    case AtLockRaw(now, quote) =>
      if s.holder.Some? then Checking(r, c)
      else Recording(r, ToLeave(Refused(if StoredRecord(s.w, r.lockId).None? then LockNotFound else LockExpired)))
  }

  function PayStep(s: Sys, t: ThreadId, r: CommitRequest, p: PayPc, verdict: PaymentResult): Sys {
    match p
    case ToCharge(now, quote) =>
      var charge := Charge(r.paymentToken, DueFor(s.w, r, quote), verdict.succeeded);
      To(s.(w := s.w.(charges := s.w.charges + [charge])), t,
         Paying(r, if verdict.succeeded then ToName(now, quote) else ToRecordDecline(now, verdict)))
    case ToRecordDecline(now, refusal) =>
      To(s.(w := s.w.(audit := s.w.audit + [FailedEvent(r, refusal, now)])), t, Recording(r, ToLeave(Refused(PaymentDeclined))))
    case ToName(now, quote) =>
      if s.w.references == [] then To(s, t, Recording(r, ToLeave(ReferencesExhausted)))
      else
        To(s.(w := s.w.(references := s.w.references[1..])), t,
           Recording(r, ToSave(MakeBooking(s.w.references[0], r, DueFor(s.w, r, quote), quote, now))))
  }

  function RecordStep(s: Sys, t: ThreadId, r: CommitRequest, step: RecordPc): Sys {
    match step
    case ToSave(b) => To(s.(w := s.w.(bookings := SaveBooking(s.w.bookings, b))), t, Recording(r, ToMail(b)))
    case ToMail(b) => To(s.(w := s.w.(emails := s.w.emails + [b])), t, Recording(r, ToRelease(b)))
    case ToRelease(b) =>
      if r.lockId.None? then To(s, t, Recording(r, ToAudit(b)))
      else if s.holder.Some? then s
      else
        To(s.(w := s.w.(locks := Release(s.w.locks, r.lockId.value)), log := s.log + [LockCall(ReleaseOp(r.lockId.value), None)]),
           t, Recording(r, ToAudit(b)))
    case ToAudit(b) => To(s.(w := s.w.(audit := s.w.audit + [CommittedEvent(b)])), t, Recording(r, ToLeave(Booked(b))))
    case ToLeave(result) => To(s.(committer := None, commits := s.commits + [CommitRecord(r, result)]), t, Idle)
  }

  /** One step; a label that is not enabled changes nothing. */
  function Step(s: Sys, l: Label): Sys {
    match l
    case Tick(elapsed) => s.(w := s.w.(now := s.w.now + elapsed))
    case CallAcquire(t, flightId, seats, session) =>
      if PcOf(s, t).Idle? then To(s, t, AcquireWaiting(AcquireOp(flightId, seats, session, s.w.now))) else s
    case CallQuote(t, r) => if PcOf(s, t).Idle? then To(s, t, Pricing(ToRead(r, s.w.now))) else s
    case CallCommit(t, r) => if PcOf(s, t).Idle? then To(s, t, CommitWaiting(r)) else s
    case Go(t, verdict) =>
      match PcOf(s, t)
      case Idle => s
      case AcquireWaiting(want) => if s.holder.None? then To(s.(holder := Some(t)), t, Acquiring(want, ToCheck)) else s
      case Acquiring(want, a) => if want.AcquireOp? then AcquireStep(s, t, want, a) else s
      case Pricing(q) => QuoteStep(s, t, q)
      case CommitWaiting(r) => if s.committer.None? then To(s.(committer := Some(t)), t, Checking(r, AtFlight)) else s
      case Checking(r, c) => To(s, t, AfterCheck(s, r, c))
      case Paying(r, p) => PayStep(s, t, r, p, verdict)
      case Recording(r, step) => RecordStep(s, t, r, step)
  }

  function Exec(s: Sys, ls: seq<Label>): Sys
    decreases |ls|
  {
    if ls == [] then s else Exec(Step(s, ls[0]), ls[1..])
  }

  lemma {:induction false} ExecAppend(s: Sys, a: seq<Label>, b: seq<Label>)
    ensures Exec(s, a + b) == Exec(Exec(s, a), b)
    decreases |a|
  {
    hide Step;
    if a == [] {
      assert a + b == b;
    } else {
      assert (a + b)[1..] == a[1..] + b;
      ExecAppend(Step(s, a[0]), a[1..], b);
    }
  }

  lemma ExecNext(s: Sys, ls: seq<Label>, l: Label)
    ensures Exec(s, ls + [l]) == Step(Exec(s, ls), l)
  {
    hide Step;
    ExecAppend(s, ls, [l]);
    assert Exec(Step(Exec(s, ls), l), [l][1..]) == Step(Exec(s, ls), l);
  }

  /** Nothing has happened yet, and every id supply is free of repetitions. */
  ghost predicate Initial(s: Sys) {
    && s.w.quotes == map[] && s.w.locks == EMPTY_TABLE
    && s.w.bookings == [] && s.w.emails == [] && s.w.audit == [] && s.w.charges == []
    && Distinct(s.w.references) && Distinct(s.w.quoteIds) && Distinct(s.w.lockIds)
    && s.committer == None && s.holder == None && s.pcs == map[] && s.log == [] && s.commits == [] && s.answers == []
  }

  // ---- Mutual exclusion

  ghost predicate Mutex(s: Sys) {
    forall t: ThreadId ::
      (InCommit(PcOf(s, t)) <==> s.committer == Some(t)) && (PcOf(s, t).Acquiring? <==> s.holder == Some(t))
  }

  /** What the owner of the commit lock is about to do. */
  function CommitPc(s: Sys): Pc {
    if s.committer.Some? then PcOf(s, s.committer.value) else Idle
  }

  /** The step belongs to a commit call. */
  predicate CommitStep(s: Sys, l: Label) {
    l.Go? && (InCommit(PcOf(s, l.t)) || PcOf(s, l.t).CommitWaiting?)
  }

  // ---- What each kind of step leaves alone

  ghost predicate OnlyThread(s: Sys, s': Sys, t: ThreadId) {
    forall u: ThreadId :: u != t ==> PcOf(s', u) == PcOf(s, u)
  }

  /** An acquire touches only the lock table, the lock ids, the store's lock and the log. */
  lemma AcquireFrame(s: Sys, t: ThreadId, want: LockOp, a: AcquirePc)
    requires want.AcquireOp?
    ensures var s', pc' := AcquireStep(s, t, want, a), PcOf(AcquireStep(s, t, want, a), t);
            && s' == s.(w := s.w.(locks := s'.w.locks, lockIds := s'.w.lockIds), holder := s'.holder, pcs := s'.pcs, log := s'.log)
            && OnlyThread(s, s', t)
            && if a.ToAnswer? then pc'.Idle? && s'.holder.None? && s'.w == s.w
               else pc'.Acquiring? && pc'.want == want && s'.holder == s.holder && s'.log == s.log
  {
    hide Conflicts, NewRecord;
  }

  /** A quote touches only the quotes, the audit log and the id supplies it draws from. */
  lemma QuoteFrame(s: Sys, t: ThreadId, q: QuotePc)
    ensures var s', pc' := QuoteStep(s, t, q), PcOf(QuoteStep(s, t, q), t);
            && s'.w == s.w.(quotes := s'.w.quotes, audit := s'.w.audit, quoteIds := s'.w.quoteIds, sessionIds := s'.w.sessionIds)
            && s' == s.(w := s'.w, pcs := s'.pcs, answers := s'.answers) && OnlyThread(s, s', t)
            && (pc'.Pricing? || pc'.Idle?)
  {
    hide PriceSeats, BuildAuditEvent, ActiveBookedSeatCount, MakeQuote, DaysBefore, DrawIds;
    if q.ToDraw? {
      DrawsOnlyIds(s.w, q.request.sessionId);
    }
  }

  /** A check is followed by the next check, by payment, or by a refusal. */
  lemma CheckFrame(s: Sys, r: CommitRequest, c: CheckPc)
    ensures var pc' := AfterCheck(s, r, c);
            InCommit(pc') && pc'.request == r
            && (pc'.Paying? ==> pc'.p.ToCharge?) && (pc'.Recording? ==> pc'.r.ToLeave? && pc'.r.result.Refused?)
  {
    hide SeatError, IsValid, Get, GetQuote, GetValidQuote, OwnershipError;
  }

  /** Paying touches only the charges, the audit log and the references. */
  lemma PayFrame(s: Sys, t: ThreadId, r: CommitRequest, p: PayPc, verdict: PaymentResult)
    ensures var s', pc' := PayStep(s, t, r, p, verdict), PcOf(PayStep(s, t, r, p, verdict), t);
            && s'.w == s.w.(charges := s'.w.charges, audit := s'.w.audit, references := s'.w.references)
            && s' == s.(w := s'.w, pcs := s'.pcs) && OnlyThread(s, s', t)
            && InCommit(pc') && !pc'.Checking? && pc'.request == r
  {
    hide DueFor, MakeBooking, FailedEvent;
  }

  /** Recording a booking leaves quotes, the catalog and the id supplies alone. */
  lemma RecordFrame(s: Sys, t: ThreadId, r: CommitRequest, step: RecordPc)
    requires PcOf(s, t) == Recording(r, step)
    ensures var s', pc' := RecordStep(s, t, r, step), PcOf(RecordStep(s, t, r, step), t);
            && s'.w == s.w.(locks := s'.w.locks, bookings := s'.w.bookings, emails := s'.w.emails, audit := s'.w.audit)
            && s' == s.(w := s'.w, pcs := s'.pcs, committer := s'.committer, commits := s'.commits, log := s'.log)
            && OnlyThread(s, s', t)
            && if step.ToLeave? then pc'.Idle? && s'.committer.None? && s'.w == s.w && s'.log == s.log
               else pc'.Recording? && pc'.request == r && s'.committer == s.committer && s'.commits == s.commits
  {
    hide Release, SaveBooking, CommittedEvent;
  }

  lemma MutexFrom(s: Sys, s': Sys, t: ThreadId)
    requires Mutex(s) && OnlyThread(s, s', t)
    requires InCommit(PcOf(s', t)) <==> s'.committer == Some(t)
    requires PcOf(s', t).Acquiring? <==> s'.holder == Some(t)
    requires s'.committer != s.committer ==> (s.committer.None? || s.committer == Some(t)) && (s'.committer.None? || s'.committer == Some(t))
    requires s'.holder != s.holder ==> (s.holder.None? || s.holder == Some(t)) && (s'.holder.None? || s'.holder == Some(t))
    ensures Mutex(s')
  {
  }

  /** Each lock is held by at most the one thread that is inside its critical section. */
  lemma MutexStep(s: Sys, l: Label)
    requires Mutex(s)
    ensures Mutex(Step(s, l))
  {
    hide AcquireStep, QuoteStep, AfterCheck, PayStep, RecordStep;
    if l.Go? {
      StepFrames(s, l);
      MutexFrom(s, Step(s, l), l.t);
    } else if !l.Tick? {
      MutexFrom(s, Step(s, l), l.t);
    }
  }

  lemma {:induction false} MutexExec(s: Sys, ls: seq<Label>)
    requires Mutex(s)
    ensures Mutex(Exec(s, ls))
    decreases |ls|
  {
    hide Mutex, Step;
    if ls != [] {
      MutexStep(s, ls[0]);
      MutexExec(Step(s, ls[0]), ls[1..]);
    }
  }

  /** In every reachable state the commit lock is held by exactly the thread inside a
      commit, if any, and the store's lock by exactly the thread inside an acquire. */
  lemma MutexEver(from: Sys, ls: seq<Label>, t: ThreadId, u: ThreadId)
    requires Initial(from)
    ensures var s := Exec(from, ls);
            && Mutex(s)
            && (InCommit(PcOf(s, t)) && InCommit(PcOf(s, u)) ==> t == u)
            && (PcOf(s, t).Acquiring? && PcOf(s, u).Acquiring? ==> t == u)
  {
    MutexExec(from, ls);
  }

  lemma StepFrames(s: Sys, l: Label)
    requires l.Go?
    ensures OnlyThread(s, Step(s, l), l.t)
    ensures var s', pc, pc' := Step(s, l), PcOf(s, l.t), PcOf(Step(s, l), l.t);
            && (if pc.CommitWaiting? && s.committer.None? then s'.committer == Some(l.t) && pc'.Checking?
                else if pc.Recording? && pc.r.ToLeave? then s'.committer.None? && pc'.Idle?
                else s'.committer == s.committer && InCommit(pc') == InCommit(pc))
            && (if pc.AcquireWaiting? && s.holder.None? then s'.holder == Some(l.t) && pc'.Acquiring?
                else if pc.Acquiring? && pc.want.AcquireOp? && pc.a.ToAnswer? then s'.holder.None? && pc'.Idle?
                else s'.holder == s.holder && pc'.Acquiring? == pc.Acquiring?)
  {
    hide AcquireStep, QuoteStep, AfterCheck, PayStep, RecordStep;
    match PcOf(s, l.t)
    case Acquiring(want, a) => if want.AcquireOp? { AcquireFrame(s, l.t, want, a); }
    case Pricing(q) => QuoteFrame(s, l.t, q);
    case Checking(r, c) => CheckFrame(s, r, c);
    case Paying(r, p) => PayFrame(s, l.t, r, p, l.verdict);
    case Recording(r, step) => RecordFrame(s, l.t, r, step);
    case _ =>
  }

  /** Steps outside commit leave bookings, mail, charges, references and the
      committing thread alone. */
  lemma OtherStep(s: Sys, l: Label)
    requires Mutex(s) && !CommitStep(s, l)
    ensures var s' := Step(s, l);
            && s'.w.bookings == s.w.bookings && s'.w.emails == s.w.emails && s'.w.charges == s.w.charges
            && s'.w.references == s.w.references && s'.commits == s.commits && s'.committer == s.committer
            && CommitPc(s') == CommitPc(s)
  {
    hide AcquireStep, QuoteStep;
    if l.Go? {
      match PcOf(s, l.t)
      case Acquiring(want, a) => if want.AcquireOp? { AcquireFrame(s, l.t, want, a); }
      case Pricing(q) => QuoteFrame(s, l.t, q);
      case _ =>
    }
  }

  lemma CatalogAndClock(s: Sys, l: Label)
    ensures Step(s, l).w.flights == s.w.flights && s.w.now <= Step(s, l).w.now
  {
    hide AcquireStep, QuoteStep, AfterCheck, PayStep, RecordStep;
    if l.Go? {
      match PcOf(s, l.t)
      case Acquiring(want, a) => if want.AcquireOp? { AcquireFrame(s, l.t, want, a); }
      case Pricing(q) => QuoteFrame(s, l.t, q);
      case Paying(r, p) => PayFrame(s, l.t, r, p, l.verdict);
      case Recording(r, step) => RecordFrame(s, l.t, r, step);
      case _ =>
    }
  }
}
