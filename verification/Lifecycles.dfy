/** The lives of quote ids and lock ids over every run. */
module Lifecycles {
  import opened Entities
  import opened LockTables
  import LockRuns
  import Linearizability
  import Bookings
  import opened QuoteStores
  import opened Worlds
  import opened Committing
  import opened Steps
  import opened BookingSafety
  import opened QuoteTrail
  import opened Futures

  // ---- Quotes

  /** Once stored, a quote stays, and is valid for exactly the half-open thirty
      minutes from its creation; an id not issued yet is not stored. */
  lemma QuoteLife(from: Sys, before: seq<Label>, after: seq<Label>, id: QuoteId)
    requires Initial(from)
    ensures var w, w' := Exec(from, before).w, Exec(Exec(from, before), after).w;
            && (id in w.quoteIds ==> GetQuote(w.quotes, id).None?)
            && (id in w.quotes ==>
                  && w.quotes[id].createdAt <= w.now && GetQuote(w'.quotes, id) == Some(w.quotes[id])
                  && (GetValidQuote(w'.quotes, id, w'.now).Some? <==> w'.now < w.quotes[id].createdAt + QUOTE_TTL))
  {
    SaneEver(from, before);
    LaterEver(Exec(from, before), after);
  }

  // ---- Locks

  /** The commit booked and named the lock. */
  ghost predicate Used(c: CommitRecord, id: LockId) {
    c.result.Booked? && c.request.lockId == Some(id)
  }

  ghost predicate EverUsed(commits: seq<CommitRecord>, id: LockId) {
    exists i :: 0 <= i < |commits| && Used(commits[i], id)
  }

  /** The lock a commit in progress has found stored and not released yet. */
  function LockHeld(pc: Pc): Option<LockId> {
    if (pc.Checking? && pc.c.AtLockOwner?) || (pc.Paying? && !pc.p.ToRecordDecline?)
       || (pc.Recording? && (pc.r.ToSave? || pc.r.ToMail? || pc.r.ToRelease?)) then pc.request.lockId
    else None
  }

  /** The lock a booking commit has just released. */
  function LockSpent(pc: Pc): Option<LockId> {
    if pc.Recording? && (pc.r.ToAudit? || (pc.r.ToLeave? && pc.r.result.Booked?)) then pc.request.lockId else None
  }

  /** A lock named by a booked commit is gone for good, and no other booked commit named it. */
  ghost predicate UsedOnce(s: Sys) {
    && (forall id :: EverUsed(s.commits, id) ==> Dead(s.w, id))
    && (forall i, j, id :: 0 <= i < j < |s.commits| && Used(s.commits[i], id) ==> !Used(s.commits[j], id))
    && (LockHeld(CommitPc(s)).Some? ==> LockHeld(CommitPc(s)).value in s.w.locks.byLock)
    && (LockSpent(CommitPc(s)).Some? ==>
          Dead(s.w, LockSpent(CommitPc(s)).value) && !EverUsed(s.commits, LockSpent(CommitPc(s)).value))
  }

  lemma UsedOnceElsewhere(s: Sys, l: Label)
    requires Mutex(s) && LocksFresh(s.w) && UsedOnce(s) && !CommitStep(s, l)
    ensures UsedOnce(Step(s, l))
  {
    hide Step, CommitStep, Mutex, CommitPc, Used, EverUsed, LocksFresh;
    LocksOf(s, l);
    OtherStep(s, l);
    var s' := Step(s, l);
    forall id ensures Dead(s.w, id) ==> Dead(s'.w, id) {
      assert LockStep(s.w, s'.w, id);
    }
  }

  lemma UsedOnceCheck(s: Sys, r: CommitRequest, c: CheckPc)
    ensures LockSpent(AfterCheck(s, r, c)) == None
    ensures var held := LockHeld(AfterCheck(s, r, c));
            held.Some? ==> LockHeld(Checking(r, c)) == held || held.value in s.w.locks.byLock
  {
    hide SeatError;
  }

  lemma UsedOncePay(s: Sys, t: ThreadId, r: CommitRequest, p: PayPc, verdict: PaymentResult)
    ensures var s' := PayStep(s, t, r, p, verdict);
            && s'.w.locks == s.w.locks && s'.w.lockIds == s.w.lockIds && s'.commits == s.commits
            && LockSpent(PcOf(s', t)) == None
            && (LockHeld(PcOf(s', t)).Some? ==> LockHeld(Paying(r, p)) == LockHeld(PcOf(s', t)))
  {
    hide DueFor;
  }

  lemma UsedOnceLeave(s: Sys, t: ThreadId, r: CommitRequest, result: CommitResult)
    requires UsedOnce(s) && s.committer == Some(t) && PcOf(s, t) == Recording(r, ToLeave(result))
    ensures UsedOnce(RecordStep(s, t, r, ToLeave(result)))
  {
    var c := CommitRecord(r, result);
    assert CommitPc(s) == Recording(r, ToLeave(result));
    forall id ensures EverUsed(s.commits + [c], id) <==> EverUsed(s.commits, id) || Used(c, id) {
      EverUsedNext(s.commits, c, id);
    }
    forall id | Used(c, id) ensures !EverUsed(s.commits, id) {
    }
  }

  lemma EverUsedNext(commits: seq<CommitRecord>, c: CommitRecord, id: LockId)
    ensures EverUsed(commits + [c], id) <==> EverUsed(commits, id) || Used(c, id)
  {
    hide Used;
    var next := commits + [c];
    assert next[|commits|] == c;
    assert forall i :: 0 <= i < |commits| ==> next[i] == commits[i];
  }

  lemma UsedOnceRecord(s: Sys, t: ThreadId, r: CommitRequest, step: RecordPc)
    requires Mutex(s) && LocksFresh(s.w) && UsedOnce(s) && s.committer == Some(t) && PcOf(s, t) == Recording(r, step)
    ensures UsedOnce(RecordStep(s, t, r, step))
  {
    if step.ToLeave? {
      UsedOnceLeave(s, t, r, step.result);
    } else {
      var s' := RecordStep(s, t, r, step);
      RecordFrame(s, t, r, step);
      RecordLocks(s, t, r, step);
      NextHeld(s, t, r, step);
      hide RecordStep, Used, Release, LocksFresh;
      assert CommitPc(s) == Recording(r, step) && CommitPc(s') == PcOf(s', t);
      forall id ensures Dead(s.w, id) ==> Dead(s'.w, id) {
        assert LockStep(s.w, s'.w, id);
      }
      if LockSpent(PcOf(s', t)).Some? && step.ToRelease? {
        assert EverUsed(s.commits, r.lockId.value) ==> Dead(s.w, r.lockId.value);
        NotIssued(s.w, r.lockId.value);
      }
    }
  }

  lemma NotIssued(w: World, id: LockId)
    requires LocksFresh(w) && id in w.locks.byLock
    ensures id !in w.lockIds
  {
  }

  lemma NextHeld(s: Sys, t: ThreadId, r: CommitRequest, step: RecordPc)
    requires PcOf(s, t) == Recording(r, step) && !step.ToLeave?
    ensures var s', pc' := RecordStep(s, t, r, step), PcOf(RecordStep(s, t, r, step), t);
            && (LockHeld(pc').Some? ==> LockHeld(Recording(r, step)) == LockHeld(pc') && s'.w.locks == s.w.locks)
            && (LockSpent(pc').Some? ==>
                  LockSpent(Recording(r, step)) == LockSpent(pc')
                  || (step.ToRelease? && s.holder.None? && LockSpent(pc') == r.lockId && LockHeld(Recording(r, step)) == r.lockId))
  {
    hide Release, Bookings.SaveBooking;
  }

  lemma UsedOnceStep(s: Sys, l: Label)
    requires Mutex(s) && LocksFresh(s.w) && UsedOnce(s)
    ensures UsedOnce(Step(s, l))
  {
    hide AfterCheck, PayStep, RecordStep, LocksFresh, EverUsed, Used;
    if CommitStep(s, l) {
      match PcOf(s, l.t)
      case CommitWaiting(r) =>
      case Checking(r, c) => CheckFrame(s, r, c); UsedOnceCheck(s, r, c);
      case Paying(r, p) => PayFrame(s, l.t, r, p, l.verdict); UsedOncePay(s, l.t, r, p, l.verdict);
      case Recording(r, step) => UsedOnceRecord(s, l.t, r, step);
    } else {
      UsedOnceElsewhere(s, l);
    }
  }

  lemma {:induction false} UsedOnceExec(s: Sys, ls: seq<Label>)
    requires Sane(s) && UsedOnce(s)
    ensures UsedOnce(Exec(s, ls))
    decreases |ls|
  {
    hide UsedOnce, Step, Trail, LocksFresh, Bookings.NoDoubleBooking, BookedWell, ReferencesFresh, CommitSafe;
    if ls != [] {
      SaneStep(s, ls[0]);
      UsedOnceStep(s, ls[0]);
      UsedOnceExec(Step(s, ls[0]), ls[1..]);
    }
  }

  /** Over every run, a lock id is stored only after it was issued; while stored it
      keeps its record and is valid exactly until the record's expiry; once gone,
      whoever released it, it stays gone; it is named by at most one booked commit,
      which ends it, so that every later commit naming it is told it is not found. */
  lemma LockLife(from: Sys, before: seq<Label>, after: seq<Label>, id: LockId)
    requires Initial(from)
    ensures var s, s' := Exec(from, before), Exec(Exec(from, before), after);
            && (id in s.w.lockIds ==> Get(s.w.locks, id).None?)
            && (id in s.w.locks.byLock && id in s'.w.locks.byLock ==>
                  && Get(s'.w.locks, id) == Get(s.w.locks, id)
                  && (IsValid(s'.w.locks, id, s'.w.now) <==> s'.w.now < s.w.locks.byLock[id].expiresAt))
            && (id !in s.w.lockIds && id !in s.w.locks.byLock ==>
                  id !in s'.w.lockIds && forall session, at :: LockError(s'.w.locks, Some(id), session, at) == Some(LockNotFound))
            && (forall i, j :: 0 <= i < j < |s.commits| && Used(s.commits[i], id) ==> !Used(s.commits[j], id))
            && (EverUsed(s.commits, id) ==> id !in s.w.lockIds && id !in s.w.locks.byLock)
  {
    hide Exec, Initial, Safe, Trail, Used, EverUsed;
    var s := Exec(from, before);
    InitiallyUnused(from);
    SaneEver(from, []);
    assert Exec(from, []) == from by { ExecNothing(from); }
    SaneEver(from, before);
    UsedOnceExec(from, before);
    if id in s.w.locks.byLock {
      OnlyRecordEver(s, after, id, s.w.locks.byLock[id]);
    }
    if Dead(s.w, id) {
      DeadEver(s, after, id);
    }
  }

  /** Every stored record was granted by a served call, and expires one lifetime after
      the clock reading of that call. */
  lemma {:induction false} StoredWasGranted(start: LockRuns.Store, log: seq<LockRuns.LockCall>, id: LockId)
    requires LockRuns.Sequential(start, log) && start.table == EMPTY_TABLE && id in LockRuns.Replay(start, log).table.byLock
    ensures exists i :: 0 <= i < |log| && GrantedBy(log[i], LockRuns.Replay(start, log).table.byLock[id])
  {
    var n := |log| - 1;
    var st := LockRuns.Replay(start, log[..n]);
    if id in st.table.byLock && LockRuns.Replay(start, log).table.byLock[id] == st.table.byLock[id] {
      StoredWasGranted(start, log[..n], id);
      var i :| 0 <= i < n && GrantedBy(log[..n][i], st.table.byLock[id]);
      assert GrantedBy(log[i], st.table.byLock[id]);
    } else {
      assert GrantedBy(log[n], LockRuns.Replay(start, log).table.byLock[id]);
    }
  }

  ghost predicate GrantedBy(call: LockRuns.LockCall, record: LockRecord) {
    && call.op.AcquireOp? && call.answer == Some(Granted(record))
    && record.flightId == call.op.flightId && record.seatIds == call.op.seats && record.sessionId == call.op.session
    && record.expiresAt == call.op.at + 600_000_000
  }

  /** In every reachable state between calls, each stored lock was granted to its
      session for its flight and seats by a served call, and is valid for exactly the half-open
      ten minutes from the clock reading of that call. */
  lemma LockWindow(from: Sys, ls: seq<Label>, id: LockId)
    requires Initial(from) && Exec(from, ls).holder.None? && id in Exec(from, ls).w.locks.byLock
    ensures var s := Exec(from, ls);
            exists i :: 0 <= i < |s.log| && GrantedBy(s.log[i], s.w.locks.byLock[id]) && s.log[i].op.at <= s.w.now
                        && (IsValid(s.w.locks, id, s.w.now) <==> s.w.now < s.log[i].op.at + 600_000_000)
  {
    hide Exec, LockRuns.Sequential, LockRuns.Replay;
    Linearizability.AcquireIsLinearizable(from, ls);
    var s := Exec(from, ls);
    StoredWasGranted(Linearizability.InitialStore(from), s.log, id);
  }

  lemma ExecNothing(s: Sys)
    ensures Exec(s, []) == s
  {
  }

  lemma InitiallyUnused(s: Sys)
    requires Initial(s)
    ensures UsedOnce(s)
  {
  }

  // ---- A lock is released only once its booking is stored

  /** The booking is answered, or about to be, to a request that named the lock. */
  ghost predicate BookedUnder(s: Sys, b: Booking, id: LockId) {
    || (exists i :: 0 <= i < |s.commits| && s.commits[i].result == Booked(b) && s.commits[i].request.lockId == Some(id))
    || (CommitPc(s).Recording? && CommitPc(s).request.lockId == Some(id)
        && (CommitPc(s).r == ToAudit(b) || CommitPc(s).r == ToLeave(Booked(b))))
  }

  ghost predicate ReleasedWhenBooked(s: Sys) {
    forall i :: 0 <= i < |s.log| && s.log[i].op.ReleaseOp? ==>
      exists b :: b in s.w.bookings && BookedUnder(s, b, s.log[i].op.id)
  }

  /** The commit about to release has stored its booking. */
  ghost predicate SavedBefore(s: Sys) {
    var pc := CommitPc(s);
    pc.Recording? && (pc.r.ToMail? || pc.r.ToRelease? || pc.r.ToAudit?) ==> pc.r.booking in s.w.bookings
  }

  /** The commit underway stays where it is, reports, returns, or has not released yet. */
  ghost predicate Moves(s: Sys, s': Sys) {
    var pc, pc' := CommitPc(s), CommitPc(s');
    || pc' == pc
    || (pc.Recording? && pc.r.ToAudit? && pc' == Recording(pc.request, ToLeave(Booked(pc.r.booking))))
    || (pc.Recording? && pc.r.ToLeave? && s'.commits == s.commits + [CommitRecord(pc.request, pc.r.result)])
    || !(pc.Recording? && (pc.r.ToAudit? || pc.r.ToLeave?))
  }

  /** The log is as before, or has one more call; a release is the one of the commit
      underway, which is then about to report. */
  ghost predicate Logs(s: Sys, s': Sys) {
    var pc, n := CommitPc(s), |s.log|;
    || s'.log == s.log
    || (|s'.log| == n + 1 && s'.log[..n] == s.log
        && (s'.log[n].op.ReleaseOp? ==>
              && pc.Recording? && pc.r.ToRelease? && pc.request.lockId == Some(s'.log[n].op.id)
              && CommitPc(s') == Recording(pc.request, ToAudit(pc.r.booking))))
  }

  lemma StillBookedUnder(s: Sys, s': Sys, b: Booking, id: LockId)
    requires BookedUnder(s, b, id) && s.commits <= s'.commits && Moves(s, s')
    ensures BookedUnder(s', b, id)
  {
    hide CommitPc;
    if i :| 0 <= i < |s.commits| && s.commits[i].result == Booked(b) && s.commits[i].request.lockId == Some(id) {
      assert s'.commits[i] == s.commits[i];
    } else if CommitPc(s).r.ToLeave? && CommitPc(s') != CommitPc(s) {
      assert s'.commits[|s.commits|].result == Booked(b);
    }
  }

  /** How one step moves the commit, the log and the bookings. */
  lemma ReleaseStep(s: Sys, l: Label)
    requires Safe(s) && SavedBefore(s)
    ensures var s' := Step(s, l);
            SavedBefore(s') && s.w.bookings <= s'.w.bookings && s.commits <= s'.commits && Moves(s, s') && Logs(s, s')
  {
    BookingsGrow(s, l);
    hide QuoteStep, AfterCheck, PayStep, Bookings.NoDoubleBooking, BookedWell, ReferencesFresh, CommitSafe, Release, CommittedEvent;
    if CommitStep(s, l) {
      match PcOf(s, l.t)
      case CommitWaiting(r) =>
      case Checking(r, c) => CheckFrame(s, r, c);
      case Paying(r, p) => PayFrame(s, l.t, r, p, l.verdict); PayKeepsHistory(s, l.t, r, p, l.verdict);
      case Recording(r, step) => RecordFrame(s, l.t, r, step);
    } else {
      OtherStep(s, l);
      OtherLog(s, l);
    }
  }

  lemma PayKeepsHistory(s: Sys, t: ThreadId, r: CommitRequest, p: PayPc, v: PaymentResult)
    ensures var pc' := PcOf(PayStep(s, t, r, p, v), t);
            pc'.Recording? ==> pc'.r.ToSave? || pc'.r.ToLeave?
  {
    hide DueFor, MakeBooking, FailedEvent;
  }

  /** Outside commit only served acquires are added to the log. */
  lemma OtherLog(s: Sys, l: Label)
    requires Mutex(s) && !CommitStep(s, l)
    ensures var a, a' := s.log, Step(s, l).log;
            a' == a || (|a'| == |a| + 1 && a'[..|a|] == a && a'[|a|].op.AcquireOp?)
  {
    hide Mutex, AfterCheck, PayStep, RecordStep, QuoteStep, AcquireStep;
    if l.Go? {
      match PcOf(s, l.t)
      case Acquiring(want, a) =>
        if want.AcquireOp? {
          Linearizability.AcquireLog(s, l.t, want, a);
        }
      case Pricing(q) => QuoteFrame(s, l.t, q);
      case _ =>
    }
  }

  lemma EarlierRelease(s: Sys, s': Sys, i: nat)
    requires ReleasedWhenBooked(s) && i < |s.log| && s.log[i].op.ReleaseOp?
    requires s.w.bookings <= s'.w.bookings && s.commits <= s'.commits && Moves(s, s')
    ensures exists b :: b in s'.w.bookings && BookedUnder(s', b, s.log[i].op.id)
  {
    hide CommitPc, BookedUnder, Moves;
    var b :| b in s.w.bookings && BookedUnder(s, b, s.log[i].op.id);
    StillBookedUnder(s, s', b, s.log[i].op.id);
    assert b in s'.w.bookings;
  }

  lemma NewRelease(s: Sys, s': Sys)
    requires SavedBefore(s) && s.w.bookings <= s'.w.bookings && Logs(s, s')
    requires |s'.log| == |s.log| + 1 && s'.log[|s.log|].op.ReleaseOp?
    ensures exists b :: b in s'.w.bookings && BookedUnder(s', b, s'.log[|s.log|].op.id)
  {
    hide CommitPc, BookedUnder;
    var b := CommitPc(s).r.booking;
    AboutToAudit(s', CommitPc(s).request, b, s'.log[|s.log|].op.id);
    assert b in s.w.bookings && b in s'.w.bookings;
  }

  lemma ReleasedAfter(s: Sys, s': Sys)
    requires SavedBefore(s) && ReleasedWhenBooked(s)
    requires s.w.bookings <= s'.w.bookings && s.commits <= s'.commits && Moves(s, s') && Logs(s, s')
    ensures ReleasedWhenBooked(s')
  {
    LogsGrow(s, s');
    hide CommitPc, BookedUnder, Moves, Logs, SavedBefore;
    forall i | 0 <= i < |s'.log| && s'.log[i].op.ReleaseOp?
      ensures exists b :: b in s'.w.bookings && BookedUnder(s', b, s'.log[i].op.id)
    {
      if i < |s.log| {
        EarlierRelease(s, s', i);
      } else {
        NewRelease(s, s');
      }
    }
  }

  lemma ReleasedStep(s: Sys, l: Label)
    requires Safe(s) && SavedBefore(s) && ReleasedWhenBooked(s)
    ensures SavedBefore(Step(s, l)) && ReleasedWhenBooked(Step(s, l))
  {
    hide Step, Safe, SavedBefore, ReleasedWhenBooked, Moves, Logs;
    ReleaseStep(s, l);
    ReleasedAfter(s, Step(s, l));
  }

  lemma LogsGrow(s: Sys, s': Sys)
    requires Logs(s, s')
    ensures |s'.log| <= |s.log| + 1
    ensures forall i :: 0 <= i < |s.log| && i < |s'.log| ==> s'.log[i] == s.log[i]
    ensures |s.log| <= |s'.log|
  {
    hide CommitPc;
  }

  lemma AboutToAudit(s: Sys, r: CommitRequest, b: Booking, id: LockId)
    requires CommitPc(s) == Recording(r, ToAudit(b)) && r.lockId == Some(id)
    ensures BookedUnder(s, b, id)
  {
  }

  lemma {:induction false} ReleasedExec(s: Sys, ls: seq<Label>)
    requires Safe(s) && SavedBefore(s) && ReleasedWhenBooked(s)
    ensures ReleasedWhenBooked(Exec(s, ls))
    decreases |ls|
  {
    hide Safe, SavedBefore, ReleasedWhenBooked, Step;
    if ls != [] {
      ReleasedStep(s, ls[0]);
      SafeStep(s, ls[0]);
      ReleasedExec(Step(s, ls[0]), ls[1..]);
    }
  }

  /** Over every run, whenever a lock has been released, a booking of the commit that
      named it is already stored: there is no moment at which the seats of an accepted
      commit are neither locked nor booked because of its release. */
  lemma ReleasedMeansBooked(from: Sys, ls: seq<Label>)
    requires Initial(from)
    ensures ReleasedWhenBooked(Exec(from, ls))
  {
    InitiallySafe(from);
    ReleasedExec(from, ls);
  }
}
