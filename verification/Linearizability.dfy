/** The interleaved steps of acquire and release are linearizable: the indexes
    and answers are those of the atomic calls in the order the store served them. */
module Linearizability {
  import opened Entities
  import opened LockTables
  import opened LockRuns
  import opened Worlds
  import opened Committing
  import opened Steps

  /** The store's state, between served calls, for an acquire at the given point:
      how far its effect on the indexes has got since then. */
  ghost predicate Progress(st: Store, w: World, want: LockOp, a: AcquirePc) {
    && want.AcquireOp?
    && match a
       case ToCheck => Store(w.locks, w.lockIds) == st
       case ToInstall =>
         Store(w.locks, w.lockIds) == st && Conflicts(st.table, want.seats, want.session, want.at) == []
       case ToIndex(r, done) =>
         && st.ids != [] && Conflicts(st.table, want.seats, want.session, want.at) == []
         && r == NewRecord(st.ids[0], want.flightId, want.seats, want.session, want.at)
         && done <= |want.seats| && w.lockIds == st.ids[1..] && w.locks == Index(st.table, r, want.seats[..done])
       case ToAnswer(answer) =>
         Store(w.locks, w.lockIds) == Apply(st, want) && Some(answer) == Answer(st, want)
  }

  /** The log is a sequential history from the initial store, and the shared
      indexes are its outcome, but for the progress of the call being served. */
  ghost predicate Linear(s: Sys, start: Store) {
    && Sequential(start, s.log)
    && var st := Replay(start, s.log);
       if s.holder.None? then Store(s.w.locks, s.w.lockIds) == st
       else PcOf(s, s.holder.value).Acquiring? && Progress(st, s.w, PcOf(s, s.holder.value).want, PcOf(s, s.holder.value).a)
  }

  ghost predicate TimelyPc(pc: Pc, now: Time) {
    pc.AcquireWaiting? || pc.Acquiring? ==> pc.want.AcquireOp? && pc.want.at <= now
  }

  ghost predicate TimelyLog(log: seq<LockCall>, now: Time) {
    forall i :: 0 <= i < |log| && log[i].op.AcquireOp? ==> log[i].op.at <= now
  }

  /** Every waiting, running or served acquire read the clock no later than now. */
  ghost predicate Timely(s: Sys) {
    (forall t: ThreadId :: TimelyPc(PcOf(s, t), s.w.now)) && TimelyLog(s.log, s.w.now)
  }

  lemma ReplayNext(st: Store, log: seq<LockCall>, call: LockCall)
    requires Sequential(st, log) && call.answer == Answer(Replay(st, log), call.op)
    ensures Sequential(st, log + [call]) && Replay(st, log + [call]) == Apply(Replay(st, log), call.op)
  {
    assert (log + [call])[..|log|] == log;
  }

  lemma AcquireProgress(s: Sys, t: ThreadId, want: LockOp, a: AcquirePc, start: Store)
    requires Sequential(start, s.log) && Progress(Replay(start, s.log), s.w, want, a)
    requires s.holder == Some(t) && PcOf(s, t) == Acquiring(want, a)
    ensures Linear(AcquireStep(s, t, want, a), start)
  {
    hide NewRecord, Conflicts, Sequential, Replay, Index;
    var st := Replay(start, s.log);
    match a
    case ToCheck =>
    case ToInstall =>
      if st.ids != [] {
        IndexNothing(st.table, NewRecord(st.ids[0], want.flightId, want.seats, want.session, want.at), want.seats);
      }
    case ToIndex(r, done) => IndexProgress(st, s.w, want, r, done);
    case ToAnswer(answer) => ReplayNext(start, s.log, LockCall(want, Some(answer)));
  }

  lemma IndexProgress(st: Store, w: World, want: LockOp, r: LockRecord, done: nat)
    requires Progress(st, w, want, ToIndex(r, done))
    ensures done < |want.seats| ==>
              Progress(st, w.(locks := w.locks.(bySeat := w.locks.bySeat[want.seats[done] := r])), want, ToIndex(r, done + 1))
    ensures done >= |want.seats| ==> Progress(st, w, want, ToAnswer(Granted(r)))
  {
    hide NewRecord, Conflicts;
    if done < |want.seats| {
      IndexNextSeat(st.table, r, want.seats, done);
    } else {
      assert want.seats[..done] == want.seats;
    }
  }

  lemma IndexNothing(t: LockTable, r: LockRecord, seats: seq<SeatId>)
    ensures Index(t, r, seats[..0]) == t.(byLock := t.byLock[r.lockId := r])
  {
    assert t.bySeat + (map s | s in seats[..0] :: r) == t.bySeat;
  }

  lemma ReleaseLinear(s: Sys, t: ThreadId, r: CommitRequest, b: Booking, start: Store)
    requires Linear(s, start) && s.holder.None? && r.lockId.Some?
    ensures Linear(RecordStep(s, t, r, ToRelease(b)), start)
  {
    hide Release;
    ReplayNext(start, s.log, LockCall(ReleaseOp(r.lockId.value), None));
  }

  /** The step changes neither the indexes nor the log nor the thread inside the store. */
  ghost predicate StoreUntouched(s: Sys, s': Sys) {
    && s'.w.locks == s.w.locks && s'.w.lockIds == s.w.lockIds && s'.log == s.log && s'.holder == s.holder
    && (s.holder.Some? ==> PcOf(s', s.holder.value) == PcOf(s, s.holder.value))
  }

  lemma UntouchedLinear(s: Sys, s': Sys, start: Store)
    requires Linear(s, start) && StoreUntouched(s, s')
    ensures Linear(s', start)
  {
    hide Sequential, Replay, Conflicts, NewRecord;
  }

  lemma Untouched(s: Sys, l: Label)
    requires Mutex(s)
    requires l.Go? ==> !PcOf(s, l.t).Acquiring? && !PcOf(s, l.t).AcquireWaiting?
                       && !(PcOf(s, l.t).Recording? && PcOf(s, l.t).r.ToRelease?)
    ensures StoreUntouched(s, Step(s, l))
  {
    hide AfterCheck;
    if l.Go? {
      match PcOf(s, l.t)
      case Pricing(q) => QuoteFrame(s, l.t, q);
      case Paying(r, p) => PayFrame(s, l.t, r, p, l.verdict);
      case Recording(r, step) => RecordFrame(s, l.t, r, step);
      case _ =>
    }
  }

  lemma LinearStep(s: Sys, l: Label, start: Store)
    requires Mutex(s) && Timely(s) && Linear(s, start)
    ensures Linear(Step(s, l), start)
  {
    hide Sequential, Replay, AcquireStep, Progress;
    if l.Go? {
      assert TimelyPc(PcOf(s, l.t), s.w.now);
    }
    if l.Go? && PcOf(s, l.t).AcquireWaiting? {
      EnterLinear(s, l, start);
    } else if l.Go? && PcOf(s, l.t).Acquiring? {
      AcquireProgress(s, l.t, PcOf(s, l.t).want, PcOf(s, l.t).a, start);
    } else if l.Go? && PcOf(s, l.t).Recording? && PcOf(s, l.t).r.ToRelease? {
      var pc := PcOf(s, l.t);
      if pc.request.lockId.Some? && s.holder.None? {
        ReleaseLinear(s, l.t, pc.request, pc.r.booking, start);
      } else {
        UntouchedLinear(s, Step(s, l), start);
      }
    } else {
      Untouched(s, l);
      UntouchedLinear(s, Step(s, l), start);
    }
  }

  lemma EnterLinear(s: Sys, l: Label, start: Store)
    requires Timely(s) && Linear(s, start) && l.Go? && PcOf(s, l.t).AcquireWaiting?
    ensures Linear(Step(s, l), start)
  {
    hide Sequential, Replay;
    assert TimelyPc(PcOf(s, l.t), s.w.now);
  }

  lemma TimelyStep(s: Sys, l: Label)
    requires Timely(s)
    ensures Timely(Step(s, l))
  {
    hide AcquireStep, QuoteStep, AfterCheck, PayStep, RecordStep;
    CatalogAndClock(s, l);
    if l.Go? {
      assert TimelyPc(PcOf(s, l.t), s.w.now);
      StepFrames(s, l);
      match PcOf(s, l.t)
      case Acquiring(want, a) => AcquireFrame(s, l.t, want, a); AcquireLog(s, l.t, want, a);
      case Pricing(q) => QuoteFrame(s, l.t, q);
      case Checking(r, c) => CheckFrame(s, r, c);
      case Paying(r, p) => PayFrame(s, l.t, r, p, l.verdict);
      case Recording(r, step) => RecordFrame(s, l.t, r, step); RecordLog(s, l.t, r, step);
      case _ =>
    } else if l.Tick? {
      assert forall u: ThreadId :: PcOf(Step(s, l), u) == PcOf(s, u);
    }
    forall u: ThreadId ensures TimelyPc(PcOf(Step(s, l), u), Step(s, l).w.now) {
      assert TimelyPc(PcOf(s, u), s.w.now);
    }
  }

  lemma AcquireLog(s: Sys, t: ThreadId, want: LockOp, a: AcquirePc)
    requires want.AcquireOp?
    ensures var log' := AcquireStep(s, t, want, a).log;
            log' == s.log || (a.ToAnswer? && log' == s.log + [LockCall(want, Some(a.answer))])
  {
    hide Conflicts, NewRecord;
  }

  lemma RecordLog(s: Sys, t: ThreadId, r: CommitRequest, step: RecordPc)
    ensures var log' := RecordStep(s, t, r, step).log;
            log' == s.log || (r.lockId.Some? && log' == s.log + [LockCall(ReleaseOp(r.lockId.value), None)])
  {
  }

  lemma {:induction false} LinearExec(s: Sys, ls: seq<Label>, start: Store)
    requires Mutex(s) && Timely(s) && Linear(s, start)
    ensures var s' := Exec(s, ls); Mutex(s') && Timely(s') && Linear(s', start)
    decreases |ls|
  {
    hide Mutex, Timely, Linear, Step;
    if ls != [] {
      MutexStep(s, ls[0]);
      TimelyStep(s, ls[0]);
      LinearStep(s, ls[0], start);
      LinearExec(Step(s, ls[0]), ls[1..], start);
    }
  }

  function InitialStore(s: Sys): Store {
    Store(s.w.locks, s.w.lockIds)
  }

  /** Over every interleaving of any number of threads' acquire steps with commits,
      quotes and the clock, the answers are those of the atomic calls in the order
      of the log, and the indexes are what those calls leave: exactly, whenever no
      call is being served. */
  lemma AcquireIsLinearizable(from: Sys, ls: seq<Label>)
    requires Initial(from)
    ensures var s := Exec(from, ls);
            && Sound(InitialStore(from)) && Sequential(InitialStore(from), s.log)
            && (s.holder.None? ==> Store(s.w.locks, s.w.lockIds) == Replay(InitialStore(from), s.log))
            && forall i :: 0 <= i < |s.log| && s.log[i].op.AcquireOp? ==> s.log[i].op.at <= s.w.now
  {
    LinearExec(from, ls, InitialStore(from));
  }

  lemma {:induction false} SequentialSuffix(st: Store, log: seq<LockCall>, k: nat)
    requires Sequential(st, log) && k <= |log|
    ensures Sequential(Replay(st, log[..k]), log[k..]) && Replay(Replay(st, log[..k]), log[k..]) == Replay(st, log)
    decreases |log|
  {
    if k == |log| {
      assert log[..k] == log && log[k..] == [];
    } else {
      var n := |log| - 1;
      SequentialSuffix(st, log[..n], k);
      assert log[..n][..k] == log[..k] && log[..n][k..] == log[k..][..n - k];
    }
  }

  /** The race harness, for any number of threads, any schedule and any earlier
      traffic: when from some served call on, distinct sessions ask for one free seat
      within one lock lifetime, the first served gets the lock and every other served
      one a conflict naming the seat. */
  lemma RaceHasOneWinner(from: Sys, ls: seq<Label>, k: nat, seat: SeatId)
    requires Initial(from) && k <= |Exec(from, ls).log|
    requires var log := Exec(from, ls).log;
             var st := Replay(InitialStore(from), log[..k]);
             && st.ids != [] && Race(log[k..], seat)
             && (seat in st.table.bySeat ==> forall i :: 0 <= i < |log[k..]| ==> st.table.bySeat[seat].expiresAt <= log[k..][i].op.at)
    ensures var log := Exec(from, ls).log;
            forall i :: k <= i < |log| ==>
              if i == k then log[i].answer.Some? && log[i].answer.value.Granted?
              else log[i].answer == Some(Conflict([seat]))
  {
    hide Exec, Initial, Replay, Sequential, Race;
    AcquireIsLinearizable(from, ls);
    var log := Exec(from, ls).log;
    SequentialSuffix(InitialStore(from), log, k);
    ReplaySound(InitialStore(from), log[..k]);
    ExactlyOneWins(Replay(InitialStore(from), log[..k]), log[k..], seat);
    assert forall i :: k <= i < |log| ==> log[i] == log[k..][i - k];
  }

  /** In every reachable state with no call being served, the indexes are coherent
      and issued ids unique; if moreover no session ever acquired a seat it held
      live, live handles are exclusive. */
  lemma IndexesEver(from: Sys, ls: seq<Label>)
    requires Initial(from) && Exec(from, ls).holder.None?
    ensures var s := Exec(from, ls);
            && Coherent(s.w.locks) && FreshIds(s.w.locks, s.w.lockIds)
            && (NeverReacquires(InitialStore(from), s.log, s.w.now) ==> Exclusive(s.w.locks, s.w.now))
  {
    AcquireIsLinearizable(from, ls);
    var s := Exec(from, ls);
    ReplaySound(InitialStore(from), s.log);
    if NeverReacquires(InitialStore(from), s.log, s.w.now) {
      HandleExclusion(InitialStore(from), s.log, s.w.now);
    }
  }

  lemma {:induction false} ReplayAppend(st: Store, a: seq<LockCall>, b: seq<LockCall>)
    ensures Replay(st, a + b) == Replay(Replay(st, a), b)
  {
    if b == [] {
      assert a + b == a;
    } else {
      var n := |b| - 1;
      ReplayAppend(st, a, b[..n]);
      assert (a + b)[..|a| + n] == a + b[..n];
    }
  }

  lemma {:induction false} SequentialPrefix(st: Store, log: seq<LockCall>, i: nat)
    requires Sequential(st, log) && i < |log|
    ensures log[i].answer == Answer(Replay(st, log[..i]), log[i].op)
    decreases |log|
  {
    var n := |log| - 1;
    if i < n {
      SequentialPrefix(st, log[..n], i);
      assert log[..n][..i] == log[..i];
    }
  }

  lemma ReplayOne(st: Store, call: LockCall)
    ensures Replay(st, [call]) == Apply(st, call.op)
  {
    assert [call][..0] == [];
  }

  /** The i-th call granted seats, and the calls since respect the hold. */
  ghost predicate HoldRespected(start: Store, log: seq<LockCall>, i: nat, since: Time) {
    && i < |log| && log[i].op.AcquireOp? && log[i].answer.Some? && log[i].answer.value.Granted? && since <= log[i].op.at
    && Respected(Replay(start, log[..i + 1]), log[i + 1..], log[i].op.session, since)
  }

  lemma HoldInLog(start: Store, log: seq<LockCall>, i: nat, since: Time)
    requires Sound(start) && Sequential(start, log) && HoldRespected(start, log, i, since)
    ensures forall seat :: seat in log[i].op.seats ==>
              HeldUntil(Replay(start, log).table, seat, log[i].op.session, since + LOCK_TTL)
  {
    hide Respected, HeldUntil, Sound, Sequential, Answer, Apply, Replay;
    var before, upTo, rest := log[..i], log[..i + 1], log[i + 1..];
    SequentialPrefix(start, log, i);
    ReplaySound(start, before);
    assert upTo == before + [log[i]];
    ReplayAppend(start, before, [log[i]]);
    ReplayOne(Replay(start, before), log[i]);
    assert log == upTo + rest;
    ReplayAppend(start, upTo, rest);
    HoldIsStable(Replay(start, before), log[i].op, Replay(start, upTo), rest, since);
  }

  /** A granted hold survives in the running system: whatever else the store has
      served since, every granted seat still resolves to a record of that session
      that lives at least as long as the grant, as long as the holder releases
      nothing and every other session's call came before the hold ends. */
  lemma HoldEver(from: Sys, ls: seq<Label>, i: nat, since: Time)
    requires Initial(from) && Exec(from, ls).holder.None?
    requires HoldRespected(InitialStore(from), Exec(from, ls).log, i, since)
    ensures var s := Exec(from, ls);
            forall seat :: seat in s.log[i].op.seats ==> HeldUntil(s.w.locks, seat, s.log[i].op.session, since + LOCK_TTL)
  {
    hide Exec, Initial, Sound, Sequential, Replay, HeldUntil, Respected;
    AcquireIsLinearizable(from, ls);
    HoldInLog(InitialStore(from), Exec(from, ls).log, i, since);
  }

  lemma SequentialTake(st: Store, log: seq<LockCall>, j: nat)
    requires Sequential(st, log) && j <= |log|
    ensures Sequential(st, log[..j])
    decreases |log|
  {
    if j < |log| {
      SequentialTake(st, log[..|log| - 1], j);
      assert log[..|log| - 1][..j] == log[..j];
    } else {
      assert log[..j] == log;
    }
  }

  /** In any traffic, an acquire by another session that names a seat granted before,
      within the lifetime of that respected grant, is answered with a conflict that
      names the seat. */
  lemma GrantedSeatsConflict(from: Sys, ls: seq<Label>, i: nat, j: nat, since: Time, seat: SeatId)
    requires Initial(from) && i < j < |Exec(from, ls).log|
    requires var log := Exec(from, ls).log;
             && HoldRespected(InitialStore(from), log[..j], i, since)
             && log[j].op.AcquireOp? && log[j].op.session != log[i].op.session && log[j].op.at < since + LOCK_TTL
             && seat in log[i].op.seats && seat in log[j].op.seats
    ensures var answer := Exec(from, ls).log[j].answer;
            answer.Some? && answer.value.Conflict? && seat in answer.value.seats
  {
    hide Exec, Initial, Sound, Sequential, Replay, HeldUntil, Respected, Answer;
    AcquireIsLinearizable(from, ls);
    var start, log := InitialStore(from), Exec(from, ls).log;
    SequentialTake(start, log, j);
    HoldInLog(start, log[..j], i, since);
    assert log[..j][i] == log[i];
    SequentialPrefix(start, log, j);
    HeldSeatsConflict(Replay(start, log[..j]), seat, log[i].op.session, since + LOCK_TTL, log[j].op);
  }
}
