/** How a thread got where it is in a commit: when it read the clock, and what the
    first of two reads saw. */
module CommitHistory {
  import opened Entities
  import opened LockTables
  import opened QuoteStores
  import opened Worlds
  import opened Committing
  import opened Steps

  /** The clock reading a commit in progress works with, once it has read the clock and
      until it is about to return. */
  function ClockOf(pc: Pc): Option<Time> {
    match pc
    case Checking(_, c) => if c.AtFlight? then None else Some(c.now)
    case Paying(_, p) => Some(p.now)
    case Recording(_, r) => if r.ToLeave? then None else Some(r.booking.confirmedAt)
    case _ => None
  }

  /** About to make the second read of the quote check or of the lock check. */
  predicate SecondRead(pc: Pc) {
    pc.Checking? && (pc.c.AtQuoteRaw? || pc.c.AtLockRaw?)
  }

  /** The first read that leads there: made at the given point, on the given state, it
      finds no valid quote or lock. */
  ghost predicate Missed(before: Pc, w: World, pc: Pc)
    requires SecondRead(pc)
  {
    && before.Checking? && before.request == pc.request
    && (pc.c.AtQuoteRaw? ==>
          && before.c == AtQuote(pc.c.now) && pc.request.quoteId.Some?
          && GetValidQuote(w.quotes, pc.request.quoteId.value, pc.c.now).None?)
    && (pc.c.AtLockRaw? ==>
          && before.c == AtLock(pc.c.now, pc.c.quote) && pc.request.lockId.Some?
          && !IsValid(w.locks, pc.request.lockId.value, pc.c.now))
  }

  /** Only a thread's own label moves it. */
  lemma OwnLabel(s: Sys, l: Label, t: ThreadId)
    requires PcOf(Step(s, l), t) != PcOf(s, t)
    ensures !l.Tick? && l.t == t
    ensures InCommit(PcOf(Step(s, l), t)) ==> l.Go? && (InCommit(PcOf(s, t)) || PcOf(s, t).CommitWaiting?)
  {
    hide AcquireStep, QuoteStep, AfterCheck, PayStep, RecordStep;
    if l.Go? {
      StepFrames(s, l);
    }
  }

  lemma CheckMoves(s: Sys, r: CommitRequest, c: CheckPc)
    ensures var pc, pc' := Checking(r, c), AfterCheck(s, r, c);
            && InCommit(pc') && pc'.request == r
            && (pc' != pc && SecondRead(pc') ==> Missed(pc, s.w, pc'))
            && (ClockOf(pc').Some? ==> ClockOf(pc') == if c.AtFlight? then Some(s.w.now) else ClockOf(pc))
  {
    hide SeatError, OwnershipError;
  }

  lemma PayMoves(s: Sys, t: ThreadId, r: CommitRequest, p: PayPc, v: PaymentResult)
    ensures var pc' := PcOf(PayStep(s, t, r, p, v), t);
            && InCommit(pc') && pc'.request == r && !pc'.Checking?
            && (ClockOf(pc').Some? ==> ClockOf(pc') == Some(p.now))
  {
    hide DueFor, FailedEvent;
  }

  lemma RecordMoves(s: Sys, t: ThreadId, r: CommitRequest, step: RecordPc)
    requires PcOf(s, t) == Recording(r, step)
    ensures var pc' := PcOf(RecordStep(s, t, r, step), t);
            && (InCommit(pc') ==> pc'.request == r && !pc'.Checking?)
            && (ClockOf(pc').Some? ==> ClockOf(pc') == ClockOf(Recording(r, step)))
  {
    hide Bookings.SaveBooking, Release, CommittedEvent;
  }

  /** How a step of a commit moves its thread. */
  lemma CommitMoves(s: Sys, l: Label, t: ThreadId)
    requires PcOf(Step(s, l), t) != PcOf(s, t) && InCommit(PcOf(Step(s, l), t))
    ensures var pc, pc' := PcOf(s, t), PcOf(Step(s, l), t);
            && l.Go? && l.t == t && (InCommit(pc) || pc.CommitWaiting?) && pc'.request == pc.request
            && (SecondRead(pc') ==> Missed(pc, s.w, pc'))
            && (ClockOf(pc').Some? ==>
                  InCommit(pc) && ClockOf(pc') == if pc.Checking? && pc.c.AtFlight? then Some(s.w.now) else ClockOf(pc))
  {
    OwnLabel(s, l, t);
    hide AcquireStep, QuoteStep, AfterCheck, PayStep, RecordStep, Missed;
    match PcOf(s, t)
    case CommitWaiting(r) =>
    case Checking(r, c) => CheckMoves(s, r, c);
    case Paying(r, p) => PayMoves(s, t, r, p, l.verdict);
    case Recording(r, step) => RecordMoves(s, t, r, step);
  }

  /** The i-th state of a run. */
  function StateAt(from: Sys, ls: seq<Label>, i: nat): Sys
    requires i <= |ls|
  {
    Exec(from, ls[..i])
  }

  lemma StatesBefore(from: Sys, ls: seq<Label>)
    requires ls != []
    ensures var n := |ls| - 1;
            && (forall i :: 0 <= i <= n ==> StateAt(from, ls[..n], i) == StateAt(from, ls, i))
            && StateAt(from, ls, |ls|) == Step(StateAt(from, ls, n), ls[n]) == Exec(from, ls)
            && StateAt(from, ls, n) == Exec(from, ls[..n])
  {
    hide Exec, Step;
    var n := |ls| - 1;
    forall i | 0 <= i <= n ensures ls[..n][..i] == ls[..i] {
    }
    assert ls[..|ls|] == ls == ls[..n] + [ls[n]];
    ExecNext(from, ls[..n], ls[n]);
  }

  lemma StateAtStart(from: Sys, ls: seq<Label>)
    ensures ls == [] ==> StateAt(from, ls, 0) == Exec(from, ls) == from
  {
  }

  /** The thread has been about to make the second read ever since the first, made by
      the k-th label, which found no valid quote or lock. */
  ghost predicate ReadFirst(from: Sys, ls: seq<Label>, t: ThreadId, k: nat) {
    && k < |ls| && ls[k].Go? && ls[k].t == t && SecondRead(PcOf(Exec(from, ls), t))
    && Missed(PcOf(StateAt(from, ls, k), t), StateAt(from, ls, k).w, PcOf(Exec(from, ls), t))
    && forall i :: k < i <= |ls| ==> PcOf(StateAt(from, ls, i), t) == PcOf(Exec(from, ls), t)
  }

  lemma {:induction false} FirstRead(from: Sys, ls: seq<Label>, t: ThreadId) returns (k: nat)
    requires PcOf(from, t).Idle? && SecondRead(PcOf(Exec(from, ls), t))
    ensures ReadFirst(from, ls, t, k)
    decreases |ls|
  {
    hide Exec, Step, Missed, StateAt;
    StateAtStart(from, ls);
    if ls != [] {
      var n := |ls| - 1;
      StatesBefore(from, ls);
      var s := StateAt(from, ls, n);
      if PcOf(s, t) == PcOf(Exec(from, ls), t) {
        k := FirstRead(from, ls[..n], t);
      } else {
        k := n;
        CommitMoves(s, ls[n], t);
      }
    }
  }

  /** The thread has been in the commit of this request ever since the j-th label, by
      which it looked up the flight and read the clock. */
  ghost predicate StartedBy(from: Sys, ls: seq<Label>, t: ThreadId, r: CommitRequest, now: Time, j: nat) {
    && j < |ls| && ls[j].Go? && ls[j].t == t
    && PcOf(StateAt(from, ls, j), t) == Checking(r, AtFlight) && StateAt(from, ls, j).w.now == now
    && forall i :: j <= i <= |ls| ==> InCommit(PcOf(StateAt(from, ls, i), t)) && PcOf(StateAt(from, ls, i), t).request == r
  }

  lemma {:induction false} Began(from: Sys, ls: seq<Label>, t: ThreadId) returns (j: nat)
    requires PcOf(from, t).Idle? && ClockOf(PcOf(Exec(from, ls), t)).Some?
    ensures StartedBy(from, ls, t, PcOf(Exec(from, ls), t).request, ClockOf(PcOf(Exec(from, ls), t)).value, j)
    decreases |ls|
  {
    hide Exec, Step, Missed, StateAt;
    StateAtStart(from, ls);
    if ls != [] {
      var n := |ls| - 1;
      StatesBefore(from, ls);
      var s := StateAt(from, ls, n);
      if PcOf(s, t) != PcOf(Exec(from, ls), t) {
        CommitMoves(s, ls[n], t);
      }
      if PcOf(s, t).Checking? && PcOf(s, t).c.AtFlight? {
        j := n;
      } else {
        j := Began(from, ls[..n], t);
      }
    }
  }
}
