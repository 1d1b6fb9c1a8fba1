/** Cancellation of the steering loop: nothing new begins, and the loop leaves. */
module SteerCancel {
  import opened Options
  import opened SteerMachine
  import opened SteerSafety
  import opened SteerLooks

  /** From here on only the bookkeeping of discarded follow-ups may change. */
  ghost predicate NothingNew(s: State, t: State) {
    && s.h.translated == t.h.translated
    && s.h.started == t.h.started
    && t.cancelled
    && t.pc != Done(Success)
  }

  /** A follow-up that the steer task holds is thrown away. */
  function Thrown(s: State): State {
    if s.steer.Took? then s.(steer := Armed, h := s.h.(dropped := s.h.dropped + [s.steer.item])) else s
  }

  /** Of a fetch only its end is looked at: a line leads straight to the abort. */
  function Looked(s: State, r: Fetch): State {
    if r.EndOfStream? then Finish(s) else s.(pc := if r.Broken? then Done(Raised) else Aborting)
  }

  /** The code after `asyncio.wait`, once cancelled. */
  lemma CancelledWait(s: State)
    requires s.cancelled
    ensures AfterWait(s) ==
            if s.fetch.Pending? then Thrown(s).(pc := Unwinding(!s.steer.Took?)) else Looked(Thrown(s), s.fetch)
  {
  }

  /** A drain under way throws away the rest of the queue and keeps the run going. */
  lemma CancelledDrain(s: State)
    requires s.cancelled && s.delivered
    ensures NothingNew(s, Drain(s)) && Drain(s).h.failed == s.h.failed && Drain(s).error == s.error
    ensures Drain(s).pc == AtWait && |Drain(s).queue| <= |s.queue| && Drain(s).steer == s.steer
  {
  }

  /** The code after a POST that was under way when the user cancelled. */
  lemma CancelledPost(s: State)
    requires s.cancelled && s.pc.Posting?
    ensures match s.pc.origin
            case FromTask(r) =>
              AfterPost(s) == if r.Pending? then Injection(s).(pc := Unwinding(false)) else Looked(Injection(s), r)
            case FromDrain =>
              var t := AfterPost(s);
              && NothingNew(s, t) && t.h.failed == s.h.failed && t.error == s.error
              && t.pc == AtWait && |t.queue| <= |s.queue| && t.steer == s.steer
  {
    CancelledDrain(Injection(s));
    hide Drain;
  }

  lemma NotSeenIdle(s: State)
    requires Inv(s) && !s.pc.Done?
    ensures !s.sawIdle
  {
  }

  lemma CancelledStep(s: State, l: Label)
    requires Inv(s) && s.cancelled && Enabled(s, l)
    ensures NothingNew(s, Step(s, l))
  {
    hide Inv, AfterWait, AfterPost;
    NotSeenIdle(s);
    if l.WaitReturns? { CancelledWait(s); }
    if l.PostOk? { CancelledPost(s); }
  }

  /** Once cancellation is seen, no event is translated, no POST begins, success is out of reach. */
  lemma {:induction false} CancelStopsWork(s: State, run: seq<Label>)
    requires Inv(s) && s.cancelled && IsRun(s, run)
    ensures NothingNew(s, Exec(s, run))
    decreases |run|
  {
    if run != [] {
      CancelledStep(s, run[0]);
      StepKeeps(s, run[0]);
      hide Inv;
      CancelStopsWork(Step(s, run[0]), run[1..]);
    }
  }

  function PcWeight(pc: Pc): nat {
    match pc
    case Done(_) => 0
    case Aborting => 1
    case Unwinding(thenAbort) => if thenAbort then 2 else 5
    case AtWait => 3
    case Posting(_, _) => 7
  }

  /** An upper bound on the steps left once cancelled: it counts queued and held follow-ups. */
  function StepsLeft(s: State): nat {
    4 * |s.queue| + 3 * |Held(s.steer)| + PcWeight(s.pc) + if s.fetch.Pending? then 1 else 0
  }

  lemma CancelledStepShrinks(s: State, l: Label)
    requires Inv(s) && s.cancelled && Enabled(s, l) && !l.Enqueue?
    ensures StepsLeft(Step(s, l)) < StepsLeft(s)
  {
    hide Inv, AfterWait, AfterPost;
    NotSeenIdle(s);
    if l.WaitReturns? { CancelledWait(s); }
    if l.PostOk? { CancelledPost(s); }
  }

  /** With no further enqueues every run after cancellation is bounded. */
  lemma {:induction false} CancelBoundsRuns(s: State, run: seq<Label>)
    requires Inv(s) && s.cancelled && IsRun(s, run)
    requires forall l | l in run :: !l.Enqueue?
    ensures |run| + StepsLeft(Exec(s, run)) <= StepsLeft(s)
    decreases |run|
  {
    if run != [] {
      CancelledStepShrinks(s, run[0]);
      CancelledStep(s, run[0]);
      StepKeeps(s, run[0]);
      hide Inv;
      CancelBoundsRuns(Step(s, run[0]), run[1..]);
    }
  }

  /** Until it has returned, a cancelled loop is never stuck: one of its own steps is enabled. */
  function NextOwnStep(s: State): (l: Label)
    requires s.cancelled && !s.pc.Done?
    ensures Enabled(s, l) && !l.Enqueue? && !l.Take? && !l.Arrive? && !l.Cancel? && !l.PostFails?
  {
    match s.pc
    case AtWait => WaitReturns
    case Posting(_, _) => PostOk
    case Unwinding(_) => UnwindReturns
    case Aborting => AbortReturns
  }

  /** Left to itself after cancellation the loop returns, within the bound. */
  lemma {:induction false} CancelLeaves(s: State) returns (run: seq<Label>)
    requires Inv(s) && s.cancelled
    ensures IsRun(s, run) && |run| <= StepsLeft(s)
    ensures forall l | l in run :: !l.Enqueue? && !l.Take? && !l.Arrive? && !l.Cancel? && !l.PostFails?
    ensures Exec(s, run).pc.Done? && Exec(s, run).pc != Done(Success)
    decreases StepsLeft(s)
  {
    if s.pc.Done? {
      run := [];
    } else {
      var l := NextOwnStep(s);
      CancelledStepShrinks(s, l);
      CancelledStep(s, l);
      StepKeeps(s, l);
      hide Inv;
      var rest := CancelLeaves(Step(s, l));
      run := [l] + rest;
    }
  }

  // ---- What a cancelled run reports ----

  /** The last finished fetch the run has looked at. */
  function LastLook(s: State, run: seq<Label>): Option<Fetch>
    requires IsRun(s, run)
    decreases |run|
  {
    if run == [] then None
    else
      var later := LastLook(Step(s, run[0]), run[1..]);
      if later.Some? then later else LooksAt(s, run[0])
  }

  /** The stream had ended, or had broken off, when it was last looked at. */
  predicate StreamOver(look: Option<Fetch>) {
    look == Some(EndOfStream) || look == Some(Broken)
  }

  /** The report of a step that makes a cancelled loop return. */
  lemma CancelledReturn(s: State, l: Label)
    requires Inv(s) && s.cancelled && Enabled(s, l) && Step(s, l).pc.Done?
    ensures Step(s, l).pc.outcome ==
            if l.AbortReturns? then Cancelled
            else if l.PostFails? || LooksAt(s, l) == Some(Broken) then Raised
            else Failed(if s.error.Some? then s.error.value else TRUNCATED)
    ensures !l.AbortReturns? && !l.PostFails? ==> StreamOver(LooksAt(s, l))
    ensures l.AbortReturns? ==> LooksAt(s, l).None?
    ensures Step(s, l).h.failed == if l.PostFails? then s.h.failed + [s.pc.item] else s.h.failed
    ensures Step(s, l).error == s.error
  {
    hide Inv, AfterWait, AfterPost;
    NotSeenIdle(s);
    if l.WaitReturns? { CancelledWait(s); }
    if l.PostOk? { CancelledPost(s); }
  }

  /** Looking at a stream that is over ends the loop. */
  lemma OverMeansDone(s: State, l: Label)
    requires Enabled(s, l) && StreamOver(LooksAt(s, l))
    ensures Step(s, l).pc.Done?
  {
    OverIsDone(s, LooksAt(s, l).value);
    if l.PostOk? { OverIsDone(Injection(s), LooksAt(s, l).value); }
    if l.WaitReturns? { OverIsDone(Thrown(s), LooksAt(s, l).value); }
    hide HandleFetch, Drain;
  }

  lemma OverIsDone(s: State, r: Fetch)
    requires r.EndOfStream? || r.Broken?
    ensures HandleFetch(s, r).pc.Done?
  {
  }

  lemma NothingFailedYet(s: State)
    requires Inv(s) && !s.pc.Done?
    ensures s.h.failed == []
  {
  }

  /** A run that returns has a last step; until then it has looked at no stream that is over. */
  lemma {:induction false} ReturnOfRun(s: State, run: seq<Label>)
    requires Inv(s) && IsRun(s, run) && !s.pc.Done? && Exec(s, run).pc.Done? && Exec(s, run).cancelled
    ensures var t := Exec(s, run);
            t.pc.outcome ==
              if t.h.failed != [] || LastLook(s, run) == Some(Broken) then Raised
              else if LastLook(s, run) == Some(EndOfStream) then Failed(if t.error.Some? then t.error.value else TRUNCATED)
              else Cancelled
    decreases |run|
  {
    hide Inv, LooksAt, Step, Enabled;
    var l, t := run[0], Step(s, run[0]);
    NothingFailedYet(s);
    if t.pc.Done? {
      DoneIsLast(s, run);
      CancelSticks(s, l);
      CancelledReturn(s, l);
    } else {
      if StreamOver(LooksAt(s, l)) { OverMeansDone(s, l); }
      StepKeeps(s, l);
      ReturnOfRun(t, run[1..]);
    }
  }

  lemma DoneIsLast(s: State, run: seq<Label>)
    requires IsRun(s, run) && run != [] && Step(s, run[0]).pc.Done?
    ensures |run| == 1 && Exec(s, run) == Step(s, run[0]) && LastLook(s, run) == LooksAt(s, run[0])
  {
    hide Step, LooksAt;
    NothingAfterDone(Step(s, run[0]), run[1..]);
  }

  lemma NothingAfterDone(s: State, run: seq<Label>)
    requires s.pc.Done? && IsRun(s, run)
    ensures run == []
  {
  }

  /** Cancellation is not what makes the loop return: it was there before the last step. */
  lemma CancelSticks(s: State, l: Label)
    requires Enabled(s, l) && Step(s, l).pc.Done? && Step(s, l).cancelled
    ensures s.cancelled
  {
    hide HandleFetch, Drain;
    if l.WaitReturns? && !s.fetch.Pending? {
      HandledAlike(s, s.fetch);
      HandledAlike(Thrown(s), s.fetch);
    }
    if l.PostOk? {
      DrainedAlike(Injection(s));
      if s.pc.origin.FromTask? && !s.pc.origin.snapshot.Pending? { HandledAlike(Injection(s), s.pc.origin.snapshot); }
    }
  }

  lemma DrainedAlike(s: State)
    ensures Drain(s).cancelled == s.cancelled
  {
  }

  lemma HandledAlike(s: State, r: Fetch)
    requires !r.Pending?
    ensures HandleFetch(s, r).cancelled == s.cancelled
  {
    hide Drain;
    if r.Got? && r.line.Event? {
      DrainedAlike(s.(error := NoteError(s.error, r.line.kind), h := s.h.(translated := s.h.translated + [r.line])));
    }
  }

  /**
   What a cancelled run reports.  It is "cancelled" if and only if no POST raised and the
   stream was not over when it was last looked at; otherwise the exception, the recorded error
   or the truncated stream wins.
   */
  lemma CancelledOutcome(enabled: bool, queued: seq<Item>, run: seq<Label>)
    requires !enabled ==> queued == []
    requires IsRun(Init(enabled, queued), run)
    requires Exec(Init(enabled, queued), run).cancelled && Exec(Init(enabled, queued), run).pc.Done?
    ensures var s, look := Exec(Init(enabled, queued), run), LastLook(Init(enabled, queued), run);
            && (s.pc.outcome == Cancelled <==> s.h.failed == [] && !StreamOver(look))
            && (s.pc.outcome == Raised <==> s.h.failed != [] || look == Some(Broken))
            && (s.pc.outcome.Failed? ==> s.pc.outcome.message == if s.error.Some? then s.error.value else TRUNCATED)
  {
    InitInv(enabled, queued);
    ReturnOfRun(Init(enabled, queued), run);
  }

  /** A run that was cancelled first and still reports a truncated stream. */
  lemma CancelCanBeMissed()
    ensures var run := [Cancel, Arrive(EndOfStream), WaitReturns];
            && IsRun(Init(true, []), run)
            && Exec(Init(true, []), run).cancelled
            && Exec(Init(true, []), run).pc == Done(Failed(TRUNCATED))
  {
    var s := Init(true, []);
    var t := Step(Step(s, Cancel), Arrive(EndOfStream));
    assert Enabled(t, WaitReturns) && IsRun(t, [WaitReturns]);
    assert IsRun(Step(s, Cancel), [Arrive(EndOfStream), WaitReturns]);
  }
}
