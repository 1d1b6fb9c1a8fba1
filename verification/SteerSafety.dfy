/** What holds in every reachable state of the steering loop, whatever the interleaving. */
module SteerSafety {
  import opened Options
  import opened SteerMachine

  // ---- Every step keeps the invariant ----

  lemma DecideIdleKeeps(s: State)
    requires Inv(s) && s.pc.AtWait? && s.queue == []
    requires s.delivered || (!s.cancelled && !s.steer.Took?)
    ensures Inv(DecideIdle(s))
  {
    DecideIdleMarks(s);
    hide IdleMarks, CleanFinish;
  }

  lemma DecideIdleMarks(s: State)
    requires IdleMarks(s) && s.pc.AtWait? && !s.sawIdle
    ensures IdleMarks(DecideIdle(s))
    ensures DecideIdle(s).sawIdle ==> CleanFinish(DecideIdle(s))
  {
    var m := s.h.marks;
    if m != [] { assert m[|m| - 1] in m; }
  }

  lemma StartPostKeeps(s: State, item: Item, rest: State, origin: Origin)
    requires Inv(s) && s.pc.AtWait? && s.enabled
    requires rest == s.(queue := rest.queue, steer := rest.steer, h := s.h.(overtook := rest.h.overtook))
    requires multiset(s.queue) + multiset(Held(s.steer))
          == multiset{item} + multiset(rest.queue) + multiset(Held(rest.steer))
    requires !rest.steer.Off?
    ensures Inv(StartPost(rest, item, origin))
  {
  }

  lemma DropQueueKeeps(s: State)
    requires Inv(s) && s.pc.AtWait? && s.cancelled
    ensures Inv(s.(queue := [], h := s.h.(dropped := s.h.dropped + s.queue)))
  {
  }

  lemma DrainKeeps(s: State)
    requires Inv(s) && s.pc.AtWait?
    requires s.delivered || (!s.cancelled && !s.steer.Took?)
    ensures Inv(Drain(s))
  {
    assert Shape(s);
    hide Inv;
    if !s.enabled || s.queue == [] {
      DecideIdleKeeps(s);
    } else if s.cancelled {
      DropQueueKeeps(s);
      DecideIdleKeeps(s.(queue := [], h := s.h.(dropped := s.h.dropped + s.queue)));
    } else {
      assert s.queue == [s.queue[0]] + s.queue[1..];
      StartPostKeeps(s, s.queue[0],
        s.(queue := s.queue[1..], h := s.h.(overtook := s.h.overtook || s.steer.Took?)), FromDrain);
    }
  }

  lemma TranslateKeeps(s: State, line: Wire, error: Option<string>)
    requires Inv(s) && s.pc.AtWait?
    ensures Inv(s.(error := error, h := s.h.(translated := s.h.translated + [line])))
  {
  }

  lemma JumpKeeps(s: State, to: State)
    requires Inv(s) && !s.pc.Posting? && !s.pc.Done?
    requires to == s.(fetch := to.fetch, pc := to.pc)
    requires match to.pc
             case AtWait | Done(Raised) | Done(Failed(_)) | Unwinding(false) | Done(Cancelled) => true
             case Unwinding(true) | Aborting => s.cancelled
             case _ => false
    ensures Inv(to)
  {
  }

  lemma HandleFetchKeeps(s: State, r: Fetch)
    requires Inv(s) && s.pc.AtWait? && !r.Pending?
    requires s.delivered || !s.steer.Took?
    ensures Inv(HandleFetch(s, r))
  {
    hide Inv;
    if r.Got? && !s.cancelled && r.line.Event? && !r.line.session.OtherSession? {
      var error := NoteError(s.error, r.line.kind);
      var s1 := s.(error := error, h := s.h.(translated := s.h.translated + [r.line]));
      TranslateKeeps(s, r.line, error);
      if r.line.kind.IdleKind? && r.line.session.OwnSession? {
        DrainKeeps(s1);
      } else {
        JumpKeeps(s1, Loop(s1));
      }
    } else {
      assert !s.sawIdle by { NotIdleYet(s); }
      JumpKeeps(s, HandleFetch(s, r));
    }
  }

  lemma NotIdleYet(s: State)
    requires Inv(s) && s.pc.AtWait?
    ensures !s.sawIdle
  {
  }

  lemma DropHeldKeeps(s: State)
    requires Inv(s) && s.pc.AtWait? && s.steer.Took? && s.cancelled
    ensures Inv(s.(steer := Armed, h := s.h.(dropped := s.h.dropped + [s.steer.item])))
  {
  }

  lemma AfterWaitKeeps(s: State)
    requires Inv(s) && Enabled(s, WaitReturns)
    ensures Inv(AfterWait(s))
  {
    if s.steer.Took? && !s.cancelled {
      StartPostKeeps(s, s.steer.item, s.(steer := Armed), FromTask(s.fetch));
    } else if s.steer.Took? {
      hide Inv;
      DropHeldKeeps(s);
      AfterSteerKeeps(s.(steer := Armed, h := s.h.(dropped := s.h.dropped + [s.steer.item])), s.fetch);
    } else {
      hide Inv;
      if s.fetch.Pending? {
        JumpKeeps(s, AfterWait(s));
      } else {
        HandleFetchKeeps(s, s.fetch);
      }
    }
  }

  lemma AfterSteerKeeps(s: State, snapshot: Fetch)
    requires Inv(s) && s.pc.AtWait?
    requires s.delivered || !s.steer.Took?
    ensures Inv(AfterSteer(s, snapshot))
  {
    hide Inv;
    if snapshot.Pending? {
      JumpKeeps(s, AfterSteer(s, snapshot));
    } else {
      HandleFetchKeeps(s, snapshot);
    }
  }

  lemma InjectionKeeps(s: State)
    requires Inv(s) && s.pc.Posting?
    ensures Inv(Injection(s))
  {
    InjectionConserves(s);
    InjectionMarks(s);
    hide Conserved, IdleMarks;
  }

  lemma InjectionConserves(s: State)
    requires Conserved(s) && s.pc.Posting?
    ensures Conserved(Injection(s))
  {
  }

  lemma InjectionMarks(s: State)
    requires IdleMarks(s) && s.pc.Posting? && !s.sawIdle
    ensures IdleMarks(Injection(s))
  {
    assert Injection(s).h.marks[|s.h.marks|] == Injected;
  }

  lemma AfterPostKeeps(s: State)
    requires Inv(s) && s.pc.Posting?
    ensures Inv(AfterPost(s))
  {
    hide Inv;
    InjectionKeeps(s);
    match s.pc.origin
    case FromTask(snapshot) => AfterSteerKeeps(Injection(s), snapshot);
    case FromDrain => DrainKeeps(Injection(s));
  }

  lemma EnqueueKeeps(s: State, item: Item)
    requires Inv(s) && Enabled(s, Enqueue(item))
    ensures Inv(Step(s, Enqueue(item)))
  {
  }

  lemma TakeKeeps(s: State)
    requires Inv(s) && Enabled(s, Take)
    ensures Inv(Step(s, Take))
  {
    TakeConserves(s);
    MarksAlike(s, Step(s, Take));
    hide Conserved, IdleMarks;
  }

  lemma MarksAlike(s: State, t: State)
    requires IdleMarks(s) && t.h.marks == s.h.marks && t.h.posted == s.h.posted && t.h.kept == s.h.kept
    requires t.pc == s.pc && t.delivered == s.delivered && t.sawIdle == s.sawIdle
    ensures IdleMarks(t)
  {
  }

  lemma TakeConserves(s: State)
    requires Conserved(s) && Enabled(s, Take)
    ensures Conserved(Step(s, Take))
  {
    assert s.queue == [s.queue[0]] + s.queue[1..];
  }

  lemma CancelArriveKeep(s: State, l: Label)
    requires Inv(s) && Enabled(s, l) && (l.Cancel? || l.Arrive?)
    ensures Inv(Step(s, l))
  {
  }

  lemma PostFailsKeeps(s: State)
    requires Inv(s) && s.pc.Posting?
    ensures Inv(PostRaised(s))
  {
  }

  lemma AfterUnwindKeeps(s: State)
    requires Inv(s) && s.pc.Unwinding?
    ensures Inv(AfterUnwind(s))
  {
    JumpKeeps(s, AfterUnwind(s));
  }

  lemma StepKeeps(s: State, l: Label)
    requires Inv(s) && Enabled(s, l)
    ensures Inv(Step(s, l))
  {
    hide Inv;
    match l
    case Enqueue(item) => EnqueueKeeps(s, item);
    case Take => TakeKeeps(s);
    case WaitReturns => AfterWaitKeeps(s);
    case PostOk => AfterPostKeeps(s);
    case Cancel | Arrive(_) => CancelArriveKeep(s, l);
    case PostFails => PostFailsKeeps(s);
    case UnwindReturns => AfterUnwindKeeps(s);
    case AbortReturns => JumpKeeps(s, Step(s, l));
  }

  /** The invariant holds in every state of every run, under every interleaving. */
  lemma {:induction false} RunKeeps(s: State, run: seq<Label>)
    requires Inv(s) && IsRun(s, run)
    ensures Inv(Exec(s, run))
    decreases |run|
  {
    if run != [] {
      StepKeeps(s, run[0]);
      RunKeeps(Step(s, run[0]), run[1..]);
    }
  }

  // ---- What a run promises ----

  lemma InitInv(enabled: bool, queued: seq<Item>)
    requires !enabled ==> queued == []
    ensures Inv(Init(enabled, queued))
  {
  }

  /** Where an item is: waiting in the queue, held by the steer task, in a POST, or settled. */
  function Places(s: State, item: Item): nat {
    multiset(s.queue)[item] + multiset(Held(s.steer))[item] + multiset(InFlight(s.pc))[item]
      + multiset(s.h.posted)[item] + multiset(s.h.failed)[item] + multiset(s.h.dropped)[item]
  }

  /**
   No follow-up is lost or sent twice: at every moment each one queued so far is in exactly
   one place; its POST has begun exactly as often as it is in flight, sent or failed; and it
   is discarded only after cancellation or because its own POST raised.
   */
  lemma EveryFollowUpHasOnePlace(enabled: bool, queued: seq<Item>, run: seq<Label>, item: Item)
    requires !enabled ==> queued == []
    requires IsRun(Init(enabled, queued), run)
    ensures var s := Exec(Init(enabled, queued), run);
            && Places(s, item) == multiset(s.h.arrived)[item]
            && multiset(s.h.started)[item] ==
                 multiset(InFlight(s.pc))[item] + multiset(s.h.posted)[item] + multiset(s.h.failed)[item]
            && (item in s.h.dropped ==> s.cancelled)
            && (item in s.h.failed ==> s.pc == Done(Raised))
  {
    InitInv(enabled, queued);
    RunKeeps(Init(enabled, queued), run);
  }

  /** With distinct follow-ups, success means each was sent exactly once and none is left. */
  lemma SuccessDeliversAll(enabled: bool, queued: seq<Item>, run: seq<Label>)
    requires !enabled ==> queued == []
    requires IsRun(Init(enabled, queued), run)
    requires Exec(Init(enabled, queued), run).pc == Done(Success)
    ensures var s := Exec(Init(enabled, queued), run);
            && s.queue == [] && Held(s.steer) == [] && s.h.failed == [] && s.h.dropped == []
            && multiset(s.h.posted) == multiset(s.h.started) == multiset(s.h.arrived)
            && s.error.None? && s.sawIdle && !s.cancelled
  {
    InitInv(enabled, queued);
    RunKeeps(Init(enabled, queued), run);
  }

  /**
   The idle that closes a turn with an injection never finishes the run, whatever is reported:
   a run that leaves the loop on an idle ends injection, kept idle, clean idle, or has no
   injection at all and one clean idle.  At any time the idles it kept going on number at
   most its injections.
   */
  lemma FinishesOnCleanIdle(enabled: bool, queued: seq<Item>, run: seq<Label>)
    requires !enabled ==> queued == []
    requires IsRun(Init(enabled, queued), run)
    ensures var s := Exec(Init(enabled, queued), run);
            var m := s.h.marks;
            && s.h.kept <= |s.h.posted|
            && (s.sawIdle <==> FinalIdle in m)
            && (s.pc == Done(Success) ==> s.sawIdle)
            && (s.sawIdle ==>
                  if s.h.posted == [] then m == [FinalIdle]
                  else |m| >= 3 && m[|m| - 3..] == [Injected, KeptIdle, FinalIdle])
  {
    InitInv(enabled, queued);
    RunKeeps(Init(enabled, queued), run);
    var s := Exec(Init(enabled, queued), run);
    hide *;
    FinishOf(s);
  }

  lemma FinishOf(s: State)
    requires Inv(s)
    ensures var m := s.h.marks;
            && s.h.kept <= |s.h.posted|
            && (s.sawIdle <==> FinalIdle in m)
            && (s.pc == Done(Success) ==> s.sawIdle)
            && (s.sawIdle ==>
                  if s.h.posted == [] then m == [FinalIdle]
                  else |m| >= 3 && m[|m| - 3..] == [Injected, KeptIdle, FinalIdle])
  {
    hide Conserved, Discards;
    if s.sawIdle {
      assert IdleMarks(s) && CleanFinish(s);
      hide Inv, SuccessMeans, Shape;
      MarksAtFinish(s);
    }
  }

  lemma MarksAtFinish(s: State)
    requires IdleMarks(s) && CleanFinish(s)
    ensures var m := s.h.marks;
            if s.h.posted == [] then m == [FinalIdle]
            else |m| >= 3 && m[|m| - 3..] == [Injected, KeptIdle, FinalIdle]
  {
    var m := s.h.marks;
    if s.h.posted != [] {
      assert m[|m| - 3] == Injected;
    } else {
      NoInjectionNoKept(m);
    }
  }

  /** A kept idle comes right after an injection, a final one last: without injections it is alone. */
  lemma NoInjectionNoKept(m: seq<Mark>)
    requires Injected !in m && m != []
    requires forall i | 0 <= i < |m| :: m[i] == KeptIdle ==> i > 0 && m[i - 1] == Injected
    requires forall i | 0 <= i < |m| :: m[i] == FinalIdle ==> i == |m| - 1
    ensures m == [FinalIdle]
  {
    assert m[0] in m;
    assert m[0] == FinalIdle;
  }
}
