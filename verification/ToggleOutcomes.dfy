/** What each caller of a toggle is told, against what became of its own requests. */
module ToggleOutcomes {
  import opened Options
  import opened ToggleMachine

  /** Labels that answer the caller of toggle `i`. */
  predicate Answers(l: Label, i: nat) {
    l == PutReturns(i) || l == PutFails(i) || l == GetFails(i)
  }

  lemma AnswerSettles(s: State, l: Label, i: nat)
    requires Enabled(s, l) && i < |s.toggles| && !s.toggles[i].phase.Settled?
    ensures var t := Step(s, l).toggles[i];
            && (t.phase.Settled? <==> Answers(l, i))
            && (l == PutReturns(i) ==> t.phase == Settled(true))
            && (l == PutFails(i) || l == GetFails(i) ==> t.phase == Settled(false))
  {
  }

  /** An answer is given once. */
  lemma AnswerStays(s: State, l: Label, i: nat)
    requires Enabled(s, l) && i < |s.toggles| && s.toggles[i].phase.Settled?
    ensures Step(s, l).toggles[i].phase == s.toggles[i].phase && !Answers(l, i)
  {
  }

  lemma NotYetThere(s: State, l: Label, i: nat)
    requires Enabled(s, l) && i >= |s.toggles|
    ensures !Answers(l, i) && (i < |Step(s, l).toggles| ==> Step(s, l).toggles[i].phase == Queued)
    ensures |s.toggles| <= |Step(s, l).toggles|
  {
  }

  lemma ToggleStays(s: State, l: Label)
    requires Enabled(s, l)
    ensures |s.toggles| <= |Step(s, l).toggles|
  {
  }

  lemma {:induction false} SettledStays(s: State, run: seq<Label>, i: nat)
    requires IsRun(s, run) && i < |s.toggles| && s.toggles[i].phase.Settled?
    ensures i < |Exec(s, run).toggles| && Exec(s, run).toggles[i].phase == s.toggles[i].phase
    ensures forall l | l in run :: !Answers(l, i)
    decreases |run|
  {
    hide Step, Enabled, Answers;
    if run != [] {
      ToggleStays(s, run[0]);
      AnswerStays(s, run[0], i);
      SettledStays(Step(s, run[0]), run[1..], i);
    }
  }

  lemma {:induction false} AnswerOfRun(s: State, run: seq<Label>, i: nat)
    requires IsRun(s, run) && i < |Exec(s, run).toggles|
    requires i < |s.toggles| ==> !s.toggles[i].phase.Settled?
    ensures Exec(s, run).toggles[i].phase == Settled(true) <==> PutReturns(i) in run
    ensures Exec(s, run).toggles[i].phase == Settled(false) <==> GetFails(i) in run || PutFails(i) in run
    decreases |run|
  {
    if run != [] {
      var l, t, rest := run[0], Step(s, run[0]), run[1..];
      assert run == [l] + rest;
      hide Step, Enabled;
      if i >= |s.toggles| {
        NotYetThere(s, l, i);
        AnswerOfRun(t, rest, i);
      } else {
        ToggleStays(s, l);
        AnswerSettles(s, l, i);
        if t.toggles[i].phase.Settled? { SettledStays(t, rest, i); } else { AnswerOfRun(t, rest, i); }
      }
    }
  }

  /**
   Each caller sees its own outcome, whatever became of the toggles before: it is told of
   success if and only if its own PUT was answered, of failure if and only if its own GET or
   PUT was rejected, and of nothing else.
   */
  lemma EachSeesItsOwnOutcome(server: map<Project, Links>, run: seq<Label>, i: nat)
    requires IsRun(Init(server), run) && i < |Exec(Init(server), run).toggles|
    ensures var t := Exec(Init(server), run).toggles[i];
            && (t.phase == Settled(true) <==> PutReturns(i) in run)
            && (t.phase == Settled(false) <==> GetFails(i) in run || PutFails(i) in run)
  {
    AnswerOfRun(Init(server), run, i);
  }

  // ---- What the server sees of a toggle ----

  /** Nothing of the toggle has been sent to be written. */
  predicate NothingSent(t: Toggle) {
    t.wroteAt.None? && t.late.None? && !t.phase.Putting? && !t.phase.Written?
  }

  lemma {:induction false} NothingSentStays(s: State, run: seq<Label>, i: nat)
    requires IsRun(s, run) && i < |s.toggles| && NothingSent(s.toggles[i]) && GetReturns(i) !in run
    ensures i < |Exec(s, run).toggles| && NothingSent(Exec(s, run).toggles[i])
    decreases |run|
  {
    if run != [] {
      assert run == [run[0]] + run[1..];
      NothingSentStep(s, run[0], i);
      hide Step, Enabled, NothingSent;
      NothingSentStays(Step(s, run[0]), run[1..], i);
    }
  }

  lemma NothingSentStep(s: State, l: Label, i: nat)
    requires Enabled(s, l) && i < |s.toggles| && NothingSent(s.toggles[i]) && l != GetReturns(i)
    ensures i < |Step(s, l).toggles| && NothingSent(Step(s, l).toggles[i])
  {
  }

  lemma {:induction false} NothingSentFrom(s: State, run: seq<Label>, i: nat)
    requires IsRun(s, run) && i < |Exec(s, run).toggles| && GetReturns(i) !in run
    requires i < |s.toggles| ==> NothingSent(s.toggles[i])
    ensures NothingSent(Exec(s, run).toggles[i])
    decreases |run|
  {
    if i < |s.toggles| {
      NothingSentStays(s, run, i);
    } else if run != [] {
      assert run == [run[0]] + run[1..];
      NewSentNothing(s, run[0], i);
      hide Step, Enabled, NothingSent;
      NothingSentFrom(Step(s, run[0]), run[1..], i);
    }
  }

  lemma NewSentNothing(s: State, l: Label, i: nat)
    requires Enabled(s, l) && i >= |s.toggles|
    ensures i < |Step(s, l).toggles| ==> NothingSent(Step(s, l).toggles[i])
  {
  }

  /** A toggle whose GET was never answered to the client changes nothing on the server, now or later. */
  lemma UnreadWritesNothing(server: map<Project, Links>, run: seq<Label>, i: nat)
    requires IsRun(Init(server), run) && i < |Exec(Init(server), run).toggles| && GetReturns(i) !in run
    ensures var t := Exec(Init(server), run).toggles[i];
            t.wroteAt.None? && t.late.None? && !t.phase.Putting?
  {
    NothingSentFrom(Init(server), run, i);
  }
}
