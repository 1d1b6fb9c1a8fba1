/** No toggle is ever stuck, failed or not, and an idle client keeps no map entry. */
module ToggleProgress {
  import opened ToggleMachine
  import opened ToggleSafety

  function Remaining(t: Toggle): nat {
    (if t.late.Some? then 1 else 0) +
    match t.phase
    case Queued => 7
    case Getting => 6
    case Read(_) => 5
    case Putting(_) => 4
    case Written(_) => 3
    case Settled(_) => if !t.tracked then 2 else if !t.cleaned then 1 else 0
  }

  function StepsLeft(toggles: seq<Toggle>): nat {
    if toggles == [] then 0 else StepsLeft(toggles[..|toggles| - 1]) + Remaining(toggles[|toggles| - 1])
  }

  lemma {:induction false} StepsLeftUpdate(a: seq<Toggle>, i: nat, t: Toggle)
    requires i < |a|
    ensures StepsLeft(a[i := t]) == StepsLeft(a) - Remaining(a[i]) + Remaining(t)
    decreases |a|
  {
    var n := |a| - 1;
    if i == n {
      assert a[i := t][..n] == a[..n];
    } else {
      assert a[i := t][..n] == a[..n][i := t];
      StepsLeftUpdate(a[..n], i, t);
    }
  }

  lemma ToggleMoves(s: State, l: Label)
    requires Enabled(s, l) && !l.Enqueue? && TimedAt(s.clock, s.toggles[l.t])
    requires s.toggles[l.t].tracked ==> s.toggles[l.t].phase.Settled?
    requires s.toggles[l.t].cleaned ==> s.toggles[l.t].tracked
    ensures Remaining(Step(s, l).toggles[l.t]) < Remaining(s.toggles[l.t])
    ensures Step(s, l).toggles == s.toggles[l.t := Step(s, l).toggles[l.t]]
  {
  }

  lemma StepShrinks(s: State, l: Label)
    requires Inv(s) && Enabled(s, l) && !l.Enqueue?
    ensures StepsLeft(Step(s, l).toggles) < StepsLeft(s.toggles)
  {
    assert ChainedAt(s.toggles, l.t) && TimedAt(s.clock, s.toggles[l.t]);
    ToggleMoves(s, l);
    hide *;
    StepsLeftUpdate(s.toggles, l.t, Step(s, l).toggles[l.t]);
  }

  lemma {:induction false} StepsLeftBound(a: seq<Toggle>, clock: nat)
    requires forall i | 0 <= i < |a| :: TimedAt(clock, a[i])
    ensures StepsLeft(a) <= 7 * |a|
    decreases |a|
  {
    if a != [] { StepsLeftBound(a[..|a| - 1], clock); }
  }

  /** Without further toggles every run is over after at most seven steps a toggle. */
  lemma {:induction false} RunsAreBounded(s: State, run: seq<Label>)
    requires Inv(s) && IsRun(s, run)
    requires forall l | l in run :: !l.Enqueue?
    ensures |run| + StepsLeft(Exec(s, run).toggles) <= StepsLeft(s.toggles) <= 7 * |s.toggles|
    decreases |run|
  {
    StepsLeftBound(s.toggles, s.clock);
    if run != [] {
      StepShrinks(s, run[0]);
      StepKeeps(s, run[0]);
      RunsAreBounded(Step(s, run[0]), run[1..]);
    }
  }

  /** Only a new toggle, or a stray PUT reaching the server, can happen. */
  ghost predicate Quiescent(s: State) {
    forall l :: Enabled(s, l) ==> l.Enqueue? || l.LateWrite?
  }

  /** The step an unfinished toggle takes next, once its predecessor has settled. */
  function NextStep(t: Toggle, i: nat): Label {
    match t.phase
    case Queued => Start(i)
    case Getting => ServerReads(i)
    case Read(_) => GetReturns(i)
    case Putting(_) => ServerWrites(i)
    case Written(_) => PutReturns(i)
    case Settled(_) => if !t.tracked then Track(i) else Clean(i)
  }

  lemma ReadyMoves(s: State, i: nat)
    requires i < |s.toggles| && !s.toggles[i].cleaned && PriorSettled(s, s.toggles[i].prior)
    ensures Enabled(s, NextStep(s.toggles[i], i))
  {
  }

  /** The first toggle whose tail has not settled can move, whatever became of the earlier ones. */
  lemma FirstUnsettledMoves(s: State, i: nat)
    requires Inv(s) && i < |s.toggles| && !s.toggles[i].tracked
    requires forall j | 0 <= j < i && s.toggles[j].project == s.toggles[i].project :: s.toggles[j].tracked
    ensures Enabled(s, NextStep(s.toggles[i], i))
  {
    assert ChainedAt(s.toggles, i);
    hide Inv, Enabled;
    ReadyMoves(s, i);
  }

  lemma FirstUnsettled(s: State, k: nat) returns (i: nat)
    requires k < |s.toggles| && !s.toggles[k].tracked
    ensures i <= k && !s.toggles[i].tracked
    ensures forall j | 0 <= j < i :: s.toggles[j].tracked
  {
    i := 0;
    while s.toggles[i].tracked
      invariant i <= k
      invariant forall j | 0 <= j < i :: s.toggles[j].tracked
      decreases k - i
    {
      i := i + 1;
    }
  }

  lemma CleanIsEnabled(s: State, k: nat)
    requires k < |s.toggles| && s.toggles[k].tracked && !s.toggles[k].cleaned
    ensures Enabled(s, Clean(k))
  {
  }

  lemma TrackedIsSettled(s: State, k: nat)
    requires Chained(s) && k < |s.toggles| && s.toggles[k].tracked
    ensures s.toggles[k].phase.Settled?
  {
    assert ChainedAt(s.toggles, k);
  }

  lemma NoTailsLeft(s: State)
    requires Tails(s) && forall i | 0 <= i < |s.toggles| :: s.toggles[i].cleaned
    ensures s.tails == map[]
  {
    assert forall p | p in s.tails :: TailOf(s.toggles, s.tails[p], p);
    assert s.tails.Keys == {};
  }

  /** When the client has nothing left to do, every caller has been answered and the map is empty. */
  lemma QuiescentMeansIdle(s: State)
    requires Inv(s) && Quiescent(s)
    ensures s.tails == map[]
    ensures forall i | 0 <= i < |s.toggles| :: s.toggles[i].phase.Settled? && s.toggles[i].cleaned
  {
    hide Tails, Timed, Current, NoLostUpdate, ChainedAt;
    forall k | 0 <= k < |s.toggles| ensures s.toggles[k].phase.Settled? && s.toggles[k].cleaned {
      if !s.toggles[k].tracked {
        var i := FirstUnsettled(s, k);
        FirstUnsettledMoves(s, i);
      } else if !s.toggles[k].cleaned {
        CleanIsEnabled(s, k);
      } else {
        TrackedIsSettled(s, k);
      }
    }
    NoTailsLeft(s);
  }
}
