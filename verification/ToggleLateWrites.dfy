/**
 PUTs that reach the server after the client has given up on them.

 The queue orders promises, not requests: a toggle whose PUT was rejected lets its successor
 start while that PUT may still be on its way.  This module says exactly when that loses an
 update.
 */
module ToggleLateWrites {
  import opened Options
  import opened ToggleMachine
  import opened ToggleSafety

  // ---- Late writes that come in time ----

  /** No later toggle of the project has been answered yet. */
  predicate ComesInTime(s: State, t: nat)
    requires t < |s.toggles|
  {
    forall j | t < j < |s.toggles| && s.toggles[j].project == s.toggles[t].project :: s.toggles[j].readAt.None?
  }

  /** Each late write of the run reaches the server before the GET of any later toggle of its project. */
  predicate LateWritesInTime(s: State, run: seq<Label>)
    requires IsRun(s, run)
    decreases |run|
  {
    run == [] || (
      && (run[0].LateWrite? ==> ComesInTime(s, run[0].t))
      && LateWritesInTime(Step(s, run[0]), run[1..]))
  }

  /** Writes precede the reads of all later toggles of the project, whether those write or not. */
  ghost predicate ReadsSeeWrites(s: State) {
    forall i, j | 0 <= i < j < |s.toggles| && s.toggles[i].project == s.toggles[j].project
                  && s.toggles[i].wroteAt.Some? && s.toggles[j].readAt.Some? ::
      s.toggles[i].wroteAt.value < s.toggles[j].readAt.value
  }

  /** While a toggle is active no later one of its project has read, and all earlier ones have written. */
  lemma ActiveIsLast(s: State, i: nat)
    requires Chained(s) && Timed(s) && i < |s.toggles| && Active(s.toggles[i])
    ensures ComesInTime(s, i)
    ensures forall k | 0 <= k < i && s.toggles[k].project == s.toggles[i].project :: s.toggles[k].phase.Settled?
  {
    assert ChainedAt(s.toggles, i);
    forall k | 0 <= k < i && s.toggles[k].project == s.toggles[i].project ensures s.toggles[k].phase.Settled? {
      assert ChainedAt(s.toggles, k);
    }
    forall j | i < j < |s.toggles| && s.toggles[j].project == s.toggles[i].project ensures s.toggles[j].readAt.None? {
      assert ChainedAt(s.toggles, j) && ChainedAt(s.toggles, i) && TimedAt(s.clock, s.toggles[j]);
    }
  }

  lemma StepReadsSeeWrites(s: State, l: Label)
    requires Chained(s) && Timed(s) && ReadsSeeWrites(s) && Enabled(s, l)
    requires l.LateWrite? ==> ComesInTime(s, l.t)
    ensures ReadsSeeWrites(Step(s, l))
  {
    var to := Step(s, l);
    if !l.Enqueue? {
      assert TimedAt(s.clock, s.toggles[l.t]);
      if l.ServerWrites? { ActiveIsLast(s, l.t); }
    }
    hide Chained;
    forall i, j | 0 <= i < j < |to.toggles| && to.toggles[i].project == to.toggles[j].project
                  && to.toggles[i].wroteAt.Some? && to.toggles[j].readAt.Some?
      ensures to.toggles[i].wroteAt.value < to.toggles[j].readAt.value
    {
      assert TimedAt(s.clock, s.toggles[i]);
    }
  }

  lemma {:induction false} RunReadsSeeWrites(s: State, run: seq<Label>)
    requires Inv(s) && ReadsSeeWrites(s) && IsRun(s, run) && LateWritesInTime(s, run)
    ensures ReadsSeeWrites(Exec(s, run))
    decreases |run|
  {
    if run != [] {
      StepReadsSeeWrites(s, run[0]);
      StepKeeps(s, run[0]);
      hide Inv, ReadsSeeWrites, Step, Enabled;
      RunReadsSeeWrites(Step(s, run[0]), run[1..]);
    }
  }

  /** No update is lost in any run whose late writes, if any, come in time. */
  lemma LateInTimeLosesNothing(server: map<Project, Links>, run: seq<Label>, p: Project)
    requires IsRun(Init(server), run) && LateWritesInTime(Init(server), run)
    ensures var s := Exec(Init(server), run);
            Get(s.server, p) == Fold(Get(server, p), s.toggles, p)
  {
    InitInv(server);
    RunReadsSeeWrites(Init(server), run);
    RunKeeps(Init(server), run);
    var s := Exec(Init(server), run);
    assert InOrder(s.toggles, p) by {
      assert forall i | 0 <= i < |s.toggles| :: TimedAt(s.clock, s.toggles[i]);
      hide Exec, IsRun, LateWritesInTime, Chained, Tails, Current, NoLostUpdate;
    }
    hide *;
    ServerIsFold(server, run, p);
  }

  // ---- And only then ----

  /** Each toggle of the project changes a repo of its own, and would change the initial list. */
  ghost predicate OwnChanges(s: State, p: Project) {
    && (forall i, j | 0 <= i < j < |s.toggles| && s.toggles[i].project == p == s.toggles[j].project ::
          s.toggles[i].repo != s.toggles[j].repo)
    && (forall i | 0 <= i < |s.toggles| && s.toggles[i].project == p :: !Holds(Get(s.start, p), s.toggles[i]))
  }

  /** The toggle's change is in the list. */
  predicate Holds(links: Links, t: Toggle) {
    t.repo in links <==> t.attach
  }

  /** The list differs from the initial one only by toggles of the project. */
  ghost predicate OnlyToggles(s: State, p: Project, links: Links) {
    forall r :: (r in links <==> r in Get(s.start, p)) || exists k | 0 <= k < |s.toggles| :: s.toggles[k].project == p && s.toggles[k].repo == r
  }

  /** The changes in a list were written in order, each before the next was read. */
  ghost predicate Lineage(s: State, p: Project, links: Links) {
    && OnlyToggles(s, p, links)
    && (forall k | 0 <= k < |s.toggles| && s.toggles[k].project == p && Holds(links, s.toggles[k]) :: s.toggles[k].wroteAt.Some?)
    && (forall i, j | 0 <= i < j < |s.toggles| && s.toggles[i].project == p == s.toggles[j].project
                      && Holds(links, s.toggles[i]) && Holds(links, s.toggles[j]) ::
          Precedes(s.toggles[i], s.toggles[j]))
  }

  predicate Precedes(t: Toggle, u: Toggle) {
    t.wroteAt.Some? && u.readAt.Some? && t.wroteAt.value < u.readAt.value
  }

  /** What toggle `i` holds, its own change left out, consists of earlier toggles that were written before it read. */
  ghost predicate HeldBy(s: State, i: nat, links: Links)
    requires i < |s.toggles|
  {
    var p := s.toggles[i].project;
    && OnlyToggles(s, p, links)
    && (forall k | 0 <= k < |s.toggles| && k != i && s.toggles[k].project == p && Holds(links, s.toggles[k]) ::
          k < i && Precedes(s.toggles[k], s.toggles[i]))
    && (forall k, l | 0 <= k < l < |s.toggles| && k != i && l != i && s.toggles[k].project == p == s.toggles[l].project
                      && Holds(links, s.toggles[k]) && Holds(links, s.toggles[l]) ::
          Precedes(s.toggles[k], s.toggles[l]))
  }

  ghost predicate HoldsWell(s: State, i: nat)
    requires i < |s.toggles|
  {
    var t := s.toggles[i];
    && (t.phase.Read? ==> HeldBy(s, i, t.phase.links))
    && (t.phase.Putting? ==> HeldBy(s, i, t.phase.ids))
    && (t.late.Some? ==> HeldBy(s, i, t.late.value))
  }

  ghost predicate Lineages(s: State, p: Project) {
    && Lineage(s, p, Get(s.server, p))
    && (forall i | 0 <= i < |s.toggles| && s.toggles[i].project == p :: HoldsWell(s, i))
  }

  lemma EnqueueKeepsHeld(s: State, l: Label, i: nat, links: Links)
    requires l.Enqueue? && i < |s.toggles| && HeldBy(s, i, links)
    requires OwnChanges(Step(s, l), s.toggles[i].project)
    ensures HeldBy(Step(s, l), i, links)
  {
    var to, n, p := Step(s, l), |s.toggles|, s.toggles[i].project;
    assert forall k | 0 <= k < n :: to.toggles[k] == s.toggles[k];
    MoreToggles(s, to, p, links);
    if l.project == p { NewIsNotHeld(s, l, links); }
  }

  lemma MoreToggles(s: State, to: State, p: Project, links: Links)
    requires OnlyToggles(s, p, links) && to.start == s.start && |s.toggles| <= |to.toggles|
    requires forall k | 0 <= k < |s.toggles| :: to.toggles[k].project == s.toggles[k].project && to.toggles[k].repo == s.toggles[k].repo
    ensures OnlyToggles(to, p, links)
  {
    forall r | !(r in links <==> r in Get(s.start, p))
      ensures exists k | 0 <= k < |to.toggles| :: to.toggles[k].project == p && to.toggles[k].repo == r
    {
      var k :| 0 <= k < |s.toggles| && s.toggles[k].project == p && s.toggles[k].repo == r;
      assert to.toggles[k].project == p && to.toggles[k].repo == r;
    }
  }

  lemma NewIsNotHeld(s: State, l: Label, links: Links)
    requires l.Enqueue? && OnlyToggles(s, l.project, links) && OwnChanges(Step(s, l), l.project)
    ensures !Holds(links, Step(s, l).toggles[|s.toggles|])
  {
    var to, n := Step(s, l), |s.toggles|;
    assert to.toggles[n].project == l.project && to.toggles[n].repo == l.repo;
    forall k | 0 <= k < n && s.toggles[k].project == l.project ensures s.toggles[k].repo != l.repo {
      assert to.toggles[k] == s.toggles[k];
    }
  }

  lemma EnqueueHoldsWell(s: State, l: Label, i: nat)
    requires l.Enqueue? && i < |s.toggles| && HoldsWell(s, i) && OwnChanges(Step(s, l), s.toggles[i].project)
    ensures HoldsWell(Step(s, l), i)
  {
    var t := s.toggles[i];
    assert Step(s, l).toggles[i] == t;
    hide HeldBy, OwnChanges, Step;
    if t.phase.Read? { EnqueueKeepsHeld(s, l, i, t.phase.links); }
    if t.phase.Putting? { EnqueueKeepsHeld(s, l, i, t.phase.ids); }
    if t.late.Some? { EnqueueKeepsHeld(s, l, i, t.late.value); }
  }

  lemma EnqueueKeepsLineage(s: State, l: Label, p: Project)
    requires l.Enqueue? && Lineage(s, p, Get(s.server, p)) && OwnChanges(Step(s, l), p)
    ensures Lineage(Step(s, l), p, Get(s.server, p))
  {
    var to, n := Step(s, l), |s.toggles|;
    assert forall k | 0 <= k < n :: to.toggles[k] == s.toggles[k];
    MoreToggles(s, to, p, Get(s.server, p));
    if l.project == p { NewIsNotHeld(s, l, Get(s.server, p)); }
    hide OwnChanges, OnlyToggles;
  }

  lemma EnqueueKeepsLineages(s: State, l: Label, p: Project)
    requires l.Enqueue? && Lineages(s, p) && OwnChanges(Step(s, l), p)
    ensures Lineages(Step(s, l), p)
  {
    hide OwnChanges, HeldBy, Lineage;
    EnqueueKeepsLineage(s, l, p);
    var to, n := Step(s, l), |s.toggles|;
    forall i | 0 <= i < |to.toggles| && to.toggles[i].project == p ensures HoldsWell(to, i) {
      if i < n {
        assert to.toggles[i] == s.toggles[i];
        EnqueueHoldsWell(s, l, i);
      }
    }
  }

  /** Times, once set, stay; nothing else that lineages look at changes. */
  ghost predicate Grows(s: State, to: State) {
    && to.start == s.start && |to.toggles| == |s.toggles|
    && forall k | 0 <= k < |s.toggles| :: GrowsTo(s.toggles[k], to.toggles[k])
  }

  predicate GrowsTo(t: Toggle, u: Toggle) {
    && u.project == t.project && u.repo == t.repo && u.attach == t.attach
    && (t.readAt.Some? ==> u.readAt == t.readAt) && (t.wroteAt.Some? ==> u.wroteAt == t.wroteAt)
  }

  lemma GrowsKeepsHeld(s: State, to: State, i: nat, links: Links)
    requires Grows(s, to) && i < |s.toggles| && HeldBy(s, i, links)
    ensures HeldBy(to, i, links)
  {
    var p := s.toggles[i].project;
    assert forall k | 0 <= k < |s.toggles| :: GrowsTo(s.toggles[k], to.toggles[k]);
    MoreToggles(s, to, p, links);
    hide OnlyToggles;
  }

  lemma GrowsKeepsLineage(s: State, to: State, p: Project, links: Links)
    requires Grows(s, to) && Lineage(s, p, links)
    ensures Lineage(to, p, links)
  {
    assert forall k | 0 <= k < |s.toggles| :: GrowsTo(s.toggles[k], to.toggles[k]);
    MoreToggles(s, to, p, links);
    hide OnlyToggles;
  }

  lemma StepGrows(s: State, l: Label)
    requires Timed(s) && Enabled(s, l) && !l.Enqueue?
    ensures Grows(s, Step(s, l))
  {
    assert TimedAt(s.clock, s.toggles[l.t]);
  }

  /** What is read from the server holds only what earlier toggles have written. */
  lemma ReadHolds(s: State, l: Label)
    requires Chained(s) && Timed(s) && Enabled(s, l) && l.ServerReads?
    requires Lineage(s, s.toggles[l.t].project, Get(s.server, s.toggles[l.t].project))
    ensures HeldBy(Step(s, l), l.t, Get(s.server, s.toggles[l.t].project))
  {
    var to, i := Step(s, l), l.t;
    var p := s.toggles[i].project;
    StepGrows(s, l);
    GrowsKeepsLineage(s, to, p, Get(s.server, p));
    ActiveIsLast(s, i);
    hide OnlyToggles, Chained;
    forall k | 0 <= k < |to.toggles| && k != i && to.toggles[k].project == p && Holds(Get(s.server, p), to.toggles[k])
      ensures k < i && Precedes(to.toggles[k], to.toggles[i])
    {
      assert to.toggles[k] == s.toggles[k] && TimedAt(s.clock, s.toggles[k]);
    }
  }

  /** Merging its own change adds nothing else. */
  lemma MergeHolds(s: State, i: nat, links: Links)
    requires i < |s.toggles| && HeldBy(s, i, links) && OwnChanges(s, s.toggles[i].project)
    ensures HeldBy(s, i, Merge(links, s.toggles[i]))
  {
    var t := s.toggles[i];
    var ids := Merge(links, t);
    forall k | 0 <= k < |s.toggles| && k != i && s.toggles[k].project == t.project
      ensures Holds(ids, s.toggles[k]) <==> Holds(links, s.toggles[k])
    {
      assert s.toggles[k].repo != t.repo;
    }
    assert OnlyToggles(s, t.project, ids) by {
      forall r | !(r in ids <==> r in Get(s.start, t.project))
        ensures exists k | 0 <= k < |s.toggles| :: s.toggles[k].project == t.project && s.toggles[k].repo == r
      {
        if r == t.repo { assert s.toggles[i].repo == r; }
      }
    }
    hide OnlyToggles, OwnChanges, Merge, Holds;
  }

  /** What is written has its writer on top of what the writer read. */
  lemma WriteHolds(s: State, l: Label, ids: Links)
    requires Timed(s) && Enabled(s, l) && Writes(l) && HeldBy(s, l.t, ids)
    requires ids == if l.LateWrite? then s.toggles[l.t].late.value else s.toggles[l.t].phase.ids
    ensures Lineage(Step(s, l), s.toggles[l.t].project, ids)
  {
    var to, i := Step(s, l), l.t;
    assert TimedAt(s.clock, s.toggles[i]);
    StepGrows(s, l);
    GrowsKeepsHeld(s, to, i, ids);
    assert to.toggles[i].wroteAt.Some?;
    hide OnlyToggles, Timed, Holds, Grows, Step;
  }

  lemma StepHoldsWell(s: State, l: Label, i: nat)
    requires Chained(s) && Timed(s) && Enabled(s, l) && !l.Enqueue?
    requires i < |s.toggles| && HoldsWell(s, i) && OwnChanges(Step(s, l), s.toggles[i].project)
    requires Lineage(s, s.toggles[i].project, Get(s.server, s.toggles[i].project))
    ensures HoldsWell(Step(s, l), i)
  {
    var to, t := Step(s, l), s.toggles[i];
    StepGrows(s, l);
    assert TimedAt(s.clock, t);
    hide HeldBy, Grows, OwnChanges, Chained, Timed, Lineage;
    if i == l.t && l.ServerReads? {
      ReadHolds(s, l);
    } else {
      if t.phase.Read? { GrowsKeepsHeld(s, to, i, t.phase.links); }
      if t.phase.Putting? { GrowsKeepsHeld(s, to, i, t.phase.ids); }
      if t.late.Some? { GrowsKeepsHeld(s, to, i, t.late.value); }
      if i == l.t && l.GetReturns? { MergeHolds(to, i, t.phase.links); }
    }
  }

  lemma OtherKeepsLineages(s: State, l: Label, p: Project)
    requires Chained(s) && Timed(s) && Enabled(s, l) && !l.Enqueue?
    requires Lineages(s, p) && OwnChanges(Step(s, l), p)
    ensures Lineages(Step(s, l), p)
  {
    var to := Step(s, l);
    StepGrows(s, l);
    hide Chained, Timed, HoldsWell, Lineage, OwnChanges;
    forall i | 0 <= i < |to.toggles| && to.toggles[i].project == p ensures HoldsWell(to, i) {
      StepHoldsWell(s, l, i);
    }
    if Writes(l) && s.toggles[l.t].project == p {
      var ids := if l.LateWrite? then s.toggles[l.t].late.value else s.toggles[l.t].phase.ids;
      assert HeldBy(s, l.t, ids) by { HeldWell(s, l.t); }
      WriteHolds(s, l, ids);
    } else {
      GrowsKeepsLineage(s, to, p, Get(s.server, p));
    }
  }

  lemma HeldWell(s: State, i: nat)
    requires i < |s.toggles| && HoldsWell(s, i)
    ensures s.toggles[i].phase.Putting? ==> HeldBy(s, i, s.toggles[i].phase.ids)
    ensures s.toggles[i].late.Some? ==> HeldBy(s, i, s.toggles[i].late.value)
  {
  }

  lemma OwnChangesBefore(s: State, l: Label, p: Project)
    requires Enabled(s, l) && OwnChanges(Step(s, l), p)
    ensures OwnChanges(s, p)
  {
    var to := Step(s, l);
    assert forall k | 0 <= k < |s.toggles| ::
             to.toggles[k].project == s.toggles[k].project && to.toggles[k].repo == s.toggles[k].repo
             && to.toggles[k].attach == s.toggles[k].attach;
    hide Step, Enabled;
  }

  lemma {:induction false} OwnChangesThroughout(s: State, run: seq<Label>, p: Project)
    requires IsRun(s, run) && OwnChanges(Exec(s, run), p)
    ensures OwnChanges(s, p)
    decreases |run|
  {
    if run != [] {
      OwnChangesThroughout(Step(s, run[0]), run[1..], p);
      hide OwnChanges;
      OwnChangesBefore(s, run[0], p);
    }
  }

  lemma {:induction false} RunLineages(s: State, run: seq<Label>, p: Project)
    requires Inv(s) && Lineages(s, p) && IsRun(s, run) && OwnChanges(Exec(s, run), p)
    ensures Lineages(Exec(s, run), p)
    decreases |run|
  {
    if run != [] {
      OwnChangesThroughout(Step(s, run[0]), run[1..], p);
      hide Chained, Tails, Timed, Current, NoLostUpdate, Lineages, OwnChanges, Step, Enabled;
      StepKeeps(s, run[0]);
      if run[0].Enqueue? { EnqueueKeepsLineages(s, run[0], p); } else { OtherKeepsLineages(s, run[0], p); }
      RunLineages(Step(s, run[0]), run[1..], p);
    }
  }

  /** In the fold a change is there exactly when its PUT took effect. */
  lemma {:induction false} FoldHolds(s: State, p: Project, n: nat, k: nat)
    requires OwnChanges(s, p) && n <= |s.toggles| && k < |s.toggles| && s.toggles[k].project == p
    ensures Holds(Fold(Get(s.start, p), s.toggles[..n], p), s.toggles[k]) <==> k < n && s.toggles[k].wroteAt.Some?
  {
    if n > 0 {
      FoldHolds(s, p, n - 1, k);
      assert s.toggles[..n][..n - 1] == s.toggles[..n - 1];
      if k != n - 1 && s.toggles[n - 1].project == p { assert s.toggles[k].repo != s.toggles[n - 1].repo; }
      hide OwnChanges;
    }
  }

  lemma StartHoldsNothing(server: map<Project, Links>, p: Project)
    ensures Lineages(Init(server), p)
  {
  }

  /**
   Exactly when nothing is lost.  If each toggle of a project changes a repo of its own, the
   list on the server is the fold of the effective toggles if and only if each effective write
   came before the GET of every later effective toggle was answered.
   */
  lemma FoldExactlyInOrder(server: map<Project, Links>, run: seq<Label>, p: Project)
    requires IsRun(Init(server), run) && OwnChanges(Exec(Init(server), run), p)
    ensures var s := Exec(Init(server), run);
            Get(s.server, p) == Fold(Get(server, p), s.toggles, p) <==> InOrder(s.toggles, p)
  {
    var s := Exec(Init(server), run);
    InitInv(server);
    StartHoldsNothing(server, p);
    StartIsFixed(Init(server), run);
    RunLineages(Init(server), run, p);
    if InOrder(s.toggles, p) { ServerIsFold(server, run, p); }
    hide Exec, IsRun, Init, OnlyToggles;
    if Get(s.server, p) == Fold(Get(server, p), s.toggles, p) {
      assert s.toggles[..|s.toggles|] == s.toggles;
      forall k | 0 <= k < |s.toggles| && s.toggles[k].project == p && s.toggles[k].wroteAt.Some?
        ensures Holds(Get(s.server, p), s.toggles[k])
      {
        FoldHolds(s, p, |s.toggles|, k);
      }
      hide Fold, Holds, OwnChanges;
    }
  }

  // ---- A run that loses an update ----

  lemma {:induction false} RunSnoc(s: State, run: seq<Label>, l: Label)
    requires IsRun(s, run) && Enabled(Exec(s, run), l)
    ensures IsRun(s, run + [l]) && Exec(s, run + [l]) == Step(Exec(s, run), l)
    decreases |run|
  {
    if run != [] {
      assert (run + [l])[1..] == run[1..] + [l];
      RunSnoc(Step(s, run[0]), run[1..], l);
    }
  }

  /** The first PUT is given up on while it is still on its way. */
  lemma GivesUp(p: Project, a: Repo, b: Repo) returns (run: seq<Label>)
    ensures IsRun(Init(map[]), run)
    ensures Exec(Init(map[]), run) ==
            State(map[], map[], 1, map[p := 1],
                  [Toggle(p, a, true, None, Settled(false), Some(0), None, Some({a}), true, false),
                   Toggle(p, b, true, Some(0), Queued, None, None, None, false, false)])
  {
    var start := Init(map[]);
    run := [];
    RunSnoc(start, run, Enqueue(p, a, true)); run := run + [Enqueue(p, a, true)];
    RunSnoc(start, run, Enqueue(p, b, true)); run := run + [Enqueue(p, b, true)];
    RunSnoc(start, run, Start(0)); run := run + [Start(0)];
    RunSnoc(start, run, ServerReads(0)); run := run + [ServerReads(0)];
    RunSnoc(start, run, GetReturns(0)); run := run + [GetReturns(0)];
    assert {} + {a} == {a};
    RunSnoc(start, run, PutFails(0)); run := run + [PutFails(0)];
    RunSnoc(start, run, Track(0)); run := run + [Track(0)];
  }

  lemma FoldOfTwo(p: Project, ts: seq<Toggle>)
    requires |ts| == 2 && ts[0].project == p == ts[1].project && ts[0].wroteAt.Some? && ts[1].wroteAt.Some?
    ensures Fold({}, ts, p) == Merge(Merge({}, ts[0]), ts[1])
  {
    assert ts[..1][..0] == [];
    assert Fold({}, ts[..1], p) == Merge({}, ts[0]);
  }

  /**
   A run that loses an update: the second toggle attaches `b` and its caller is told so, then
   the first one's PUT reaches the server after all and takes `b` away again.
   */
  lemma LateWriteLosesUpdate(p: Project, a: Repo, b: Repo) returns (run: seq<Label>)
    requires a != b
    ensures IsRun(Init(map[]), run)
    ensures var s := Exec(Init(map[]), run);
            && |s.toggles| == 2 && s.toggles[1].repo == b && s.toggles[1].attach && s.toggles[1].phase == Settled(true)
            && Get(s.server, p) == {a} && Fold({}, s.toggles, p) == {a, b}
  {
    var start := Init(map[]);
    run := GivesUp(p, a, b);
    RunSnoc(start, run, Start(1)); run := run + [Start(1)];
    RunSnoc(start, run, ServerReads(1)); run := run + [ServerReads(1)];
    RunSnoc(start, run, GetReturns(1)); run := run + [GetReturns(1)];
    RunSnoc(start, run, ServerWrites(1)); run := run + [ServerWrites(1)];
    RunSnoc(start, run, PutReturns(1)); run := run + [PutReturns(1)];
    RunSnoc(start, run, LateWrite(0)); run := run + [LateWrite(0)];
    FoldOfTwo(p, Exec(start, run).toggles);
    assert {} + {a} + {b} == {a, b};
  }
}
