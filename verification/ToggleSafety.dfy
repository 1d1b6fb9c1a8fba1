/** What every interleaving of toggles keeps: order per project, and no lost update. */
module ToggleSafety {
  import opened Options
  import opened ToggleMachine

  predicate Active(t: Toggle) {
    !t.phase.Queued? && !t.phase.Settled?
  }

  /** A toggle has started only when all earlier ones of its project have settled. */
  ghost predicate Chained(s: State) {
    forall i | 0 <= i < |s.toggles| :: ChainedAt(s.toggles, i)
  }

  ghost predicate ChainedAt(ts: seq<Toggle>, i: nat)
    requires i < |ts|
  {
    var t := ts[i];
    && (t.tracked ==> t.phase.Settled?)
    && (t.cleaned ==> t.tracked)
    && (t.prior.Some? ==> t.prior.value < i && ts[t.prior.value].project == t.project)
    && (t.prior.Some? ==> forall j | t.prior.value < j < i :: ts[j].project != t.project)
    && (t.prior.None? || !t.phase.Queued? ==> AllTrackedBefore(ts, i))
  }

  /** All earlier toggles of the same project have settled. */
  ghost predicate AllTrackedBefore(ts: seq<Toggle>, i: nat)
    requires i < |ts|
  {
    forall j | 0 <= j < i :: ts[j].project == ts[i].project ==> ts[j].tracked
  }

  /** An entry is the latest toggle of its project; without one, all of them have settled. */
  ghost predicate Tails(s: State) {
    && (forall p | p in s.tails :: TailOf(s.toggles, s.tails[p], p))
    && (forall i | 0 <= i < |s.toggles| :: Covered(s.toggles[i], i, s.tails))
  }

  ghost predicate TailOf(ts: seq<Toggle>, i: nat, p: Project) {
    i < |ts| && ts[i].project == p && !ts[i].cleaned
  }

  ghost predicate Covered(t: Toggle, i: nat, tails: map<Project, nat>) {
    if t.project in tails then i <= tails[t.project] else t.tracked
  }

  /** The server serves one request after another, and an operation reads before it writes. */
  ghost predicate Timed(s: State) {
    forall i | 0 <= i < |s.toggles| :: TimedAt(s.clock, s.toggles[i])
  }

  ghost predicate TimedAt(clock: nat, t: Toggle) {
    && (t.readAt.Some? ==> t.readAt.value < clock)
    && (t.wroteAt.Some? ==> t.readAt.Some? && t.readAt.value < t.wroteAt.value < clock)
    && (t.wroteAt.Some? ==> (t.phase.Written? || t.phase.Settled?) && t.late.None?)
    && (t.phase.Written? || t.phase == Settled(true) ==> t.wroteAt.Some?)
    && (t.phase.Queued? || t.phase.Getting? ==> t.readAt.None?)
    && (t.phase.Read? || t.phase.Putting? ==> t.readAt.Some?)
    && (t.late.Some? ==> t.phase == Settled(false) && t.readAt.Some?)
  }

  /** No write to the project since the toggle's read. */
  ghost predicate UpToDate(ts: seq<Toggle>, i: nat)
    requires i < |ts|
  {
    ts[i].readAt.Some? &&
    forall k | 0 <= k < |ts| && ts[k].project == ts[i].project && ts[k].wroteAt.Some? ::
      ts[k].wroteAt.value < ts[i].readAt.value
  }

  /** What a toggle has read, or is about to write, is in step with the list it is about. */
  ghost predicate InStep(links: Links, t: Toggle) {
    && (t.phase.Read? ==> t.phase.links == links)
    && (t.phase.Putting? ==> t.phase.ids == Merge(links, t))
    && (t.late.Some? ==> t.late.value == Merge(links, t))
  }

  /** It is, as long as nothing has been written since it was read. */
  ghost predicate Current(s: State) {
    forall i | 0 <= i < |s.toggles| :: UpToDate(s.toggles, i) ==> InStep(Get(s.server, s.toggles[i].project), s.toggles[i])
  }

  /** Each PUT that took effect did so before a later toggle that took effect too read the list. */
  ghost predicate InOrder(ts: seq<Toggle>, p: Project) {
    forall i, j | 0 <= i < j < |ts| && ts[i].project == p == ts[j].project && ts[i].wroteAt.Some? && ts[j].wroteAt.Some? ::
      ts[j].readAt.Some? && ts[i].wroteAt.value < ts[j].readAt.value
  }

  ghost predicate NoLostUpdate(s: State) {
    forall p :: InOrder(s.toggles, p) ==> Get(s.server, p) == Fold(Get(s.start, p), s.toggles, p)
  }

  ghost predicate Inv(s: State) {
    Chained(s) && Tails(s) && Timed(s) && Current(s) && NoLostUpdate(s)
  }

  // ---- The fold ----

  /** Toggles that have the same project, change and effect. */
  predicate SameEffects(a: seq<Toggle>, b: seq<Toggle>) {
    |a| == |b| &&
    forall i | 0 <= i < |a| ::
      a[i].project == b[i].project && a[i].repo == b[i].repo && a[i].attach == b[i].attach && a[i].wroteAt == b[i].wroteAt
  }

  lemma {:induction false} FoldSame(links: Links, a: seq<Toggle>, b: seq<Toggle>, p: Project)
    requires SameEffects(a, b)
    ensures Fold(links, a, p) == Fold(links, b, p)
    decreases |a|
  {
    if a != [] {
      FoldSame(links, a[..|a| - 1], b[..|b| - 1], p);
    }
  }

  /** A write by the latest toggle to take effect applies on top of the fold so far. */
  lemma {:induction false} FoldWrite(links: Links, a: seq<Toggle>, b: seq<Toggle>, i: nat, p: Project)
    requires i < |a| && |a| == |b|
    requires b == a[i := b[i]] && b[i].wroteAt.Some? && !a[i].wroteAt.Some?
    requires b[i].project == a[i].project && b[i].repo == a[i].repo && b[i].attach == a[i].attach
    requires forall j | i < j < |a| :: a[j].project == a[i].project ==> !a[j].wroteAt.Some?
    ensures Fold(links, b, p) ==
            if p == a[i].project then Merge(Fold(links, a, p), a[i]) else Fold(links, a, p)
    decreases |a|
  {
    var n := |a| - 1;
    if i == n {
      assert a[..n] == b[..n];
    } else {
      assert b[..n] == a[..n][i := b[i]];
      FoldWrite(links, a[..n], b[..n], i, p);
    }
  }

  /** In the fold, the last toggle of a repo to take effect decides whether it is linked. */
  lemma {:induction false} LastToggleWins(links: Links, toggles: seq<Toggle>, p: Project, repo: Repo)
    ensures var hits := set i | 0 <= i < |toggles| && toggles[i].project == p && toggles[i].repo == repo && toggles[i].wroteAt.Some?;
            if hits == {} then repo in Fold(links, toggles, p) <==> repo in links
            else exists i | i in hits :: (forall j | j in hits :: j <= i)
                                         && (repo in Fold(links, toggles, p) <==> toggles[i].attach)
    decreases |toggles|
  {
    if toggles != [] {
      var n := |toggles| - 1;
      var front := toggles[..n];
      LastToggleWins(links, front, p, repo);
      var hits := set i | 0 <= i < |toggles| && toggles[i].project == p && toggles[i].repo == repo && toggles[i].wroteAt.Some?;
      var earlier := set i | 0 <= i < |front| && front[i].project == p && front[i].repo == repo && front[i].wroteAt.Some?;
      if n in hits {
        assert forall j | j in hits :: j <= n;
      } else {
        assert hits == earlier;
      }
    }
  }

  // ---- Every step keeps the invariant ----

  lemma EnqueueKeepsChained(s: State, l: Label)
    requires Chained(s) && Tails(s) && l.Enqueue?
    ensures Chained(Step(s, l))
  {
    var t := Step(s, l);
    var n := |s.toggles|;
    forall i | 0 <= i < |t.toggles| ensures ChainedAt(t.toggles, i) {
      if i < n {
        assert ChainedAt(s.toggles, i);
      } else {
        assert forall j | 0 <= j < n :: Covered(s.toggles[j], j, s.tails);
        if l.project in s.tails { assert TailOf(s.toggles, s.tails[l.project], l.project); }
      }
    }
  }

  lemma EnqueueKeepsTails(s: State, l: Label)
    requires Tails(s) && l.Enqueue?
    ensures Tails(Step(s, l))
  {
    var t := Step(s, l);
    forall p | p in t.tails ensures TailOf(t.toggles, t.tails[p], p) {
      if p != l.project { assert TailOf(s.toggles, s.tails[p], p); }
    }
    forall i | 0 <= i < |t.toggles| ensures Covered(t.toggles[i], i, t.tails) {
      if i < |s.toggles| { assert Covered(s.toggles[i], i, s.tails); }
    }
  }

  lemma EnqueueKeeps(s: State, l: Label)
    requires Inv(s) && l.Enqueue?
    ensures Inv(Step(s, l))
  {
    EnqueueKeepsChained(s, l);
    EnqueueKeepsTails(s, l);
    hide Chained, Tails;
    var t, n := Step(s, l), |s.toggles|;
    forall i | 0 <= i < |t.toggles| && UpToDate(t.toggles, i)
      ensures InStep(Get(t.server, t.toggles[i].project), t.toggles[i])
    {
      if i < n {
        assert forall k | 0 <= k < n :: t.toggles[k] == s.toggles[k];
        assert UpToDate(s.toggles, i);
      }
    }
    forall p | InOrder(t.toggles, p) ensures Get(t.server, p) == Fold(Get(t.start, p), t.toggles, p) {
      assert t.toggles[..n] == s.toggles;
      assert forall k | 0 <= k < n :: t.toggles[k] == s.toggles[k];
      assert InOrder(s.toggles, p);
    }
  }

  /** Replacing one toggle keeps the chain if it keeps its place in it and never un-settles. */
  lemma ReplaceKeepsChained(s: State, to: State, i: nat)
    requires Chained(s) && i < |s.toggles|
    requires |to.toggles| == |s.toggles| && to.toggles == s.toggles[i := to.toggles[i]]
    requires to.toggles[i].project == s.toggles[i].project && to.toggles[i].prior == s.toggles[i].prior
    requires s.toggles[i].tracked ==> to.toggles[i].tracked
    requires to.toggles[i].cleaned ==> to.toggles[i].tracked
    requires to.toggles[i].tracked ==> to.toggles[i].phase.Settled?
    requires s.toggles[i].phase.Queued? && !to.toggles[i].phase.Queued? ==> PriorSettled(s, s.toggles[i].prior)
    ensures Chained(to)
  {
    forall k | 0 <= k < |to.toggles| ensures ChainedAt(to.toggles, k) {
      assert ChainedAt(s.toggles, k);
      if k == i && s.toggles[i].phase.Queued? && !to.toggles[i].phase.Queued? {
        PriorMeansAll(s, i);
      }
    }
  }

  /** Once its predecessor has settled, all before it have. */
  lemma PriorMeansAll(s: State, i: nat)
    requires Chained(s) && i < |s.toggles| && PriorSettled(s, s.toggles[i].prior)
    ensures AllTrackedBefore(s.toggles, i)
  {
    assert ChainedAt(s.toggles, i);
    if s.toggles[i].prior.Some? {
      assert ChainedAt(s.toggles, s.toggles[i].prior.value);
    }
  }

  lemma OtherKeepsChained(s: State, l: Label)
    requires Chained(s) && Enabled(s, l) && !l.Enqueue?
    ensures Chained(Step(s, l))
  {
    assert ChainedAt(s.toggles, l.t);
    hide Chained;
    ReplaceKeepsChained(s, Step(s, l), l.t);
  }

  /** A change that un-settles nothing, cleans nothing and leaves the map alone. */
  lemma ReplaceKeepsTails(s: State, to: State, i: nat)
    requires Tails(s) && i < |s.toggles| && to.tails == s.tails
    requires |to.toggles| == |s.toggles| && to.toggles == s.toggles[i := to.toggles[i]]
    requires to.toggles[i].project == s.toggles[i].project && to.toggles[i].cleaned == s.toggles[i].cleaned
    requires s.toggles[i].tracked ==> to.toggles[i].tracked
    ensures Tails(to)
  {
    forall p | p in to.tails ensures TailOf(to.toggles, to.tails[p], p) {
      assert TailOf(s.toggles, s.tails[p], p);
    }
    forall k | 0 <= k < |to.toggles| ensures Covered(to.toggles[k], k, to.tails) {
      assert Covered(s.toggles[k], k, s.tails);
    }
  }

  /** The last toggle of a project cleans up after itself: all others have settled by then. */
  lemma CleanKeepsTails(s: State, l: Label)
    requires Chained(s) && Tails(s) && Enabled(s, l) && l.Clean?
    ensures Tails(Step(s, l))
  {
    var to := Step(s, l);
    assert ChainedAt(s.toggles, l.t);
    hide Chained;
    forall p | p in to.tails ensures TailOf(to.toggles, to.tails[p], p) {
      assert TailOf(s.toggles, s.tails[p], p);
    }
    forall k | 0 <= k < |to.toggles| ensures Covered(to.toggles[k], k, to.tails) {
      assert Covered(s.toggles[k], k, s.tails);
    }
  }

  lemma OtherKeepsTails(s: State, l: Label)
    requires Chained(s) && Tails(s) && Enabled(s, l) && !l.Enqueue?
    ensures Tails(Step(s, l))
  {
    if l.Clean? {
      hide Chained, Tails, Step;
      CleanKeepsTails(s, l);
    } else {
      hide Chained, Tails;
      ReplaceKeepsTails(s, Step(s, l), l.t);
    }
  }

  predicate Writes(l: Label) {
    l.ServerWrites? || l.LateWrite?
  }

  lemma OtherKeepsTimed(s: State, l: Label)
    requires Timed(s) && Enabled(s, l) && !l.Enqueue?
    ensures Timed(Step(s, l))
  {
    var to := Step(s, l);
    assert TimedAt(s.clock, s.toggles[l.t]);
    assert TimedAt(to.clock, to.toggles[l.t]);
    forall k | 0 <= k < |to.toggles| ensures TimedAt(to.clock, to.toggles[k]) {
      assert TimedAt(s.clock, s.toggles[k]);
    }
  }

  /** A write outdates all other operations on its project. */
  lemma WriteKeepsCurrent(s: State, l: Label)
    requires Timed(s) && Current(s) && Enabled(s, l) && Writes(l)
    ensures Current(Step(s, l))
  {
    var to := Step(s, l);
    forall k | 0 <= k < |to.toggles| && UpToDate(to.toggles, k)
      ensures InStep(Get(to.server, to.toggles[k].project), to.toggles[k])
    {
      assert TimedAt(s.clock, s.toggles[k]);
      assert to.toggles[l.t].wroteAt == Some(s.clock);
      if k != l.t && s.toggles[k].project != s.toggles[l.t].project {
        StillUpToDate(s, to, l.t, k);
      }
    }
  }

  lemma StillUpToDate(s: State, to: State, i: nat, k: nat)
    requires i < |s.toggles| && |to.toggles| == |s.toggles| && to.toggles == s.toggles[i := to.toggles[i]]
    requires k < |s.toggles| && UpToDate(to.toggles, k) && to.toggles[k].readAt == s.toggles[k].readAt
    requires to.toggles[i].project == s.toggles[i].project
    requires to.toggles[i].wroteAt == s.toggles[i].wroteAt || s.toggles[k].project != s.toggles[i].project
    ensures UpToDate(s.toggles, k)
  {
    assert to.toggles[k].project == s.toggles[k].project;
    forall m | 0 <= m < |s.toggles| && s.toggles[m].project == s.toggles[k].project && s.toggles[m].wroteAt.Some?
      ensures s.toggles[m].wroteAt.value < s.toggles[k].readAt.value
    {
      assert to.toggles[m].wroteAt == s.toggles[m].wroteAt;
    }
  }

  lemma OtherKeepsCurrent(s: State, l: Label)
    requires Timed(s) && Current(s) && Enabled(s, l) && !l.Enqueue? && !Writes(l)
    ensures Current(Step(s, l))
  {
    var to := Step(s, l);
    assert TimedAt(s.clock, s.toggles[l.t]);
    forall k | 0 <= k < |to.toggles| && UpToDate(to.toggles, k)
      ensures InStep(Get(to.server, to.toggles[k].project), to.toggles[k])
    {
      if !(l.ServerReads? && k == l.t) {
        StillUpToDate(s, to, l.t, k);
        assert InStep(Get(s.server, s.toggles[k].project), s.toggles[k]);
      }
    }
  }

  /** A write in order comes on top of everything its project has seen. */
  lemma WriteInOrder(s: State, l: Label)
    requires Timed(s) && Enabled(s, l) && Writes(l) && InOrder(Step(s, l).toggles, s.toggles[l.t].project)
    ensures UpToDate(s.toggles, l.t)
    ensures forall j | l.t < j < |s.toggles| && s.toggles[j].project == s.toggles[l.t].project :: s.toggles[j].wroteAt.None?
  {
    var ts, i := Step(s, l).toggles, l.t;
    assert TimedAt(s.clock, s.toggles[i]) && ts[i].wroteAt == Some(s.clock) && ts[i].readAt == s.toggles[i].readAt;
    forall k | 0 <= k < |ts| && ts[k].project == ts[i].project && s.toggles[k].wroteAt.Some?
      ensures k < i && s.toggles[k].wroteAt.value < s.toggles[i].readAt.value
    {
      assert TimedAt(s.clock, s.toggles[k]);
    }
  }

  lemma WriteKeepsFold(s: State, l: Label)
    requires Timed(s) && Current(s) && NoLostUpdate(s) && Enabled(s, l) && Writes(l)
    ensures NoLostUpdate(Step(s, l))
  {
    var t, i := Step(s, l), l.t;
    assert TimedAt(s.clock, s.toggles[i]);
    forall p | InOrder(t.toggles, p) ensures Get(t.server, p) == Fold(Get(t.start, p), t.toggles, p) {
      WriteStaysInOrder(s, l, p);
      if p == s.toggles[i].project {
        WriteInOrder(s, l);
        FoldWrite(Get(s.start, p), s.toggles, t.toggles, i, p);
      } else {
        FoldElsewhere(Get(s.start, p), s.toggles, t.toggles, i, p);
      }
    }
  }

  /** What is in order after a write was in order before it. */
  lemma WriteStaysInOrder(s: State, l: Label, p: Project)
    requires Timed(s) && Enabled(s, l) && Writes(l) && InOrder(Step(s, l).toggles, p)
    ensures InOrder(s.toggles, p)
  {
    var ts := Step(s, l).toggles;
    assert TimedAt(s.clock, s.toggles[l.t]);
    assert forall k | 0 <= k < |ts| && k != l.t :: ts[k] == s.toggles[k];
  }

  lemma {:induction false} FoldElsewhere(links: Links, a: seq<Toggle>, b: seq<Toggle>, i: nat, p: Project)
    requires i < |a| && |a| == |b| && b == a[i := b[i]]
    requires a[i].project != p && b[i].project != p
    ensures Fold(links, a, p) == Fold(links, b, p)
    decreases |a|
  {
    var n := |a| - 1;
    if i == n {
      assert a[..n] == b[..n];
    } else {
      assert b[..n] == a[..n][i := b[i]];
      FoldElsewhere(links, a[..n], b[..n], i, p);
    }
  }

  lemma OtherKeepsFold(s: State, l: Label)
    requires Timed(s) && NoLostUpdate(s) && Enabled(s, l) && !l.Enqueue? && !Writes(l)
    ensures NoLostUpdate(Step(s, l))
  {
    var t := Step(s, l);
    assert TimedAt(s.clock, s.toggles[l.t]);
    assert SameEffects(s.toggles, t.toggles);
    forall p | InOrder(t.toggles, p) ensures Get(t.server, p) == Fold(Get(t.start, p), t.toggles, p) {
      OrderAlike(s, l, p);
      FoldSame(Get(s.start, p), s.toggles, t.toggles, p);
    }
  }

  lemma OrderAlike(s: State, l: Label, p: Project)
    requires Timed(s) && Enabled(s, l) && !l.Enqueue? && !Writes(l) && InOrder(Step(s, l).toggles, p)
    ensures InOrder(s.toggles, p)
  {
    var ts := Step(s, l).toggles;
    assert TimedAt(s.clock, s.toggles[l.t]);
    assert forall k | 0 <= k < |ts| && s.toggles[k].wroteAt.Some? ::
             ts[k].readAt == s.toggles[k].readAt && ts[k].wroteAt == s.toggles[k].wroteAt && ts[k].project == s.toggles[k].project;
  }

  lemma StepKeeps(s: State, l: Label)
    requires Inv(s) && Enabled(s, l)
    ensures Inv(Step(s, l))
  {
    hide Chained, Tails, Timed, Current, NoLostUpdate, Step;
    if l.Enqueue? {
      EnqueueKeeps(s, l);
    } else {
      OtherKeepsChained(s, l);
      OtherKeepsTails(s, l);
      OtherKeepsTimed(s, l);
      if Writes(l) {
        WriteKeepsCurrent(s, l);
        WriteKeepsFold(s, l);
      } else {
        OtherKeepsCurrent(s, l);
        OtherKeepsFold(s, l);
      }
    }
  }

  lemma {:induction false} RunKeeps(s: State, run: seq<Label>)
    requires Inv(s) && IsRun(s, run)
    ensures Inv(Exec(s, run))
    decreases |run|
  {
    if run != [] {
      StepKeeps(s, run[0]);
      RunKeeps(Step(s, run[0]), run[1..]);
    }
  }

  // ---- What a run promises ----

  lemma InitInv(server: map<Project, Links>)
    ensures Inv(Init(server))
  {
  }

  /**
   No lost update: whatever the interleaving and whichever requests fail, a project whose
   writes came in order has, on the server, the fold in enqueue order of exactly the toggles
   whose PUT took effect; a caller told of success is among those.
   */
  lemma ServerIsFold(server: map<Project, Links>, run: seq<Label>, p: Project)
    requires IsRun(Init(server), run) && InOrder(Exec(Init(server), run).toggles, p)
    ensures var s := Exec(Init(server), run);
            && s.start == server
            && Get(s.server, p) == Fold(Get(server, p), s.toggles, p)
            && forall i | 0 <= i < |s.toggles| :: s.toggles[i].phase == Settled(true) ==> s.toggles[i].wroteAt.Some?
  {
    InitInv(server);
    RunKeeps(Init(server), run);
    StartIsFixed(Init(server), run);
    hide Chained, Tails, Current;
    var s := Exec(Init(server), run);
    assert forall i | 0 <= i < |s.toggles| :: TimedAt(s.clock, s.toggles[i]);
  }

  lemma {:induction false} StartIsFixed(s: State, run: seq<Label>)
    requires IsRun(s, run)
    ensures Exec(s, run).start == s.start
    decreases |run|
  {
    if run != [] {
      StartIsFixed(Step(s, run[0]), run[1..]);
    }
  }

  /** At most one toggle per project is between start and settle, and an entry outlives all work. */
  lemma OneAtATime(server: map<Project, Links>, run: seq<Label>)
    requires IsRun(Init(server), run)
    ensures var ts := Exec(Init(server), run).toggles;
            forall i, j | 0 <= i < j < |ts| && ts[i].project == ts[j].project :: !(Active(ts[i]) && Active(ts[j]))
    ensures var s := Exec(Init(server), run);
            forall i | 0 <= i < |s.toggles| && !s.toggles[i].phase.Settled? :: s.toggles[i].project in s.tails
  {
    InitInv(server);
    RunKeeps(Init(server), run);
    var s := Exec(Init(server), run);
    assert forall i | 0 <= i < |s.toggles| :: ChainedAt(s.toggles, i) && Covered(s.toggles[i], i, s.tails);
    hide NoLostUpdate, Timed, Current, Exec, IsRun;
  }

  /** A toggle starts only on top of its predecessors: all of them have told their callers. */
  lemma StartsAfterPredecessors(server: map<Project, Links>, run: seq<Label>, i: nat)
    requires IsRun(Init(server), run)
    requires i < |Exec(Init(server), run).toggles| && !Exec(Init(server), run).toggles[i].phase.Queued?
    ensures var ts := Exec(Init(server), run).toggles;
            forall j | 0 <= j < i && ts[j].project == ts[i].project :: ts[j].phase.Settled?
  {
    InitInv(server);
    RunKeeps(Init(server), run);
    var s := Exec(Init(server), run);
    hide NoLostUpdate, Timed, Current, Tails, Exec, IsRun;
    assert ChainedAt(s.toggles, i);
    forall j | 0 <= j < i && s.toggles[j].project == s.toggles[i].project ensures s.toggles[j].phase.Settled? {
      assert ChainedAt(s.toggles, j);
    }
  }
}
