/** The toggle queue as it runs: the module-level map and the operations, updated in place. */
module ToggleQueue {
  import opened Options
  import opened ToggleMachine
  import opened ToggleSafety

  class Client {
    ghost const start: map<Project, Links>
    var server: map<Project, Links>
    var clock: nat
    var projectRepoLinkQueues: map<Project, nat>
    var toggles: seq<Toggle>

    ghost function View(): State
      reads this
    {
      State(start, server, clock, projectRepoLinkQueues, toggles)
    }

    ghost predicate Valid()
      reads this
    {
      Inv(View())
    }

    constructor (links: map<Project, Links>)
      ensures Valid() && View() == Init(links)
    {
      start, server, clock, projectRepoLinkQueues, toggles := links, links, 0, map[], [];
      new;
      InitInv(links);
    }

    /**
     `enqueueProjectRepoLinkToggle`: the new toggle is its project's tail, and waits for the
     latest toggle of the project, or for none when all of them have settled.
     */
    method EnqueueToggle(projectId: Project, repoLinkId: Repo, attach: bool) returns (next: nat)
      requires Valid()
      modifies this`toggles, this`projectRepoLinkQueues
      ensures Valid() && View() == Step(old(View()), Enqueue(projectId, repoLinkId, attach))
      ensures next == |toggles| - 1 && toggles[..next] == old(toggles)
      ensures toggles[next].project == projectId && toggles[next].repo == repoLinkId && toggles[next].attach == attach
      ensures match toggles[next].prior
              case None => forall j | 0 <= j < next && toggles[j].project == projectId :: toggles[j].phase.Settled?
              case Some(k) => k < next && toggles[k].project == projectId
                              && forall j | k < j < next :: toggles[j].project != projectId
      ensures projectRepoLinkQueues.Keys == old(projectRepoLinkQueues).Keys + {projectId} && projectRepoLinkQueues[projectId] == next
      ensures forall q | q in old(projectRepoLinkQueues) && q != projectId :: projectRepoLinkQueues[q] == old(projectRepoLinkQueues)[q]
    {
      hide Inv;
      ghost var before := View();
      StepKeeps(before, Enqueue(projectId, repoLinkId, attach));
      var prior := None;
      if projectId in projectRepoLinkQueues {
        prior := Some(projectRepoLinkQueues[projectId]);
      }
      next := |toggles|;
      toggles := toggles + [Toggle(projectId, repoLinkId, attach, prior, Queued, None, None, None, false, false)];
      projectRepoLinkQueues := projectRepoLinkQueues[projectId := next];
      NextInChain(View(), next);
    }

    /** `prior.then(op, op)`: the predecessor has settled, either way. */
    method RunOp(t: nat)
      requires Valid() && Enabled(View(), Start(t))
      modifies this`toggles
      ensures Valid() && View() == Step(old(View()), Start(t))
      ensures forall j | 0 <= j < t && toggles[j].project == toggles[t].project :: toggles[j].phase.Settled?
    {
      hide Inv;
      ghost var before := View();
      StepKeeps(before, Start(t));
      toggles := toggles[t := toggles[t].(phase := Getting)];
      EarlierSettled(View(), t);
    }

    method ServeGet(t: nat)
      requires Valid() && Enabled(View(), ServerReads(t))
      modifies this`toggles, this`clock
      ensures Valid() && View() == Step(old(View()), ServerReads(t))
    {
      hide Inv;
      ghost var before := View();
      StepKeeps(before, ServerReads(t));
      toggles := toggles[t := toggles[t].(phase := Read(Get(server, toggles[t].project)), readAt := Some(clock))];
      clock := clock + 1;
    }

    /**
     The continuation of the GET: what is PUT is, unless another PUT has come in between, the
     list now on the server with the one change made.
     */
    method MergeAndPut(t: nat)
      requires Valid() && Enabled(View(), GetReturns(t))
      modifies this`toggles
      ensures Valid() && View() == Step(old(View()), GetReturns(t))
      ensures toggles[t].phase.Putting?
      ensures forall r :: r in toggles[t].phase.ids <==>
                            if r == toggles[t].repo then toggles[t].attach else r in old(toggles[t].phase.links)
      ensures UpToDate(toggles, t) ==>
                forall r | r != toggles[t].repo :: r in toggles[t].phase.ids <==> r in Get(server, toggles[t].project)
    {
      hide Inv;
      ghost var before := View();
      StepKeeps(before, GetReturns(t));
      var ids := toggles[t].phase.links;
      if toggles[t].attach {
        ids := ids + {toggles[t].repo};
      } else {
        ids := ids - {toggles[t].repo};
      }
      toggles := toggles[t := toggles[t].(phase := Putting(ids))];
      if UpToDate(toggles, t) { WhatIsPut(View(), t); }
      hide UpToDate;
    }

    method ServePut(t: nat)
      requires Valid() && Enabled(View(), ServerWrites(t))
      modifies this`toggles, this`server, this`clock
      ensures Valid() && View() == Step(old(View()), ServerWrites(t))
    {
      hide Inv;
      ghost var before := View();
      StepKeeps(before, ServerWrites(t));
      var ids := toggles[t].phase.ids;
      server := server[toggles[t].project := ids];
      toggles := toggles[t := toggles[t].(phase := Written(ids), wroteAt := Some(clock))];
      clock := clock + 1;
    }

    method ServeLatePut(t: nat)
      requires Valid() && Enabled(View(), LateWrite(t))
      modifies this`toggles, this`server, this`clock
      ensures Valid() && View() == Step(old(View()), LateWrite(t))
    {
      hide Inv;
      ghost var before := View();
      StepKeeps(before, LateWrite(t));
      server := server[toggles[t].project := toggles[t].late.value];
      toggles := toggles[t := toggles[t].(late := None, wroteAt := Some(clock))];
      clock := clock + 1;
    }

    method Settle(t: nat, l: Label)
      requires Valid() && Enabled(View(), l) && (l == GetFails(t) || l == PutReturns(t) || l == PutFails(t))
      modifies this`toggles
      ensures Valid() && View() == Step(old(View()), l)
    {
      hide Inv;
      ghost var before := View();
      StepKeeps(before, l);
      var late := if l.PutFails? && toggles[t].phase.Putting? then Some(toggles[t].phase.ids) else toggles[t].late;
      toggles := toggles[t := toggles[t].(phase := Settled(l.PutReturns?), late := late)];
      NotYetLate(before, t);
    }

    method TailSettles(t: nat)
      requires Valid() && Enabled(View(), Track(t))
      modifies this`toggles
      ensures Valid() && View() == Step(old(View()), Track(t))
    {
      hide Inv;
      ghost var before := View();
      StepKeeps(before, Track(t));
      toggles := toggles[t := toggles[t].(tracked := true)];
    }

    /**
     The tail's `finally`: an entry goes only if it is this toggle's own, and then every toggle
     of the project has settled; all other entries stay.
     */
    method Finally(t: nat)
      requires Valid() && Enabled(View(), Clean(t))
      modifies this`toggles, this`projectRepoLinkQueues
      ensures Valid() && View() == Step(old(View()), Clean(t))
      ensures OnlyOwnEntryGoes(old(View()), View(), t)
      ensures forall p :: p !in projectRepoLinkQueues ==> AllSettled(toggles, p)
    {
      hide Inv;
      ghost var before := View();
      StepKeeps(before, Clean(t));
      var projectId := toggles[t].project;
      toggles := toggles[t := toggles[t].(cleaned := true)];
      if projectId in projectRepoLinkQueues && projectRepoLinkQueues[projectId] == t {
        projectRepoLinkQueues := projectRepoLinkQueues - {projectId};
      }
      NoEntryAllSettled(View());
    }
  }

  // ---- What the invariant says to each of them ----

  lemma EarlierSettled(s: State, i: nat)
    requires Inv(s) && i < |s.toggles| && (s.toggles[i].prior.None? || !s.toggles[i].phase.Queued?)
    ensures forall j | 0 <= j < i && s.toggles[j].project == s.toggles[i].project :: s.toggles[j].phase.Settled?
  {
    assert ChainedAt(s.toggles, i);
    forall j | 0 <= j < i && s.toggles[j].project == s.toggles[i].project ensures s.toggles[j].phase.Settled? {
      assert ChainedAt(s.toggles, j);
    }
  }

  lemma NextInChain(s: State, i: nat)
    requires Inv(s) && i < |s.toggles|
    ensures match s.toggles[i].prior
            case None => forall j | 0 <= j < i && s.toggles[j].project == s.toggles[i].project :: s.toggles[j].phase.Settled?
            case Some(k) => k < i && s.toggles[k].project == s.toggles[i].project
                            && forall j | k < j < i :: s.toggles[j].project != s.toggles[i].project
  {
    assert ChainedAt(s.toggles, i);
    if s.toggles[i].prior.None? { EarlierSettled(s, i); }
    hide Inv;
  }

  lemma WhatIsPut(s: State, i: nat)
    requires Inv(s) && i < |s.toggles| && s.toggles[i].phase.Putting? && UpToDate(s.toggles, i)
    ensures s.toggles[i].phase.ids == Merge(Get(s.server, s.toggles[i].project), s.toggles[i])
  {
  }

  lemma NotYetLate(s: State, i: nat)
    requires Inv(s) && i < |s.toggles|
    ensures !s.toggles[i].phase.Settled? ==> s.toggles[i].late.None?
  {
    assert TimedAt(s.clock, s.toggles[i]);
  }

  /** Each entry is as it was, but the toggle's own has gone. */
  ghost predicate OnlyOwnEntryGoes(s: State, to: State, t: nat)
    requires t < |s.toggles|
  {
    && (forall q | q in to.tails :: q in s.tails && to.tails[q] == s.tails[q])
    && (forall q | q in s.tails :: q !in to.tails <==> q == s.toggles[t].project && s.tails[q] == t)
  }

  predicate AllSettled(ts: seq<Toggle>, p: Project) {
    forall j | 0 <= j < |ts| && ts[j].project == p :: ts[j].phase.Settled?
  }

  lemma NoEntryAllSettled(s: State)
    requires Inv(s)
    ensures forall p :: p !in s.tails ==> AllSettled(s.toggles, p)
  {
    forall j | 0 <= j < |s.toggles| && s.toggles[j].project !in s.tails ensures s.toggles[j].phase.Settled? {
      assert Covered(s.toggles[j], j, s.tails) && ChainedAt(s.toggles, j);
    }
  }
}
