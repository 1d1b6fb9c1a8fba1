/**
 The per-project queue of repo-link toggles.

 A toggle fetches the project's links, merges its own change and PUTs the whole list back.
 Toggles of one project are chained: `next = prior.then(op, op)`, and the map keeps
 `tracked = next.catch(...)` as the chain's tail until the tail's own `finally` removes it.
 A promise settling, a microtask running and a request reaching the server or coming back
 are separate steps, taken in any order; different projects interleave freely.  A PUT that
 the client has given up on may still reach the server, at any later time or never.
 */
module ToggleMachine {
  import opened Options

  type Project = string
  type Repo = string
  type Links = set<Repo>

  /** How far a toggle's operation has got. */
  datatype Phase =
    | Queued                // waiting for its predecessor
    | Getting               // GET on its way to the server
    | Read(links: Links)    // the server has answered, the answer is on its way back
    | Putting(ids: Links)   // PUT on its way to the server
    | Written(ids: Links)   // the server has replaced the list, the answer is on its way back
    | Settled(ok: bool)     // the caller's promise is fulfilled or rejected

  datatype Toggle = Toggle(
    project: Project, repo: Repo, attach: bool,
    prior: Option<nat>,     // the toggle whose tail it waits for; None: nothing to wait for
    phase: Phase,
    readAt: Option<nat>,    // when the server answered its GET, on the server's clock
    wroteAt: Option<nat>,   // when its PUT took effect, if it did
    late: Option<Links>,    // its PUT was given up on and is still on its way
    tracked: bool,          // its tail promise has settled
    cleaned: bool)          // its `finally` callback has run

  datatype State = State(
    start: map<Project, Links>,   // the server when the client began; never changed
    server: map<Project, Links>,
    clock: nat,                   // how many requests the server has served
    tails: map<Project, nat>,
    toggles: seq<Toggle>)         // in the order they were enqueued

  function Get(server: map<Project, Links>, p: Project): Links {
    if p in server then server[p] else {}
  }

  function Merge(links: Links, t: Toggle): Links {
    if t.attach then links + {t.repo} else links - {t.repo}
  }

  function Init(server: map<Project, Links>): State {
    State(server, server, 0, map[], [])
  }

  datatype Label =
    | Enqueue(project: Project, repo: Repo, attach: bool)
    | Start(t: nat)         // the chained callback runs: GET is sent
    | ServerReads(t: nat)
    | GetReturns(t: nat)    // merge, then PUT is sent
    | GetFails(t: nat)
    | ServerWrites(t: nat)
    | PutReturns(t: nat)
    | PutFails(t: nat)      // rejected; the server has written, or may still write
    | LateWrite(t: nat)     // a PUT given up on reaches the server after all
    | Track(t: nat)         // the tail settles, whatever the outcome
    | Clean(t: nat)         // the tail's `finally`

  predicate PriorSettled(s: State, prior: Option<nat>) {
    prior.None? || (prior.value < |s.toggles| && s.toggles[prior.value].tracked)
  }

  predicate Enabled(s: State, l: Label) {
    if l.Enqueue? then true
    else
      && l.t < |s.toggles|
      && var t := s.toggles[l.t];
         match l
         case Start(_) => t.phase.Queued? && PriorSettled(s, t.prior)
         case ServerReads(_) => t.phase.Getting?
         case GetReturns(_) => t.phase.Read?
         case GetFails(_) => t.phase.Getting? || t.phase.Read?
         case ServerWrites(_) => t.phase.Putting?
         case PutReturns(_) => t.phase.Written?
         case PutFails(_) => t.phase.Putting? || t.phase.Written?
         case LateWrite(_) => t.late.Some?
         case Track(_) => t.phase.Settled? && !t.tracked
         case Clean(_) => t.tracked && !t.cleaned
         case _ => false
  }

  function Append(s: State, p: Project, repo: Repo, attach: bool): State {
    var prior := if p in s.tails then Some(s.tails[p]) else None;
    s.(toggles := s.toggles + [Toggle(p, repo, attach, prior, Queued, None, None, None, false, false)],
       tails := s.tails[p := |s.toggles|])
  }

  function Step(s: State, l: Label): State
    requires Enabled(s, l)
  {
    if l.Enqueue? then Append(s, l.project, l.repo, l.attach)
    else
      var t := s.toggles[l.t];
      match l
      case Start(i) => s.(toggles := s.toggles[i := t.(phase := Getting)])
      case ServerReads(i) =>
        s.(toggles := s.toggles[i := t.(phase := Read(Get(s.server, t.project)), readAt := Some(s.clock))],
           clock := s.clock + 1)
      case GetReturns(i) => s.(toggles := s.toggles[i := t.(phase := Putting(Merge(t.phase.links, t)))])
      case GetFails(i) => s.(toggles := s.toggles[i := t.(phase := Settled(false))])
      case ServerWrites(i) =>
        s.(toggles := s.toggles[i := t.(phase := Written(t.phase.ids), wroteAt := Some(s.clock))],
           server := s.server[t.project := t.phase.ids],
           clock := s.clock + 1)
      case PutReturns(i) => s.(toggles := s.toggles[i := t.(phase := Settled(true))])
      case PutFails(i) =>
        s.(toggles := s.toggles[i := t.(phase := Settled(false),
                                        late := if t.phase.Putting? then Some(t.phase.ids) else None)])
      case LateWrite(i) =>
        s.(toggles := s.toggles[i := t.(late := None, wroteAt := Some(s.clock))],
           server := s.server[t.project := t.late.value],
           clock := s.clock + 1)
      case Track(i) => s.(toggles := s.toggles[i := t.(tracked := true)])
      case Clean(i) =>
        s.(toggles := s.toggles[i := t.(cleaned := true)],
           tails := if t.project in s.tails && s.tails[t.project] == i then s.tails - {t.project} else s.tails)
  }

  predicate IsRun(s: State, run: seq<Label>)
    decreases |run|
  {
    run == [] || (Enabled(s, run[0]) && IsRun(Step(s, run[0]), run[1..]))
  }

  function Exec(s: State, run: seq<Label>): State
    requires IsRun(s, run)
    decreases |run|
  {
    if run == [] then s else Exec(Step(s, run[0]), run[1..])
  }

  /** The project's list if the toggles that took effect had been made one after another. */
  function Fold(links: Links, toggles: seq<Toggle>, p: Project): Links {
    if toggles == [] then links
    else
      var n := |toggles| - 1;
      var before := Fold(links, toggles[..n], p);
      if toggles[n].project == p && toggles[n].wroteAt.Some? then Merge(before, toggles[n]) else before
  }
}
