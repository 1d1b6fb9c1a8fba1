/**
 The mid-run steering loop of the opencode driver as a state machine.

 One loop races three tasks: the fetch of the next server line, the fetch of the next
 queued follow-up, and cancellation.  The loop gives up control only at `asyncio.wait`,
 at the POST of a follow-up, while it awaits a fetch it has cancelled, and at the abort
 request; each such point is a `Pc`.  Between two of them the code runs without
 interruption and is one step function below.  Everything else that can happen (a
 follow-up is queued, a line arrives, the user cancels, the armed task takes the head of
 the queue) is an environment step that may occur at any of those points.
 */
module SteerMachine {
  import opened Options

  datatype Item = Item(id: nat, body: string)

  datatype Session = NoSession | OwnSession | OtherSession

  datatype Kind = IdleKind | ErrorKind(message: string) | OtherKind

  /** One line of the event stream, after the classification the loop applies to it. */
  datatype Wire =
    | NotData       // no "data:" prefix
    | EmptyPayload
    | NotJson
    | NotAnObject   // decodes, but `.get` on it raises
    | Event(session: Session, kind: Kind)

  /** The task that fetches the next line: still running, or done in one of three ways. */
  datatype Fetch = Pending | Got(line: Wire) | EndOfStream | Broken

  /** The task that waits for the next queued follow-up. */
  datatype SteerTask = Off | Armed | Took(item: Item)

  datatype Outcome = Success | Failed(message: string) | Cancelled | Raised

  datatype Origin = FromTask(snapshot: Fetch) | FromDrain

  /** Where the loop has given up control; `AtWait` also stands for "running" inside a step. */
  datatype Pc =
    | AtWait
    | Posting(item: Item, origin: Origin)
    | Unwinding(thenAbort: bool)
    | Aborting
    | Done(outcome: Outcome)

  datatype Mark = Injected | KeptIdle | FinalIdle

  /** What has happened so far; no branch of the loop reads it. */
  datatype History = History(
    arrived: seq<Item>,     // every follow-up ever queued, in order
    started: seq<Item>,     // POSTs begun
    posted: seq<Item>,      // POSTs that succeeded, each with its transcript breadcrumb
    failed: seq<Item>,      // POSTs that raised
    dropped: seq<Item>,     // taken after cancellation and thrown away
    translated: seq<Wire>,  // events handed to the translator
    marks: seq<Mark>,       // injections and own-session idles, in order
    kept: nat,              // own-session idles that did not finish the run
    overtook: bool)         // some drain POST began while the steer task held an item

  datatype State = State(
    enabled: bool,
    queue: seq<Item>,
    steer: SteerTask,
    fetch: Fetch,
    cancelled: bool,
    delivered: bool,
    sawIdle: bool,
    error: Option<string>,
    pc: Pc,
    h: History)

  const TRUNCATED := "event stream ended unexpectedly"

  function Init(enabled: bool, queued: seq<Item>): State
    requires !enabled ==> queued == []
  {
    State(enabled, queued, if enabled then Armed else Off, Pending, false, false, false, None, AtWait,
          History(queued, [], [], [], [], [], [], 0, false))
  }

  // ---- The code between two yield points ----

  /** Back to the top of the loop: a fresh fetch, then `asyncio.wait`. */
  function Loop(s: State): State {
    s.(fetch := Pending, pc := AtWait)
  }

  /** The statements after the loop. */
  function Finish(s: State): State {
    s.(pc := Done(if s.error.Some? then Failed(s.error.value)
                  else if !s.sawIdle then Failed(TRUNCATED)
                  else Success))
  }

  /** The decision on an own-session idle, once the drain has emptied the queue. */
  function DecideIdle(s: State): State {
    if s.delivered then
      Loop(s.(delivered := false, h := s.h.(marks := s.h.marks + [KeptIdle], kept := s.h.kept + 1)))
    else
      Finish(s.(sawIdle := true, h := s.h.(marks := s.h.marks + [FinalIdle])))
  }

  function StartPost(s: State, item: Item, origin: Origin): State {
    s.(pc := Posting(item, origin), h := s.h.(started := s.h.started + [item]))
  }

  /** The `get_nowait` loop: after cancellation it throws away all it finds. */
  function Drain(s: State): State {
    if !s.enabled || s.queue == [] then DecideIdle(s)
    else if s.cancelled then
      DecideIdle(s.(queue := [], h := s.h.(dropped := s.h.dropped + s.queue)))
    else
      StartPost(s.(queue := s.queue[1..], h := s.h.(overtook := s.h.overtook || s.steer.Took?)),
                s.queue[0], FromDrain)
  }

  function NoteError(error: Option<string>, kind: Kind): Option<string> {
    if kind.ErrorKind? then Some(kind.message) else error
  }

  /** `next_task.result()` and all that follows it in the loop body. */
  function HandleFetch(s: State, r: Fetch): State
    requires !r.Pending?
  {
    if r.EndOfStream? then Finish(s)
    else if r.Broken? then s.(pc := Done(Raised))
    else if s.cancelled then s.(pc := Aborting)
    else match r.line
      case NotData | EmptyPayload | NotJson => Loop(s)
      case NotAnObject => s.(pc := Done(Raised))
      case Event(session, kind) =>
        if session.OtherSession? then Loop(s)
        else
          var s1 := s.(error := NoteError(s.error, kind), h := s.h.(translated := s.h.translated + [r.line]));
          if kind.IdleKind? && session.OwnSession? then Drain(s1) else Loop(s1)
  }

  /** After a follow-up won the race: `snapshot` is the fetch as `asyncio.wait` saw it. */
  function AfterSteer(s: State, snapshot: Fetch): State {
    if snapshot.Pending? then s.(pc := Unwinding(false)) else HandleFetch(s, snapshot)
  }

  /** From the return of `asyncio.wait` to the next yield point. */
  function AfterWait(s: State): State {
    match s.steer
    case Took(item) =>
      var s1 := s.(steer := Armed);
      if s.cancelled then AfterSteer(s1.(h := s.h.(dropped := s.h.dropped + [item])), s.fetch)
      else StartPost(s1, item, FromTask(s.fetch))
    case _ =>
      if s.fetch.Pending? then s.(pc := Unwinding(true)) else HandleFetch(s, s.fetch)
  }

  /** The bookkeeping of a POST that returned normally. */
  function Injection(s: State): State
    requires s.pc.Posting?
  {
    s.(pc := AtWait, delivered := true,
       h := s.h.(posted := s.h.posted + [s.pc.item], marks := s.h.marks + [Injected]))
  }

  function AfterPost(s: State): State
    requires s.pc.Posting?
  {
    var s1 := Injection(s);
    match s.pc.origin
    case FromTask(snapshot) => AfterSteer(s1, snapshot)
    case FromDrain => Drain(s1)
  }

  function PostRaised(s: State): State
    requires s.pc.Posting?
  {
    s.(pc := Done(Raised), h := s.h.(failed := s.h.failed + [s.pc.item]))
  }

  function AfterUnwind(s: State): State
    requires s.pc.Unwinding?
  {
    if s.pc.thenAbort then s.(pc := Aborting) else Loop(s)
  }

  // ---- Steps and runs ----

  datatype Label =
    | Enqueue(item: Item)
    | Cancel
    | Arrive(result: Fetch)
    | Take
    | WaitReturns
    | PostOk
    | PostFails
    | UnwindReturns
    | AbortReturns

  predicate Enabled(s: State, l: Label) {
    && !s.pc.Done?
    && match l
       case Enqueue(_) => s.enabled
       case Cancel => !s.cancelled
       case Arrive(r) => s.fetch.Pending? && !r.Pending?
       case Take => s.steer.Armed? && s.queue != []
       case WaitReturns => s.pc.AtWait? && (s.steer.Took? || !s.fetch.Pending? || s.cancelled)
       case PostOk | PostFails => s.pc.Posting?
       case UnwindReturns => s.pc.Unwinding?
       case AbortReturns => s.pc.Aborting?
  }

  function Step(s: State, l: Label): State
    requires Enabled(s, l)
  {
    match l
    case Enqueue(item) => s.(queue := s.queue + [item], h := s.h.(arrived := s.h.arrived + [item]))
    case Cancel => s.(cancelled := true)
    case Arrive(r) => s.(fetch := r)
    case Take => s.(steer := Took(s.queue[0]), queue := s.queue[1..])
    case WaitReturns => AfterWait(s)
    case PostOk => AfterPost(s)
    case PostFails => PostRaised(s)
    case UnwindReturns => AfterUnwind(s)
    case AbortReturns => s.(pc := Done(Cancelled))
  }

  predicate IsRun(s: State, run: seq<Label>)
    decreases |run|
  {
    run == [] || (Enabled(s, run[0]) && IsRun(Step(s, run[0]), run[1..]))
  }

  function Exec(s: State, run: seq<Label>): State
    requires IsRun(s, run)
    decreases |run|
  {
    if run == [] then s else Exec(Step(s, run[0]), run[1..])
  }

  // ---- What every step keeps ----

  function Held(t: SteerTask): seq<Item> {
    if t.Took? then [t.item] else []
  }

  function InFlight(pc: Pc): seq<Item> {
    if pc.Posting? then [pc.item] else []
  }

  /** Every follow-up is in exactly one place, and no POST is begun twice for it. */
  ghost predicate Conserved(s: State) {
    && multiset(s.h.arrived) == multiset(s.queue) + multiset(Held(s.steer)) + multiset(InFlight(s.pc))
                                + multiset(s.h.posted) + multiset(s.h.failed) + multiset(s.h.dropped)
    && multiset(s.h.started) == multiset(InFlight(s.pc)) + multiset(s.h.posted) + multiset(s.h.failed)
  }

  ghost predicate Discards(s: State) {
    && (s.h.dropped != [] ==> s.cancelled)
    && (s.h.failed != [] ==> s.pc == Done(Raised))
  }

  ghost predicate IdleMarks(s: State) {
    var m := s.h.marks;
    && s.h.kept + (if s.delivered then 1 else 0) <= |s.h.posted|
    && (forall i | 0 <= i < |m| :: m[i] == KeptIdle ==> i > 0 && m[i - 1] == Injected)
    && (s.delivered <==> m != [] && m[|m| - 1] == Injected)
    && (s.h.posted != [] <==> Injected in m)
    && (forall i | 0 <= i < |m| :: m[i] == FinalIdle ==> i == |m| - 1 && s.pc.Done?)
    && (s.sawIdle <==> m != [] && m[|m| - 1] == FinalIdle)
  }

  /** After the last injection the run saw an idle it kept going on, and later a clean one. */
  ghost predicate CleanFinish(s: State) {
    var m := s.h.marks;
    && m != [] && m[|m| - 1] == FinalIdle
    && (s.h.posted != [] ==> |m| >= 2 && m[|m| - 2] == KeptIdle)
  }

  ghost predicate SuccessMeans(s: State) {
    s.pc == Done(Success) ==>
      && s.queue == [] && Held(s.steer) == [] && s.h.dropped == [] && s.h.failed == []
      && s.error.None? && s.sawIdle && !s.cancelled
  }

  ghost predicate Shape(s: State) {
    && (s.enabled <==> !s.steer.Off?)
    && (!s.enabled ==> s.queue == [])
    && (s.pc.Posting? ==> s.enabled)
    && (s.pc.Unwinding? && s.pc.thenAbort ==> s.cancelled)
    && (s.pc.Aborting? ==> s.cancelled)
    && (s.sawIdle ==> s.pc.Done? && CleanFinish(s))
  }

  ghost predicate Inv(s: State) {
    Conserved(s) && Discards(s) && IdleMarks(s) && SuccessMeans(s) && Shape(s)
  }
}
