/** What the steering loop looks at, and what becomes of each line. */
module SteerLooks {
  import opened Options
  import opened SteerMachine
  import opened SteerSafety

  /** The finished fetch whose result this step looks at, if it looks at one. */
  function LooksAt(s: State, l: Label): Option<Fetch> {
    match l
    case WaitReturns => if s.fetch.Pending? || (s.steer.Took? && !s.cancelled) then None else Some(s.fetch)
    case PostOk =>
      if s.pc.Posting? && s.pc.origin.FromTask? && !s.pc.origin.snapshot.Pending? then Some(s.pc.origin.snapshot) else None
    case _ => None
  }

  /** A result that was looked at, and whether the run was cancelled by then. */
  datatype Look = Look(result: Fetch, cancelled: bool)

  function LookOf(s: State, l: Label): seq<Look> {
    match LooksAt(s, l) case None => [] case Some(r) => [Look(r, s.cancelled)]
  }

  /** All that a run looks at, in order. */
  function Looks(s: State, run: seq<Label>): seq<Look>
    requires IsRun(s, run)
    decreases |run|
  {
    if run == [] then [] else LookOf(s, run[0]) + Looks(Step(s, run[0]), run[1..])
  }

  // ---- What reaches the translator ----

  /** An event of this session or of none, looked at before cancellation. */
  predicate ForTranslator(look: Look) {
    !look.cancelled && look.result.Got? && look.result.line.Event? && look.result.line.session != OtherSession
  }

  function Lines(looks: seq<Look>): seq<Wire> {
    if looks == [] then []
    else LineOf(looks[0]) + Lines(looks[1..])
  }

  function LineOf(look: Look): seq<Wire> {
    if ForTranslator(look) then [look.result.line] else []
  }

  lemma {:induction false} LinesConcat(a: seq<Look>, b: seq<Look>)
    ensures Lines(a + b) == Lines(a) + Lines(b)
  {
    hide LineOf;
    if a == [] {
      assert a + b == b;
    } else {
      assert (a + b)[1..] == a[1..] + b;
      LinesConcat(a[1..], b);
      assert LineOf(a[0]) + (Lines(a[1..]) + Lines(b)) == LineOf(a[0]) + Lines(a[1..]) + Lines(b);
    }
  }

  /** Each look for the translator gives a line, and nothing else does. */
  lemma {:induction false} LinesAreLooks(looks: seq<Look>, w: Wire)
    ensures w in Lines(looks) <==> exists k | 0 <= k < |looks| :: w in LineOf(looks[k])
  {
    hide LineOf;
    if looks != [] {
      LinesAreLooks(looks[1..], w);
      if k :| 0 <= k < |looks[1..]| && w in LineOf(looks[1..][k]) {
        assert looks[k + 1] == looks[1..][k];
      }
      if k :| 0 <= k < |looks| && w in LineOf(looks[k]) {
        if k > 0 { assert looks[1..][k - 1] == looks[k]; }
      }
    }
  }

  lemma DrainTranslates(s: State)
    ensures Drain(s).h.translated == s.h.translated
  {
  }

  lemma HandleTranslates(s: State, r: Fetch)
    requires !r.Pending?
    ensures HandleFetch(s, r).h.translated == s.h.translated + Lines([Look(r, s.cancelled)])
  {
    if r.Got? && r.line.Event? {
      DrainTranslates(s.(error := NoteError(s.error, r.line.kind), h := s.h.(translated := s.h.translated + [r.line])));
      hide Drain;
    }
  }

  lemma StepTranslates(s: State, l: Label)
    requires Enabled(s, l)
    ensures Step(s, l).h.translated == s.h.translated + Lines(LookOf(s, l))
  {
    hide HandleFetch, Drain, Lines;
    assert Lines([]) == [] by { NoLines(); }
    if l.WaitReturns? && !s.fetch.Pending? {
      HandleTranslates(s, s.fetch);
      if s.steer.Took? {
        HandleTranslates(s.(steer := Armed, h := s.h.(dropped := s.h.dropped + [s.steer.item])), s.fetch);
      }
    } else if l.PostOk? {
      DrainTranslates(Injection(s));
      if s.pc.origin.FromTask? && !s.pc.origin.snapshot.Pending? {
        HandleTranslates(Injection(s), s.pc.origin.snapshot);
      }
    }
  }

  lemma NoLines()
    ensures Lines([]) == []
  {
  }

  lemma {:induction false} RunTranslates(s: State, run: seq<Label>)
    requires IsRun(s, run)
    ensures Exec(s, run).h.translated == s.h.translated + Lines(Looks(s, run))
    decreases |run|
  {
    hide Step, Enabled, Lines, LookOf;
    NoLines();
    if run != [] {
      var t, rest := Step(s, run[0]), run[1..];
      StepTranslates(s, run[0]);
      RunTranslates(t, rest);
      LinesConcat(LookOf(s, run[0]), Looks(t, rest));
    }
  }

  /** The translator gets exactly this session's events that are looked at in time, in order, each once. */
  lemma TranslatedExactly(enabled: bool, queued: seq<Item>, run: seq<Label>)
    requires !enabled ==> queued == []
    requires IsRun(Init(enabled, queued), run)
    ensures Exec(Init(enabled, queued), run).h.translated == Lines(Looks(Init(enabled, queued), run))
  {
    RunTranslates(Init(enabled, queued), run);
    hide Exec, IsRun, Looks, Lines;
  }

  // ---- No line is looked at twice ----

  function Results(looks: seq<Look>): seq<Fetch> {
    if looks == [] then [] else [looks[0].result] + Results(looks[1..])
  }

  /** What the stream delivered during the run. */
  function Arrivals(run: seq<Label>): seq<Fetch> {
    if run == [] then []
    else (if run[0].Arrive? then [run[0].result] else []) + Arrivals(run[1..])
  }

  predicate Subsequence(a: seq<Fetch>, b: seq<Fetch>) {
    a == [] || (b != [] && ((a[0] == b[0] && Subsequence(a[1..], b[1..])) || Subsequence(a, b[1..])))
  }

  /** The result that has arrived and is yet to be looked at. */
  function Waiting(s: State): seq<Fetch> {
    match s.pc
    case AtWait => if s.fetch.Pending? then [] else [s.fetch]
    case Posting(_, FromTask(snapshot)) => if snapshot.Pending? then [] else [snapshot]
    case _ => []
  }

  lemma HandledIsGone(s: State, r: Fetch)
    requires !r.Pending?
    ensures Waiting(HandleFetch(s, r)) == []
  {
    hide Drain;
    if r.Got? && r.line.Event? {
      DrainedIsGone(s.(error := NoteError(s.error, r.line.kind), h := s.h.(translated := s.h.translated + [r.line])));
    }
  }

  lemma DrainedIsGone(s: State)
    ensures Waiting(Drain(s)) == []
  {
  }

  /** A result that waits during a POST is still the one the fetch task holds. */
  ghost predicate Snapshots(s: State) {
    s.pc.Posting? && s.pc.origin.FromTask? && !s.pc.origin.snapshot.Pending? ==> s.fetch == s.pc.origin.snapshot
  }

  lemma SnapshotsNext(s: State, l: Label)
    requires Enabled(s, l) && Snapshots(s)
    ensures Snapshots(Step(s, l))
  {
    hide HandleFetch, Drain;
    if l.WaitReturns? && !s.fetch.Pending? {
      HandledFromDrain(s, s.fetch);
      if s.steer.Took? {
        HandledFromDrain(s.(steer := Armed, h := s.h.(dropped := s.h.dropped + [s.steer.item])), s.fetch);
      }
    } else if l.PostOk? {
      DrainedFromDrain(Injection(s));
      if s.pc.origin.FromTask? && !s.pc.origin.snapshot.Pending? {
        HandledFromDrain(Injection(s), s.pc.origin.snapshot);
      }
    }
  }

  lemma DrainedFromDrain(s: State)
    ensures Drain(s).pc.Posting? ==> Drain(s).pc.origin.FromDrain?
  {
  }

  lemma HandledFromDrain(s: State, r: Fetch)
    requires !r.Pending?
    ensures HandleFetch(s, r).pc.Posting? ==> HandleFetch(s, r).pc.origin.FromDrain?
  {
    hide Drain;
    if r.Got? && r.line.Event? {
      DrainedFromDrain(s.(error := NoteError(s.error, r.line.kind), h := s.h.(translated := s.h.translated + [r.line])));
    }
  }

  /** A result waits once: a step that looks at it takes it, one that does not may only discard it. */
  lemma WaitingNext(s: State, l: Label)
    requires Enabled(s, l) && Snapshots(s)
    ensures var arrived := if l.Arrive? then [l.result] else [];
            match LooksAt(s, l)
            case Some(r) => Waiting(s) == [r] && Waiting(Step(s, l)) == [] && arrived == []
            case None => Waiting(Step(s, l)) == Waiting(s) + arrived || Waiting(Step(s, l)) == []
  {
    hide HandleFetch, Drain;
    if l.WaitReturns? && !s.fetch.Pending? {
      HandledIsGone(s, s.fetch);
      if s.steer.Took? {
        HandledIsGone(s.(steer := Armed, h := s.h.(dropped := s.h.dropped + [s.steer.item])), s.fetch);
      }
    } else if l.PostOk? {
      DrainedIsGone(Injection(s));
      if s.pc.origin.FromTask? && !s.pc.origin.snapshot.Pending? {
        HandledIsGone(Injection(s), s.pc.origin.snapshot);
      }
    }
  }

  lemma {:induction false} SubsequenceSkips(a: seq<Fetch>, b: seq<Fetch>, c: seq<Fetch>)
    requires Subsequence(a, c)
    ensures Subsequence(a, b + c)
    decreases |b|
  {
    if b == [] {
      assert b + c == c;
    } else {
      assert (b + c)[1..] == b[1..] + c;
      SubsequenceSkips(a, b[1..], c);
    }
  }

  lemma SubsequenceTakes(r: Fetch, a: seq<Fetch>, b: seq<Fetch>)
    requires Subsequence(a, b)
    ensures Subsequence([r] + a, [r] + b)
  {
    assert ([r] + a)[1..] == a && ([r] + b)[1..] == b;
  }

  lemma ResultsNext(s: State, run: seq<Label>)
    requires IsRun(s, run) && run != []
    ensures Results(Looks(s, run)) ==
            (match LooksAt(s, run[0]) case None => [] case Some(r) => [r]) + Results(Looks(Step(s, run[0]), run[1..]))
  {
    var later := Looks(Step(s, run[0]), run[1..]);
    hide Step, Enabled, LooksAt;
    match LooksAt(s, run[0])
    case None => assert Looks(s, run) == later;
    case Some(r) => assert Looks(s, run)[1..] == later;
  }

  lemma {:induction false} LooksArrive(s: State, run: seq<Label>)
    requires IsRun(s, run) && Snapshots(s)
    ensures Subsequence(Results(Looks(s, run)), Waiting(s) + Arrivals(run))
    decreases |run|
  {
    hide Step, Enabled, Waiting, LooksAt, Snapshots;
    if run != [] {
      SnapshotsNext(s, run[0]);
      LooksArrive(Step(s, run[0]), run[1..]);
      LooksArriveStep(s, run);
    }
  }

  lemma LooksArriveStep(s: State, run: seq<Label>)
    requires IsRun(s, run) && run != [] && Snapshots(s)
    requires Subsequence(Results(Looks(Step(s, run[0]), run[1..])), Waiting(Step(s, run[0])) + Arrivals(run[1..]))
    ensures Subsequence(Results(Looks(s, run)), Waiting(s) + Arrivals(run))
  {
    var l, t, rest := run[0], Step(s, run[0]), run[1..];
    var arrived := if l.Arrive? then [l.result] else [];
    assert Arrivals(run) == arrived + Arrivals(rest);
    WaitingNext(s, l);
    ResultsNext(s, run);
    hide *;
    var later := Results(Looks(t, rest));
    if LooksAt(s, l).Some? {
      LookTaken(LooksAt(s, l).value, later, Waiting(t), arrived, Arrivals(rest));
    } else {
      LookKept(later, Waiting(s), Waiting(t), arrived, Arrivals(rest));
      assert [] + later == later;
    }
  }

  lemma LookTaken(r: Fetch, later: seq<Fetch>, next: seq<Fetch>, arrived: seq<Fetch>, rest: seq<Fetch>)
    requires Subsequence(later, next + rest) && next == [] && arrived == []
    ensures Subsequence([r] + later, [r] + (arrived + rest))
  {
    assert next + rest == rest == arrived + rest;
    hide *;
    SubsequenceTakes(r, later, rest);
  }

  lemma LookKept(later: seq<Fetch>, now: seq<Fetch>, next: seq<Fetch>, arrived: seq<Fetch>, rest: seq<Fetch>)
    requires Subsequence(later, next + rest) && (next == now + arrived || next == [])
    ensures Subsequence(later, now + (arrived + rest))
  {
    assert now + (arrived + rest) == (now + arrived) + rest;
    hide *;
    if next == [] {
      assert [] + rest == rest;
      SubsequenceSkips(later, now + arrived, rest);
    }
  }

  /** Whatever the loop looks at has arrived, in that order, and no arrival is looked at twice. */
  lemma LooksAreArrivals(enabled: bool, queued: seq<Item>, run: seq<Label>)
    requires !enabled ==> queued == []
    requires IsRun(Init(enabled, queued), run)
    ensures Subsequence(Results(Looks(Init(enabled, queued), run)), Arrivals(run))
  {
    LooksArrive(Init(enabled, queued), run);
    assert Waiting(Init(enabled, queued)) == [];
    hide *;
    assert [] + Arrivals(run) == Arrivals(run);
  }

  // ---- What becomes of a line ----

  /** Back at the wait, with a new fetch, and nothing noted. */
  ghost predicate BackToWait(s: State, t: State) {
    t.pc == AtWait && t.fetch == Pending && t.error == s.error && t.queue == s.queue && t.h.translated == s.h.translated
  }

  /** The same for the code that handles the line. */
  lemma HandledLine(s: State, line: Wire)
    ensures var t := HandleFetch(s, Got(line));
            && (s.cancelled ==> t.pc == Aborting && t.h.translated == s.h.translated)
            && (t.pc == Done(Raised) <==> !s.cancelled && line == NotAnObject)
            && (!s.cancelled && (line == NotData || line == EmptyPayload || line == NotJson) ==> BackToWait(s, t))
            && (!s.cancelled && line.Event? && line.session == OtherSession ==> BackToWait(s, t))
            && (!s.cancelled && line.Event? && line.session != OtherSession ==>
                  t.error == if line.kind.ErrorKind? then Some(line.kind.message) else s.error)
            && (!s.cancelled && line.Event? && line.session != OtherSession && line != Event(OwnSession, IdleKind) ==>
                  t.pc == AtWait && t.fetch == Pending && t.queue == s.queue)
  {
  }

  /**
   The fate of a line that is looked at.  After cancellation it leads to the abort.  Before, a
   line that is no event, or another session's, sends the loop back to its wait, only a JSON
   value that is no object raises, and an event of this session notes its error and goes on.
   */
  lemma LineFate(s: State, l: Label, line: Wire)
    requires Enabled(s, l) && LooksAt(s, l) == Some(Got(line))
    ensures s.cancelled ==> Step(s, l).pc == Aborting && Step(s, l).h.translated == s.h.translated
    ensures Step(s, l).pc == Done(Raised) <==> !s.cancelled && line == NotAnObject
    ensures !s.cancelled && (line == NotData || line == EmptyPayload || line == NotJson) ==> BackToWait(s, Step(s, l))
    ensures !s.cancelled && line.Event? && line.session == OtherSession ==> BackToWait(s, Step(s, l))
    ensures !s.cancelled && line.Event? && line.session != OtherSession ==>
              Step(s, l).error == if line.kind.ErrorKind? then Some(line.kind.message) else s.error
    ensures !s.cancelled && line.Event? && line.session != OtherSession && line != Event(OwnSession, IdleKind) ==>
              Step(s, l).pc == AtWait && Step(s, l).fetch == Pending && Step(s, l).queue == s.queue
  {
    hide HandleFetch, Drain;
    HandledLine(s, line);
    if l.PostOk? { HandledLine(Injection(s), line); }
    if l.WaitReturns? && s.steer.Took? {
      HandledLine(s.(steer := Armed, h := s.h.(dropped := s.h.dropped + [s.steer.item])), line);
    }
  }

  /**
   The fate of the own session's idle, looked at in time: the first queued follow-up is POSTed;
   with none, the loop goes on after an injection, and otherwise the run is over, failed by an
   error it has noted, else with success.
   */
  lemma IdleFate(s: State, l: Label)
    requires Enabled(s, l) && LooksAt(s, l) == Some(Got(Event(OwnSession, IdleKind))) && !s.cancelled
    requires !s.enabled ==> s.queue == []
    ensures var t := Step(s, l);
            if s.queue != [] then t.pc == Posting(s.queue[0], FromDrain) && t.queue == s.queue[1..]
            else if s.delivered || l.PostOk? then t.pc == AtWait && t.fetch == Pending && !t.delivered
            else t.pc == Done(if s.error.Some? then Failed(s.error.value) else Success)
  {
  }

  /** The fate of the stream: its end fails the run, and a break raises. */
  lemma StreamFate(s: State, l: Label)
    requires Inv(s) && Enabled(s, l)
    ensures LooksAt(s, l) == Some(Broken) ==> Step(s, l).pc == Done(Raised)
    ensures LooksAt(s, l) == Some(EndOfStream) ==>
              Step(s, l).pc == Done(Failed(if s.error.Some? then s.error.value else "event stream ended unexpectedly"))
  {
    assert !s.sawIdle;
    hide Inv;
  }

  /** A follow-up the steer task holds is POSTed by the next step of the loop, unless cancelled; the task is armed again. */
  lemma HeldIsPosted(s: State)
    requires Enabled(s, WaitReturns) && s.steer.Took? && !s.cancelled
    ensures var t := Step(s, WaitReturns);
            t.pc == Posting(s.steer.item, FromTask(s.fetch)) && t.steer == Armed && t.queue == s.queue
  {
  }

  /** A drain goes on with the next queued follow-up, until the queue is empty. */
  lemma DrainGoesOn(s: State)
    requires Enabled(s, PostOk) && s.pc.origin.FromDrain? && s.enabled && !s.cancelled
    ensures var t := Step(s, PostOk);
            && t.h.posted == s.h.posted + [s.pc.item]
            && if s.queue != [] then t.pc == Posting(s.queue[0], FromDrain) && t.queue == s.queue[1..]
               else t.pc == AtWait && t.fetch == Pending
  {
  }

  /** An error followed by the idle of its turn is a failure that names the error. */
  lemma ErrorThenIdleFails(message: string)
    ensures var run := [Arrive(Got(Event(OwnSession, ErrorKind(message)))), WaitReturns,
                        Arrive(Got(Event(OwnSession, IdleKind))), WaitReturns];
            && IsRun(Init(false, []), run)
            && Exec(Init(false, []), run).pc == Done(Failed(message))
  {
    var s := Init(false, []);
    var error, idle := Arrive(Got(Event(OwnSession, ErrorKind(message)))), Arrive(Got(Event(OwnSession, IdleKind)));
    var t := Step(Step(s, error), WaitReturns);
    var u := Step(t, idle);
    assert IsRun(u, [WaitReturns]) && Exec(u, [WaitReturns]) == Step(u, WaitReturns);
    assert IsRun(t, [idle, WaitReturns]) && Exec(t, [idle, WaitReturns]) == Step(u, WaitReturns);
    assert IsRun(Step(s, error), [WaitReturns, idle, WaitReturns]);
  }
}
