/** What the steering loop reports, against the events it has translated. */
module SteerReport {
  import opened Options
  import opened SteerMachine
  import opened SteerLooks

  /** The message of the last error among the translated events. */
  function LastError(translated: seq<Wire>): Option<string> {
    if translated == [] then None
    else
      var last := translated[|translated| - 1];
      if last.Event? && last.kind.ErrorKind? then Some(last.kind.message) else LastError(translated[..|translated| - 1])
  }

  const OWN_IDLE := Event(OwnSession, IdleKind)

  /** How many of the translated events are idles of the run's own session. */
  function OwnIdles(translated: seq<Wire>): nat {
    if translated == [] then 0
    else OwnIdles(translated[..|translated| - 1]) + if translated[|translated| - 1] == OWN_IDLE then 1 else 0
  }

  /** An idle is being dealt with: its drain has a POST under way. */
  function OpenIdles(pc: Pc): nat {
    if pc.Posting? && pc.origin.FromDrain? then 1 else 0
  }

  /** Only this session's events reach the translator, the error is the last of them, each idle is decided once. */
  ghost predicate Reported(s: State) {
    && (forall w | w in s.h.translated :: w.Event? && !w.session.OtherSession?)
    && s.error == LastError(s.h.translated)
    && (s.pc != Done(Raised) ==>
          OwnIdles(s.h.translated) == s.h.kept + OpenIdles(s.pc) + (if s.sawIdle then 1 else 0))
    && (s.sawIdle <==> s.h.marks != [] && s.h.marks[|s.h.marks| - 1] == FinalIdle)
    && (s.sawIdle ==> s.pc.Done? && LastIsOwnIdle(s.h.translated))
    && (s.pc.Posting? && s.pc.origin.FromDrain? ==> LastIsOwnIdle(s.h.translated))
    && (s.pc.Done? ==> match s.pc.outcome
                       case Success => s.error.None? && s.sawIdle
                       case Failed(m) => m == if s.error.Some? then s.error.value else TRUNCATED
                       case _ => true)
    && (s.pc == Done(Failed(TRUNCATED)) && s.error.None? ==> !s.sawIdle)
  }

  ghost predicate LastIsOwnIdle(translated: seq<Wire>) {
    translated != [] && translated[|translated| - 1] == OWN_IDLE
  }

  /** In the middle of a step, with `open` idles still to be decided. */
  ghost predicate Running(s: State, open: nat) {
    && s.pc.AtWait? && !s.sawIdle
    && (forall w | w in s.h.translated :: w.Event? && !w.session.OtherSession?)
    && s.error == LastError(s.h.translated)
    && OwnIdles(s.h.translated) == s.h.kept + open
    && (s.h.marks != [] ==> s.h.marks[|s.h.marks| - 1] != FinalIdle)
    && (open > 0 ==> open == 1 && LastIsOwnIdle(s.h.translated))
  }

  lemma DrainReports(s: State)
    requires Running(s, 1)
    ensures Reported(Drain(s))
  {
    hide OwnIdles, LastError;
  }

  lemma TranslateRuns(s: State, line: Wire)
    requires Running(s, 0) && line.Event? && !line.session.OtherSession?
    ensures var t := s.(error := NoteError(s.error, line.kind), h := s.h.(translated := s.h.translated + [line]));
            Running(t, if line == OWN_IDLE then 1 else 0)
  {
    var all := s.h.translated + [line];
    assert all[..|all| - 1] == s.h.translated;
  }

  lemma HandleFetchReports(s: State, r: Fetch)
    requires Running(s, 0) && !r.Pending?
    ensures Reported(HandleFetch(s, r))
  {
    if r.Got? && !s.cancelled && r.line.Event? && !r.line.session.OtherSession? {
      var t := s.(error := NoteError(s.error, r.line.kind), h := s.h.(translated := s.h.translated + [r.line]));
      assert HandleFetch(s, r) == if r.line == OWN_IDLE then Drain(t) else Loop(t) by { hide OwnIdles, LastError, Drain; }
      TranslateRuns(s, r.line);
      hide OwnIdles, LastError, Drain, HandleFetch, NoteError;
      if r.line == OWN_IDLE { DrainReports(t); }
    } else {
      hide OwnIdles, LastError, Drain;
    }
  }

  lemma AfterSteerReports(s: State, snapshot: Fetch)
    requires Running(s, 0)
    ensures Reported(AfterSteer(s, snapshot))
  {
    hide OwnIdles, LastError, HandleFetch;
    if !snapshot.Pending? { HandleFetchReports(s, snapshot); }
  }

  lemma WaitReports(s: State)
    requires Reported(s) && Enabled(s, WaitReturns)
    ensures Reported(AfterWait(s))
  {
    hide OwnIdles, LastError, HandleFetch, AfterSteer;
    assert Running(s, 0);
    if s.steer.Took? && s.cancelled {
      AfterSteerReports(s.(steer := Armed, h := s.h.(dropped := s.h.dropped + [s.steer.item])), s.fetch);
    } else if !s.steer.Took? && !s.fetch.Pending? {
      HandleFetchReports(s, s.fetch);
    }
  }

  lemma PostReports(s: State)
    requires Reported(s) && s.pc.Posting?
    ensures Reported(AfterPost(s))
  {
    hide OwnIdles, LastError, AfterSteer, Drain;
    match s.pc.origin
    case FromTask(snapshot) =>
      assert Running(Injection(s), 0);
      AfterSteerReports(Injection(s), snapshot);
    case FromDrain =>
      assert Running(Injection(s), 1);
      DrainReports(Injection(s));
  }

  lemma StepReports(s: State, l: Label)
    requires Reported(s) && Enabled(s, l)
    ensures Reported(Step(s, l))
  {
    if l.WaitReturns? {
      WaitReports(s);
    } else if l.PostOk? {
      PostReports(s);
    } else {
      hide OwnIdles, LastError;
    }
  }

  lemma {:induction false} RunReports(s: State, run: seq<Label>)
    requires Reported(s) && IsRun(s, run)
    ensures Reported(Exec(s, run))
    decreases |run|
  {
    hide Reported;
    if run != [] {
      StepReports(s, run[0]);
      RunReports(Step(s, run[0]), run[1..]);
    }
  }

  lemma {:induction false} NoErrorAmong(translated: seq<Wire>)
    ensures LastError(translated).None? <==> forall w | w in translated :: !(w.Event? && w.kind.ErrorKind?)
    decreases |translated|
  {
    if translated != [] {
      var front, last := translated[..|translated| - 1], translated[|translated| - 1];
      NoErrorAmong(front);
      assert translated == front + [last];
    }
  }

  /**
   Success is reported only right after an idle of the run's own session, with no error among
   this session's events that were looked at; a failure names the last such error, or says
   that the stream ended, and then each own idle was followed by more work.
   */
  lemma ReportIsHonest(enabled: bool, queued: seq<Item>, run: seq<Label>)
    requires !enabled ==> queued == []
    requires IsRun(Init(enabled, queued), run)
    ensures var s, seen := Exec(Init(enabled, queued), run), Lines(Looks(Init(enabled, queued), run));
            && (s.pc == Done(Success) ==> LastError(seen).None? && LastIsOwnIdle(seen) && OwnIdles(seen) == s.h.kept + 1)
            && (s.pc.Done? && s.pc.outcome.Failed? ==>
                  match LastError(seen)
                  case Some(m) => s.pc.outcome.message == m
                  case None => s.pc.outcome.message == TRUNCATED && OwnIdles(seen) == s.h.kept)
  {
    RunReports(Init(enabled, queued), run);
    TranslatedExactly(enabled, queued, run);
    hide OwnIdles, LastError, Exec, IsRun, Lines, Looks;
  }

  /** A run that reports success has looked at no error of its session, before it was cancelled. */
  lemma SuccessSawNoError(enabled: bool, queued: seq<Item>, run: seq<Label>, k: nat)
    requires !enabled ==> queued == []
    requires IsRun(Init(enabled, queued), run) && Exec(Init(enabled, queued), run).pc == Done(Success)
    requires k < |Looks(Init(enabled, queued), run)|
    ensures var look := Looks(Init(enabled, queued), run)[k];
            look.result.Got? && look.result.line.Event? && look.result.line.session != OtherSession && !look.cancelled ==>
              !look.result.line.kind.ErrorKind?
  {
    var looks := Looks(Init(enabled, queued), run);
    ReportIsHonest(enabled, queued, run);
    NoErrorAmong(Lines(looks));
    hide OwnIdles, LastError, Exec, IsRun, Lines, Looks;
    if ForTranslator(looks[k]) { LinesAreLooks(looks, looks[k].result.line); }
  }
}
