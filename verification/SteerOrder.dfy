/** Delivery order of the steering loop: exactly when it is first come, first served. */
module SteerOrder {
  import opened SteerMachine

  ghost predicate Distinct(items: seq<Item>) {
    forall i, j | 0 <= i < j < |items| :: items[i] != items[j]
  }

  ghost predicate Differ(a: seq<Item>, b: seq<Item>) {
    exists k | 0 <= k < |a| && k < |b| :: a[k] != b[k]
  }

  /** Until a drain overtakes a held item, POSTs begin in queueing order; after that, never again. */
  ghost predicate Ordered(s: State) {
    && (!s.h.overtook ==> s.h.started <= s.h.arrived)
    && (!s.h.overtook && !s.cancelled ==> s.h.arrived == s.h.started + Held(s.steer) + s.queue)
    && (s.h.overtook && Distinct(s.h.arrived) ==> Differ(s.h.started, s.h.arrived))
  }

  lemma DifferExtends(a: seq<Item>, b: seq<Item>, a': seq<Item>, b': seq<Item>)
    requires Differ(a, b) && a <= a' && b <= b'
    ensures Differ(a', b')
  {
    var k :| 0 <= k < |a| && k < |b| && a[k] != b[k];
    assert a'[k] != b'[k];
  }

  lemma StepOrdered(s: State, l: Label)
    requires Ordered(s) && Enabled(s, l)
    ensures Ordered(Step(s, l))
  {
    var t := Step(s, l);
    HistoryGrows(s, l);
    if s.h.overtook {
      hide Step;
      if Distinct(t.h.arrived) {
        assert Distinct(s.h.arrived);
        DifferExtends(s.h.started, s.h.arrived, t.h.started, t.h.arrived);
      }
    } else if !s.cancelled {
      InOrderStep(s, l);
    }
  }

  /** What a step may do to the history, and to the cancellation flag. */
  ghost predicate Grows(s: State, t: State) {
    && s.h.arrived <= t.h.arrived
    && s.h.started <= t.h.started
    && (s.h.overtook ==> t.h.overtook)
    && (s.cancelled ==> t.cancelled && t.h.started == s.h.started && t.h.overtook == s.h.overtook)
  }

  lemma DrainGrows(s: State)
    ensures Grows(s, Drain(s))
  {
  }

  lemma HandleFetchGrows(s: State, r: Fetch)
    requires !r.Pending?
    ensures Grows(s, HandleFetch(s, r))
  {
    if r.Got? && r.line.Event? {
      DrainGrows(s.(error := NoteError(s.error, r.line.kind), h := s.h.(translated := s.h.translated + [r.line])));
      hide Drain;
    }
  }

  lemma HistoryGrows(s: State, l: Label)
    requires Enabled(s, l)
    ensures Grows(s, Step(s, l))
  {
    if l.WaitReturns? { WaitGrows(s); }
    if l.PostOk? { PostGrows(s); }
    hide AfterWait, AfterPost;
  }

  lemma WaitGrows(s: State)
    ensures Grows(s, AfterWait(s))
  {
    hide Drain, HandleFetch;
    if !s.fetch.Pending? {
      HandleFetchGrows(s, s.fetch);
      if s.steer.Took? {
        HandleFetchGrows(s.(steer := Armed, h := s.h.(dropped := s.h.dropped + [s.steer.item])), s.fetch);
      }
    }
  }

  lemma PostGrows(s: State)
    requires s.pc.Posting?
    ensures Grows(s, AfterPost(s))
  {
    var s1 := Injection(s);
    hide Drain, HandleFetch;
    match s.pc.origin
    case FromDrain => DrainGrows(s1);
    case FromTask(snapshot) => if !snapshot.Pending? { HandleFetchGrows(s1, snapshot); }
  }

  /** While in order, the ways the next item can leave the queue or the steer task. */
  lemma DrainInOrder(s: State)
    requires Ordered(s) && !s.h.overtook && !s.cancelled
    ensures Ordered(Drain(s))
  {
    if s.enabled && s.queue != [] && s.steer.Took? {
      var t := Drain(s);
      assert t.h.arrived == s.h.started + [s.steer.item] + s.queue;
      assert t.h.started == s.h.started + [s.queue[0]];
      var k := |s.h.started|;
      if Distinct(t.h.arrived) {
        assert t.h.arrived[k + 1] == s.queue[0];
        assert t.h.started[k] != t.h.arrived[k];
      }
    }
  }

  lemma HandleFetchInOrder(s: State, r: Fetch)
    requires Ordered(s) && !s.h.overtook && !s.cancelled && !r.Pending?
    ensures Ordered(HandleFetch(s, r))
  {
    if r.Got? && r.line.Event? {
      DrainInOrder(s.(error := NoteError(s.error, r.line.kind), h := s.h.(translated := s.h.translated + [r.line])));
      hide Drain;
    }
  }

  lemma InOrderStep(s: State, l: Label)
    requires Ordered(s) && Enabled(s, l) && !s.h.overtook && !s.cancelled
    ensures Ordered(Step(s, l))
  {
    if l.WaitReturns? { WaitInOrder(s); }
    if l.PostOk? { PostInOrder(s); }
    hide AfterWait, AfterPost;
  }

  lemma WaitInOrder(s: State)
    requires Ordered(s) && !s.h.overtook && !s.cancelled && (s.steer.Took? || !s.fetch.Pending?)
    ensures Ordered(AfterWait(s))
  {
    hide Drain, HandleFetch;
    if !s.steer.Took? { HandleFetchInOrder(s, s.fetch); }
  }

  lemma PostInOrder(s: State)
    requires Ordered(s) && s.pc.Posting? && !s.h.overtook && !s.cancelled
    ensures Ordered(AfterPost(s))
  {
    var s1 := Injection(s);
    hide Drain, HandleFetch;
    match s.pc.origin
    case FromDrain => DrainInOrder(s1);
    case FromTask(snapshot) => if !snapshot.Pending? { HandleFetchInOrder(s1, snapshot); }
  }

  lemma {:induction false} RunOrdered(s: State, run: seq<Label>)
    requires Ordered(s) && IsRun(s, run)
    ensures Ordered(Exec(s, run))
    decreases |run|
  {
    if run != [] {
      StepOrdered(s, run[0]);
      RunOrdered(Step(s, run[0]), run[1..]);
    }
  }

  /**
   POSTs begin in queueing order exactly when no drain took an item off the queue while the
   steer task was already done and held an older one.
   */
  lemma FifoExactly(enabled: bool, queued: seq<Item>, run: seq<Label>)
    requires !enabled ==> queued == []
    requires IsRun(Init(enabled, queued), run)
    requires Distinct(Exec(Init(enabled, queued), run).h.arrived)
    ensures var s := Exec(Init(enabled, queued), run);
            s.h.started <= s.h.arrived <==> !s.h.overtook
  {
    RunOrdered(Init(enabled, queued), run);
    var s := Exec(Init(enabled, queued), run);
    if s.h.overtook {
      var k :| 0 <= k < |s.h.started| && k < |s.h.arrived| && s.h.started[k] != s.h.arrived[k];
    }
  }

  lemma {:induction false} RunSnoc(s: State, run: seq<Label>, l: Label)
    requires IsRun(s, run) && Enabled(Exec(s, run), l)
    ensures IsRun(s, run + [l]) && Exec(s, run + [l]) == Step(Exec(s, run), l)
    decreases |run|
  {
    if run != [] {
      assert (run + [l])[1..] == run[1..] + [l];
      RunSnoc(Step(s, run[0]), run[1..], l);
    }
  }

  /** Such a run exists: the third follow-up is delivered before the second. */
  lemma DrainCanOvertake(a: Item, b: Item, c: Item) returns (run: seq<Label>)
    ensures IsRun(Init(true, []), run)
    ensures Exec(Init(true, []), run).h.arrived == [a, b, c]
    ensures Exec(Init(true, []), run).h.posted == [a, c, b]
  {
    var start := Init(true, []);
    // The first follow-up and an idle are both done when `wait` returns: POST it, the idle waits.
    run := [];
    RunSnoc(start, run, Enqueue(a)); run := run + [Enqueue(a)];
    RunSnoc(start, run, Take); run := run + [Take];
    RunSnoc(start, run, Arrive(Got(Event(OwnSession, IdleKind))));
    run := run + [Arrive(Got(Event(OwnSession, IdleKind)))];
    RunSnoc(start, run, WaitReturns); run := run + [WaitReturns];
    // During the POST the steer task takes the second, and a third is queued behind it.
    RunSnoc(start, run, Enqueue(b)); run := run + [Enqueue(b)];
    RunSnoc(start, run, Take); run := run + [Take];
    RunSnoc(start, run, Enqueue(c)); run := run + [Enqueue(c)];
    // The idle drains the third; only the next `wait` finds the second.
    RunSnoc(start, run, PostOk); run := run + [PostOk];
    RunSnoc(start, run, PostOk); run := run + [PostOk];
    RunSnoc(start, run, WaitReturns); run := run + [WaitReturns];
    RunSnoc(start, run, PostOk); run := run + [PostOk];
  }
}
