/** The steering loop as it runs: the driver's variables, updated in place between two awaits. */
module SteerLoop {
  import opened Options
  import opened SteerMachine

  class Driver {
    const steerEnabled: bool
    var steerQueue: seq<Item>
    var steerTask: SteerTask
    var nextTask: Fetch
    var cancelDone: bool
    var deliveredSinceIdle: bool
    var sawIdle: bool
    var error: Option<string>
    var pc: Pc
    ghost var history: History

    ghost function View(): State
      reads this
    {
      State(steerEnabled, steerQueue, steerTask, nextTask, cancelDone, deliveredSinceIdle, sawIdle, error, pc, history)
    }

    constructor (enabled: bool, queued: seq<Item>)
      requires !enabled ==> queued == []
      ensures View() == Init(enabled, queued)
    {
      steerEnabled, steerQueue, steerTask := enabled, queued, if enabled then Armed else Off;
      nextTask, cancelDone, deliveredSinceIdle, sawIdle, error, pc := Pending, false, false, false, None, AtWait;
      history := History(queued, [], [], [], [], [], [], 0, false);
    }

    // ---- The environment, at an await ----

    method Put(item: Item)
      requires Enabled(View(), Enqueue(item))
      modifies this`steerQueue, this`history
      ensures View() == Step(old(View()), Enqueue(item))
    {
      steerQueue := steerQueue + [item];
      history := history.(arrived := history.arrived + [item]);
    }

    method SteerTaskTakes()
      requires Enabled(View(), Take)
      modifies this`steerQueue, this`steerTask
      ensures View() == Step(old(View()), Take)
    {
      steerTask, steerQueue := Took(steerQueue[0]), steerQueue[1..];
    }

    method LineArrives(result: Fetch)
      requires Enabled(View(), Arrive(result))
      modifies this`nextTask
      ensures View() == Step(old(View()), Arrive(result))
    {
      nextTask := result;
    }

    method UserCancels()
      requires Enabled(View(), Cancel)
      modifies this`cancelDone
      ensures View() == Step(old(View()), Cancel)
    {
      cancelDone := true;
    }

    // ---- The loop, from one await to the next ----

    method WaitReturned()
      requires Enabled(View(), WaitReturns)
      modifies this
      ensures View() == Step(old(View()), WaitReturns)
    {
      var nextInDone := nextTask;
      match steerTask {
        case Took(item) =>
          steerTask := Armed;
          if !cancelDone {
            BeginDelivery(item, FromTask(nextInDone));
          } else {
            history := history.(dropped := history.dropped + [item]);
            AfterSteerItem(nextInDone);
          }
        case _ =>
          if nextInDone.Pending? {
            pc := Unwinding(true);
          } else {
            HandleLine(nextInDone);
          }
      }
    }

    method PostReturned()
      requires Enabled(View(), PostOk)
      modifies this
      ensures View() == Step(old(View()), PostOk)
    {
      var origin := pc.origin;
      history := history.(posted := history.posted + [pc.item], marks := history.marks + [Injected]);
      pc := AtWait;
      deliveredSinceIdle := true;
      match origin {
        case FromTask(nextInDone) => AfterSteerItem(nextInDone);
        case FromDrain => DrainQueue();
      }
    }

    method PostRaises()
      requires Enabled(View(), PostFails)
      modifies this`pc, this`history
      ensures View() == Step(old(View()), PostFails)
    {
      history := history.(failed := history.failed + [pc.item]);
      pc := Done(Raised);
    }

    method CancelledFetchReturned()
      requires Enabled(View(), UnwindReturns)
      modifies this
      ensures View() == Step(old(View()), UnwindReturns)
    {
      if pc.thenAbort {
        pc := Aborting;
      } else {
        Continue();
      }
    }

    method AbortReturned()
      requires Enabled(View(), AbortReturns)
      modifies this`pc
      ensures View() == Step(old(View()), AbortReturns)
    {
      pc := Done(Cancelled);
    }

    // ---- Pieces of the loop body ----

    method Continue()
      modifies this`nextTask, this`pc
      ensures View() == Loop(old(View()))
    {
      nextTask, pc := Pending, AtWait;
    }

    method BeginDelivery(item: Item, origin: Origin)
      modifies this`pc, this`history
      ensures View() == StartPost(old(View()), item, origin)
    {
      pc := Posting(item, origin);
      history := history.(started := history.started + [item]);
    }

    method AfterSteerItem(nextInDone: Fetch)
      modifies this
      ensures View() == AfterSteer(old(View()), nextInDone)
    {
      if nextInDone.Pending? {
        pc := Unwinding(false);
      } else {
        HandleLine(nextInDone);
      }
    }

    method HandleLine(result: Fetch)
      requires !result.Pending?
      modifies this
      ensures View() == HandleFetch(old(View()), result)
    {
      match result {
        case EndOfStream => Return();
        case Broken => pc := Done(Raised);
        case Got(line) =>
          if cancelDone {
            pc := Aborting;
          } else if line.NotAnObject? {
            pc := Done(Raised);
          } else if !line.Event? || line.session.OtherSession? {
            Continue();
          } else {
            if line.kind.ErrorKind? {
              error := Some(line.kind.message);
            }
            history := history.(translated := history.translated + [line]);
            if line.kind.IdleKind? && line.session.OwnSession? {
              DrainQueue();
            } else {
              Continue();
            }
          }
      }
    }

    /** The `get_nowait` loop on an own-session idle: it stops at the first POST or at an empty queue. */
    method DrainQueue()
      modifies this
      ensures View() == Drain(old(View()))
    {
      ghost var before := View();
      hide DecideIdle, Loop, Finish;
      if steerEnabled {
        while steerQueue != []
          invariant steerEnabled && before.cancelled == cancelDone
          invariant steerQueue == before.queue || cancelDone
          invariant history.dropped + steerQueue == before.h.dropped + before.queue
          invariant View() == before.(queue := steerQueue, h := before.h.(dropped := history.dropped))
          invariant steerQueue == before.queue ==> history == before.h
          decreases |steerQueue|
        {
          var item := steerQueue[0];
          steerQueue := steerQueue[1..];
          if !cancelDone {
            history := history.(overtook := history.overtook || steerTask.Took?);
            BeginDelivery(item, FromDrain);
            return;
          }
          history := history.(dropped := history.dropped + [item]);
        }
      }
      assert steerEnabled ==> history.dropped == before.h.dropped + before.queue;
      assert View() == if !steerEnabled || before.queue == [] then before
                       else before.(queue := [], h := before.h.(dropped := before.h.dropped + before.queue));
      Decide();
    }

    /** With the queue empty: keep going after an injection, else finish. */
    method Decide()
      modifies this
      ensures View() == DecideIdle(old(View()))
    {
      if deliveredSinceIdle {
        deliveredSinceIdle := false;
        history := history.(marks := history.marks + [KeptIdle], kept := history.kept + 1);
        Continue();
      } else {
        sawIdle := true;
        history := history.(marks := history.marks + [FinalIdle]);
        Return();
      }
    }

    method Return()
      modifies this`pc
      ensures View() == Finish(old(View()))
    {
      if error.Some? {
        pc := Done(Failed(error.value));
      } else if !sawIdle {
        pc := Done(Failed(TRUNCATED));
      } else {
        pc := Done(Success);
      }
    }
  }
}
