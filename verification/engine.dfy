/** The engine object. Each method up to `ReadAnswer` is one stretch of code under the engine's mutex,
    or one that runs after an unlock (a shutdown's cancel, the close); `RunLoop` is the goroutine of
    one run and `GracefulShutdown` a whole shutdown, with any other goroutines' stretches in
    between. The object remembers every stretch in `events`, so what holds of all runs of
    `Lifecycle` holds of it. */
module EngineObject {
  import opened Basics
  import opened Lifecycle

  class RunEngine {
    var state: EngineState
    var runDone: Option<nat>
    var snapshots: Option<nat>
    var verdict: Option<Verdict>
    var runs: nat
    var loops: map<nat, Point>
    var timed: set<nat>
    var asked: set<nat>
    var cancelled: set<nat>
    var closed: set<nat>
    var panicked: bool
    ghost var events: seq<Event>
    ghost var turns: nat   // how often a waiting shutdown has let the others go on

    function Abs(): Engine
      reads this
    {
      Engine(state, runs, loops, timed, asked, cancelled, runDone, snapshots, verdict, closed, panicked)
    }

    ghost predicate Valid()
      reads this
    {
      Runs(events) && Abs() == After(events)
    }

    /** No start so far was accepted between an error and the deferred block of its loop. */
    ghost predicate Calm()
      reads this
    {
      NeverHasty(events)
    }

    constructor ()
      ensures Valid() && Calm() && events == [] && state.Idle?
    {
      state, runDone, snapshots, verdict, runs := Idle, None, None, None, 0;
      loops, timed, asked, cancelled, closed := map[], {}, {}, {}, {};
      panicked, events, turns := false, [], 0;
    }

    /** An accepted start leaves its own loop as the only live one, with a channel nobody has
        closed, and nothing of an earlier run's result. */
    method StartRunFromConfig(hasDuration: bool) returns (accepted: bool)
      requires Valid()
      modifies this`state, this`runs, this`loops, this`timed, this`runDone, this`snapshots, this`verdict,
               this`events
      ensures Valid() && events == old(events) + [Start(hasDuration)]
      ensures accepted <==> old(state) in {Idle, Stopped, Failed}
      ensures !accepted ==> Abs() == old(Abs())
      ensures accepted ==> Stoppable(Abs()) && verdict.None? && snapshots.None? && runs == old(runs) + 1
      ensures accepted ==> runDone == Some(old(runs)) && old(runs) !in closed && old(runs) !in old(loops)
      ensures accepted && Calm() ==> forall n :: Live(Abs(), n) <==> n == old(runs)
    {
      hide Runs, After, NeverHasty, Live;
      NewChannel(events);
      RunsSnoc(events, Start(hasDuration));
      events := events + [Start(hasDuration)];
      if !state.Idle? && !state.Stopped? && !state.Failed? {
        return false;
      }
      Renew(hasDuration);
      if Calm() { LatestIsLive(events); }
      return true;
    }

    method Renew(hasDuration: bool)
      modifies this`state, this`runs, this`loops, this`timed, this`runDone, this`snapshots, this`verdict
      ensures state == Starting && verdict.None? && snapshots.None?
      ensures runDone == Some(old(runs)) && runs == old(runs) + 1
      ensures timed == (if hasDuration then old(timed) + {old(runs)} else old(timed))
      ensures loops == old(loops)[old(runs) := Building]
    {
      state, verdict, snapshots := Starting, None, None;
      runDone := Some(runs);
      timed := if hasDuration then timed + {runs} else timed;
      loops, runs := loops[runs := Building], runs + 1;
    }

    /** An accepted stop reaches the one live loop, and changes nothing else. */
    method StopRun() returns (accepted: bool)
      requires Valid()
      modifies this`cancelled, this`events
      ensures Valid() && events == old(events) + [Stop]
      ensures accepted <==> old(state) in {Starting, Running}
      ensures !accepted ==> cancelled == old(cancelled)
      ensures accepted && Calm() ==> forall n :: Live(Abs(), n) <==> n == runs - 1
      ensures accepted && Calm() ==> cancelled == old(cancelled) + {runs - 1}
    {
      hide Runs, After, NeverHasty, Live;
      accepted := state.Starting? || state.Running?;
      if accepted && runs > 0 {
        cancelled := cancelled + {runs - 1};
      }
      RunsSnoc(events, Stop);
      events := events + [Stop];
      if Calm() && accepted { LatestIsLive(events); }
    }

    method BuildGroups(n: nat)
      requires Valid() && CanStep(Abs(), n, Build)
      modifies this`loops, this`events
      ensures Valid() && events == old(events) + [By(n, Build)] && loops == old(loops)[n := Preparing]
    {
      hide Runs, After, NeverHasty;
      RunsSnoc(events, By(n, Build));
      loops := loops[n := Preparing];
      events := events + [By(n, Build)];
    }

    /** A failed run has no verdict. Its error opens the window in which a start is hasty. */
    method SetError(n: nat)
      requires Valid() && CanStep(Abs(), n, Step.SetError)
      modifies this`state, this`loops, this`events
      ensures Valid() && events == old(events) + [By(n, Step.SetError)] && loops == old(loops)[n := ErrorSet]
      ensures ErrorWindow(Abs())
      ensures Calm() ==> verdict.None? && forall m :: Live(Abs(), m) <==> m == n
    {
      hide Runs, After, NeverHasty, Inv;
      RunsSnoc(events, By(n, Step.SetError));
      state, loops := Failed, loops[n := ErrorSet];
      events := events + [By(n, Step.SetError)];
      assert n in Abs().loops && Abs().loops[n].ErrorSet?;
      if Calm() { LifecycleSafe(events); AloneAt(Abs(), n); }
    }

    /** The run's context was cancelled before the measurement. */
    method Abandon(n: nat)
      requires Valid() && CanStep(Abs(), n, Step.Abandon)
      modifies this`loops, this`events
      ensures Valid() && events == old(events) + [By(n, Step.Abandon)] && loops == old(loops)[n := Abandoned]
      ensures Calm() ==> verdict.None? && Final(Abs())
    {
      hide Runs, After, NeverHasty, Inv, Final;
      RunsSnoc(events, By(n, Step.Abandon));
      loops := loops[n := Abandoned];
      events := events + [By(n, Step.Abandon)];
      if Calm() { LifecycleSafe(events); AloneAt(Abs(), n); AnswerFinalExactly(Abs()); }
    }

    /** The last look at the run's context: a run cancelled before it is abandoned, so from here on
        the run can be judged. */
    method PassLastCheck(n: nat)
      requires Valid() && CanStep(Abs(), n, Clear)
      modifies this`loops, this`events
      ensures Valid() && events == old(events) + [By(n, Clear)] && loops == old(loops)[n := Ready]
      ensures Calm() ==> !Final(Abs())
    {
      hide Runs, After, NeverHasty, Inv, Final;
      RunsSnoc(events, By(n, Clear));
      loops := loops[n := Ready];
      events := events + [By(n, Clear)];
      if Calm() { LifecycleSafe(events); AloneAt(Abs(), n); AnswerFinalExactly(Abs()); }
    }

    /** Measuring: a stop or a shutdown is accepted from here on, and reaches this loop. */
    method SetRunning(n: nat)
      requires Valid() && CanStep(Abs(), n, Measure)
      modifies this`state, this`loops, this`events
      ensures Valid() && events == old(events) + [By(n, Measure)] && loops == old(loops)[n := Measuring]
      ensures Stoppable(Abs()) && (Calm() ==> n == runs - 1 && runDone == Some(n))
    {
      hide Runs, After, NeverHasty, Inv;
      RunsSnoc(events, By(n, Measure));
      state, loops := Running, loops[n := Measuring];
      events := events + [By(n, Measure)];
      if Calm() { LifecycleSafe(events); AloneAt(Abs(), n); }
    }

    /** Draining: a shutdown no longer waits, and an answer read now is not final. */
    method SetStopping(n: nat)
      requires Valid() && CanStep(Abs(), n, Finish)
      modifies this`state, this`loops, this`events
      ensures Valid() && events == old(events) + [By(n, Finish)] && loops == old(loops)[n := Draining]
      ensures !Stoppable(Abs()) && !Accepts(Abs()) && (Calm() ==> !Answer(Abs()) && !Final(Abs()))
    {
      hide Runs, After, NeverHasty, Inv, Final;
      RunsSnoc(events, By(n, Finish));
      state, loops := Stopping, loops[n := Draining];
      events := events + [By(n, Finish)];
      if Calm() { LifecycleSafe(events); AloneAt(Abs(), n); AnswerFinalExactly(Abs()); }
    }

    /** The engine holds no other run's snapshots before or after. */
    method CaptureWorkerSnapshots(n: nat)
      requires Valid() && CanStep(Abs(), n, Capture)
      modifies this`snapshots, this`loops, this`events
      ensures Valid() && events == old(events) + [By(n, Capture)] && loops == old(loops)[n := Captured]
      ensures snapshots == Some(n)
      ensures Calm() ==> n == runs - 1 && old(snapshots) in {None, Some(n)} && verdict.None?
    {
      hide Runs, After, NeverHasty, Inv;
      RunsSnoc(events, By(n, Capture));
      if NeverHasty(events + [By(n, Capture)]) { CaptureAlone(events, n); }
      snapshots, loops := Some(n), loops[n := Captured];
      events := events + [By(n, Capture)];
    }

    /** The verdict is computed from whatever snapshots the engine holds. They are this run's own,
        and the answer is settled for good. */
    method StoreVerdict(n: nat, passed: bool)
      requires Valid() && CanStep(Abs(), n, Judge(passed))
      modifies this`verdict, this`loops, this`events
      ensures Valid() && events == old(events) + [By(n, Judge(passed))] && loops == old(loops)[n := Judged]
      ensures verdict.Some? && Answer(Abs()) == passed
      ensures Calm() ==> verdict.value.run == n == runs - 1 && verdict.value.source == Some(n) && Final(Abs())
    {
      hide Runs, After, NeverHasty, Inv, Final;
      RunsSnoc(events, By(n, Judge(passed)));
      verdict, loops := Some(Verdict(n, snapshots, passed)), loops[n := Judged];
      events := events + [By(n, Judge(passed))];
      if Calm() { LifecycleSafe(events); AloneAt(Abs(), n); AnswerFinalExactly(Abs()); }
    }

    /** The deferred block up to the unlock. It reads the engine's channel; that is its own run's,
        still open, and the next start is accepted. */
    method Deferred(n: nat) returns (done: Option<nat>)
      requires Valid() && CanStep(Abs(), n, Defer)
      modifies this`state, this`loops, this`events
      ensures Valid() && events == old(events) + [By(n, Defer)]
      ensures done.Some? && loops == old(loops)[n := Closing(done.value)]
      ensures Accepts(Abs()) && (Calm() ==> done == Some(n) && n !in closed)
    {
      hide Runs, After, NeverHasty, Inv;
      RunsCount(events);
      RunsSnoc(events, By(n, Defer));
      if !state.Failed? {
        state := Stopped;
      }
      done := runDone;
      loops := if done.Some? then loops[n := Closing(done.value)] else loops - {n};
      events := events + [By(n, Defer)];
      if Calm() { LifecycleSafe(events); OwnChannel(Abs(), n); }
    }

    /** close(done): a second close of one channel ends the process. */
    method CloseDone(n: nat)
      requires Valid() && CanStep(Abs(), n, Close)
      modifies this`loops, this`closed, this`panicked, this`events
      ensures Valid() && events == old(events) + [By(n, Close)]
      ensures loops == old(loops) - {n} && closed == old(closed) + {old(loops[n].done)}
      ensures panicked <==> old(panicked) || old(loops[n].done) in old(closed)
      ensures Calm() ==> !panicked && n in closed && n !in old(closed)
    {
      hide Runs, After, NeverHasty, Inv;
      RunsSnoc(events, By(n, Close));
      if NeverHasty(events + [By(n, Close)]) { CloseOwn(events, n); }
      var done := loops[n].done;
      panicked := panicked || done in closed;
      closed := closed + {done};
      loops := loops - {n};
      events := events + [By(n, Close)];
    }

    /** GracefulShutdown's first stretch: takes the cancel function and the channel of the run to
        wait for, which is the one live loop's and open. */
    method AskShutdown() returns (wait: Option<nat>)
      requires Valid()
      modifies this`asked, this`events
      ensures Valid() && events == old(events) + [Ask] && old(asked) <= asked
      ensures state in {Starting, Running} ==> runs > 0 && wait == Some(runs - 1) && wait.value in asked
      ensures state !in {Starting, Running} ==> wait == None && asked == old(asked)
      ensures Calm() && state in {Starting, Running} ==>
                runs - 1 !in closed && forall n :: Live(Abs(), n) <==> n == runs - 1
    {
      hide Runs, After, NeverHasty, Live;
      RunsSnoc(events, Ask);
      NewChannel(events);
      IdleAtFirst(events);
      wait := None;
      if (state.Starting? || state.Running?) && runs > 0 {
        wait := runDone;
        asked := asked + {runs - 1};
      }
      events := events + [Ask];
      if Calm() && Stoppable(Abs()) { LatestIsLive(events); }
    }

    /** The cancel, after the unlock: it reaches the run the shutdown saw, which need not be the
        latest any more. A run that had not passed its last check will not be judged. */
    method CancelAsked(n: nat)
      requires Valid() && n in asked
      modifies this`cancelled, this`events
      ensures Valid() && events == old(events) + [Cancel(n)] && cancelled == old(cancelled) + {n}
      ensures n in loops && loops[n] in {Building, Preparing} ==> !Ahead(Abs(), n)
      ensures Calm() && n == runs - 1 && n in loops && loops[n] in {Building, Preparing} ==> Final(Abs())
    {
      hide Runs, After, NeverHasty, Inv, Final;
      RunsSnoc(events, Cancel(n));
      cancelled := cancelled + {n};
      events := events + [Cancel(n)];
      if Calm() && n == runs - 1 && n in loops && loops[n] in {Building, Preparing} {
        LifecycleSafe(events);
        AloneAt(Abs(), n);
        AnswerFinalExactly(Abs());
      }
    }

    /** GracefulShutdown's answer. It is final if and only if no loop can still judge, so in
        particular when the channel waited for is the latest one and is closed; and a pass is the
        latest run's own. */
    method ReadAnswer(wait: Option<nat>) returns (passed: bool)
      requires Valid()
      ensures passed <==> verdict.Some? && verdict.value.passed
      ensures Calm() ==> (Final(Abs()) <==> !CanJudge(Abs()))
      ensures Calm() && wait.Some? && wait == runDone && wait.value in closed ==> Final(Abs())
      ensures Calm() && passed ==> verdict.value.run == runs - 1 && verdict.value.source == Some(runs - 1)
    {
      hide Runs, After, NeverHasty, Inv, Final;
      passed := verdict.Some? && verdict.value.passed;
      if Calm() {
        LifecycleSafe(events);
        AnswerFinalExactly(Abs());
        if passed { VerdictIsLatest(Abs()); }
        if wait.Some? && wait == runDone && wait.value in closed { WaitedAnswerIsFinal(Abs()); }
      }
    }

    // ---- one goroutine among others ----------------------------------------

    /** Any one stretch of another goroutine. */
    method Perform(ev: Event)
      requires Valid() && Enabled(Abs(), ev)
      modifies this
      ensures Valid() && events == old(events) + [ev] && Abs() == Apply(old(Abs()), ev) && turns == old(turns)
    {
      hide Runs, After, Enabled, Apply;
      RunsSnoc(events, ev);
      Install(Apply(Abs(), ev));
      events := events + [ev];
    }

    method Install(e: Engine)
      modifies this`state, this`runDone, this`snapshots, this`verdict, this`runs, this`loops, this`timed, this`asked,
               this`cancelled, this`closed, this`panicked
      ensures Abs() == e
    {
      state, runDone, snapshots, verdict, runs := e.state, e.runDone, e.snapshots, e.verdict, e.runs;
      loops, timed, asked, cancelled := e.loops, e.timed, e.asked, e.cancelled;
      closed, panicked := e.closed, e.panicked;
    }

    /** What only grows, whoever runs. */
    twostate predicate Grown()
      reads this
    {
      && old(events) <= events && runs >= old(runs) && old(timed) <= timed && old(asked) <= asked
      && old(cancelled) <= cancelled && old(closed) <= closed
    }

    /** What run loop n finds unchanged when it gets the mutex again. */
    twostate predicate Undisturbed(n: nat)
      reads this
    {
      Grown() && n in loops && n in old(loops) && loops[n] == old(loops[n])
    }

    /** Any number of stretches of other goroutines. */
    method Others(n: nat)
      requires Valid() && n in loops
      modifies this
      ensures Valid() && Undisturbed(n)
    {
      hide Runs, After, Enabled, Apply;
      var stretches :| stretches >= 0;
      for i := 0 to stretches
        invariant Valid() && Undisturbed(n)
      {
        var ev: Event := *;
        if Enabled(Abs(), ev) && !(ev.By? && ev.n == n) {
          LoopsAreNumbered(events);
          OthersKeep(Abs(), ev, n);
          AllGrows(Abs(), ev);
          Perform(ev);
        }
      }
    }

    /** The same, with no particular loop waiting. */
    method Anyone()
      requires Valid()
      modifies this
      ensures Valid() && Grown() && turns == old(turns)
    {
      hide Runs, After, Enabled, Apply;
      var stretches :| stretches >= 0;
      for i := 0 to stretches
        invariant Valid() && Grown() && turns == old(turns)
      {
        var ev: Event := *;
        if Enabled(Abs(), ev) {
          AllGrows(Abs(), ev);
          Perform(ev);
        }
      }
    }

    /** One turn of a wait. */
    method LetOthersRun()
      requires Valid()
      modifies this
      ensures Valid() && Grown() && turns == old(turns) + 1
    {
      hide Runs, After;
      Anyone();
      turns := turns + 1;
    }

    /** The select on the done channel and the timer: ends as soon as the channel is seen closed, and
        otherwise when the patience is used up. */
    method Await(done: nat, patience: nat) returns (timedOut: bool)
      requires Valid()
      modifies this
      ensures Valid() && Grown()
      ensures timedOut <==> done !in closed
      ensures timedOut ==> turns == old(turns) + patience
    {
      hide Runs, After;
      for t := 0 to patience
        invariant Valid() && Grown() && turns == old(turns) + t
      {
        if done in closed { return false; }
        LetOthersRun();
      }
      return done !in closed;
    }

    /** The whole shutdown among any others. A run that is starting or running is cancelled and
        waited for, until its channel is closed or the patience is used up; in any other state the
        shutdown waits for nothing. The answer is final if and only if no loop can
        still judge, in particular after a wait that saw the channel closed, when no run was
        started since. */
    method GracefulShutdown(patience: nat) returns (passed: bool, waited: Option<nat>, timedOut: bool)
      requires Valid()
      modifies this
      ensures Valid() && Grown() && (passed <==> Answer(Abs()))
      ensures old(state) in {Starting, Running} ==>
                && old(runs) > 0 && waited == Some(old(runs) - 1) && waited.value in cancelled
                && (timedOut ==> turns == old(turns) + patience) && (!timedOut ==> waited.value in closed)
      ensures old(state) !in {Starting, Running} ==> waited == None && !timedOut && turns == old(turns)
      ensures Calm() && waited.Some? ==> waited.value !in old(closed)
      ensures Calm() ==> (Final(Abs()) <==> !CanJudge(Abs()))
      ensures Calm() && waited.Some? && !timedOut && runs == old(runs) ==> Final(Abs())
      ensures Calm() && waited == Some(runs - 1) && Stoppable(Abs()) ==>
                runs - 1 in loops && (Final(Abs()) <==> loops[runs - 1] in {Building, Preparing, Abandoned})
    {
      hide Runs, After, NeverHasty, Inv, Final, CanJudge, Live;
      waited := AskShutdown();
      ghost var asking := events;
      timedOut := false;
      if waited.Some? {
        Anyone();
        CancelAsked(waited.value);
        timedOut := Await(waited.value, patience);
      }
      Anyone();
      passed := ReadAnswer(waited);
      if Calm() {
        CalmThen(asking, events);
        LatestChannel(events);
        if waited == Some(runs - 1) && Stoppable(Abs()) { TimedOutCalmly(events); }
      }
    }

    /** A whole run among any others, watched for as long as one likes: `returned` is false while it
        is still blocked in a measurement that neither a duration nor a cancel has ended. In every
        interleaving the loop returns with its channel closed and no channel closed twice. A run
        whose consumers fail, or that was cancelled when it began, is not judged; a run whose
        consumers start, that has a duration and is never cancelled, is. Until a next start the
        engine holds the verdict of the run, from its own snapshots, for good. */
    method RunLoop(n: nat, consumersFail: bool, passes: bool) returns (returned: bool, judged: bool)
      requires Valid() && n in loops && loops[n].Building?
      modifies this
      ensures Valid() && Grown()
      ensures if returned then n !in loops else Endless(Abs(), n)
      ensures judged ==> returned && !consumersFail && n !in old(cancelled)
      ensures !consumersFail && n !in cancelled ==> (returned <==> judged) && (n in old(timed) ==> judged)
      ensures Calm() && returned ==> n in closed && !panicked
      ensures Calm() && judged && n == runs - 1 ==>
                verdict == Some(Verdict(n, Some(n), passes)) && Final(Abs())
    {
      hide Runs, After, NeverHasty, Inv, Final;
      LoopsAreNumbered(events);
      returned, judged := Body(n, consumersFail, passes);
      if !returned { return; }
      Leave(n);
      if Calm() {
        Returned(events, n);
        if judged && n == runs - 1 { JudgedStands(events, n, passes); }
      }
    }

    /** The deferred block, with others in between. */
    method Leave(n: nat)
      requires Valid() && CanStep(Abs(), n, Defer)
      modifies this
      ensures Valid() && Grown() && n !in loops
    {
      hide Runs, After, NeverHasty, Inv, Final, Accepts;
      Others(n);
      var done := Deferred(n);
      CloseLater(n);
    }

    method CloseLater(n: nat)
      requires Valid() && CanStep(Abs(), n, Close)
      modifies this
      ensures Valid() && Grown() && n !in loops
    {
      hide Runs, After, NeverHasty, Inv;
      Others(n);
      CloseDone(n);
    }

    /** The loop up to its deferred block. */
    method Body(n: nat, consumersFail: bool, passes: bool) returns (ended: bool, judged: bool)
      requires Valid() && n in loops && loops[n].Building?
      modifies this
      ensures Valid() && Grown()
      ensures if ended then n in loops && loops[n] in {ErrorSet, Abandoned, Judged} else Endless(Abs(), n)
      ensures judged ==> ended && By(n, Judge(passes)) in events && !consumersFail && n !in old(cancelled)
      ensures ended && !consumersFail && n !in cancelled ==> judged
    {
      hide Runs, After, NeverHasty, Inv, Final, ErrorWindow, Endless;
      Others(n);
      BuildGroups(n);
      Others(n);
      if consumersFail {
        SetError(n);
        return true, false;
      }
      if n in cancelled {
        Abandon(n);
        return true, false;
      }
      ended, judged := WarmUpAndMeasure(n, passes);
    }

    /** The loop after its consumers are ready: warmup, and then the measurement unless the warmup
        was cancelled. */
    method WarmUpAndMeasure(n: nat, passes: bool) returns (ended: bool, judged: bool)
      requires Valid() && n in loops && loops[n].Preparing?
      modifies this
      ensures Valid() && Grown()
      ensures if ended then n in loops && loops[n] in {Abandoned, Judged} else Endless(Abs(), n)
      ensures judged ==> ended && By(n, Judge(passes)) in events && n !in old(cancelled)
      ensures ended && n !in cancelled ==> judged
    {
      hide Runs, After, NeverHasty, Inv, Final, Endless;
      Others(n);
      if n in cancelled {
        Abandon(n);
        return true, false;
      }
      PassLastCheck(n);
      Others(n);
      ended := MeasureAndJudge(n, passes);
      judged := ended;
    }

    method MeasureAndJudge(n: nat, passes: bool) returns (ended: bool)
      requires Valid() && n in loops && loops[n].Ready?
      modifies this
      ensures Valid() && Grown()
      ensures if ended then n in loops && loops[n].Judged? && By(n, Judge(passes)) in events else Endless(Abs(), n)
    {
      hide Runs, After, NeverHasty, Inv, Final, Stoppable, Answer, Accepts;
      SetRunning(n);
      Others(n);
      if n !in timed && n !in cancelled { return false; }
      SetStopping(n);
      Others(n);
      ShutdownAndJudge(n, passes);
      return true;
    }

    /** shutdownWorkers and computeVerdict. */
    method ShutdownAndJudge(n: nat, passes: bool)
      requires Valid() && n in loops && loops[n].Draining?
      modifies this
      ensures Valid() && Grown()
      ensures n in loops && loops[n].Judged? && By(n, Judge(passes)) in events
    {
      hide Runs, After, NeverHasty, Inv, Final, Answer;
      CaptureWorkerSnapshots(n);
      Others(n);
      StoreVerdict(n, passes);
    }
  }

  lemma NewChannel(events: seq<Event>)
    requires Runs(events)
    ensures
      var e := After(events);
      e.runs !in e.closed && e.runs !in e.loops && e.runDone == (if e.runs == 0 then None else Some(e.runs - 1))
  {
    hide After, Runs;
    RunsCount(events);
  }

  lemma CalmThen(before: seq<Event>, events: seq<Event>)
    requires before <= events && NeverHasty(events)
    ensures NeverHasty(before)
  {
    hide NeverHasty, Runs, After;
    CalmPrefix(events, |before|);
    assert events[..|before|] == before;
  }

  lemma TimedOutCalmly(events: seq<Event>)
    requires NeverHasty(events) && Stoppable(After(events)) && After(events).runs - 1 in After(events).cancelled
    ensures
      var e := After(events);
      e.runs - 1 in e.loops && (Final(e) <==> e.loops[e.runs - 1] in {Building, Preparing, Abandoned})
  {
    hide NeverHasty, Runs, After, Inv, Final;
    LifecycleSafe(events);
    TimedOutAnswerExactly(After(events));
  }

  lemma LatestChannel(events: seq<Event>)
    requires NeverHasty(events)
    ensures
      var e := After(events);
      e.runDone == if e.runs == 0 then None else Some(e.runs - 1)
  {
    hide After, Runs, NeverHasty;
    LifecycleSafe(events);
  }

  lemma LatestIsLive(events: seq<Event>)
    requires NeverHasty(events) && Stoppable(After(events))
    ensures
      var e := After(events);
      && e.runs > 0 && e.runDone == Some(e.runs - 1) && e.runs - 1 !in e.closed
      && forall n :: Live(e, n) <==> n == e.runs - 1
  {
    hide After, Runs, NeverHasty;
    LifecycleSafe(events);
  }

  lemma AloneAt(e: Engine, n: nat)
    requires Inv(e) && Live(e, n)
    ensures n == e.runs - 1 && e.runDone == Some(n) && e.snapshots in {None, Some(n)}
    ensures forall m :: Live(e, m) <==> m == n
    ensures e.verdict.Some? ==> e.loops[n].Judged?
    ensures e.verdict.Some? ==> e.verdict.value.run == n && e.verdict.value.source == Some(n)
    ensures CanJudge(e) <==> Ahead(e, n)
  {
  }

  lemma OwnChannel(e: Engine, n: nat)
    requires Inv(e) && n in e.loops && e.loops[n].Closing?
    ensures e.loops[n].done == n && n !in e.closed
  {
  }

  lemma VerdictIsLatest(e: Engine)
    requires Inv(e) && e.verdict.Some?
    ensures e.verdict.value.run == e.runs - 1 && e.verdict.value.source == Some(e.runs - 1)
  {
  }

  lemma Returned(events: seq<Event>, n: nat)
    requires NeverHasty(events) && n < After(events).runs && n !in After(events).loops
    ensures
      var e := After(events);
      && n in e.closed && !e.panicked
      && (n == e.runs - 1 ==> Final(e))
  {
    hide Final, After, Runs, NeverHasty;
    LifecycleSafe(events);
    if n == After(events).runs - 1 { WaitedAnswerIsFinal(After(events)); }
  }

  lemma AllGrows(e: Engine, ev: Event)
    requires Enabled(e, ev)
    ensures
      var after := Apply(e, ev);
      && after.runs >= e.runs && e.timed <= after.timed && e.asked <= after.asked
      && e.cancelled <= after.cancelled && e.closed <= after.closed
  {
  }

  lemma OtherLoopKeeps(e: Engine, m: nat, step: Step, n: nat)
    requires CanStep(e, m, step) && n in e.loops && m != n
    ensures
      var after := LoopStep(e, m, step);
      n in after.loops && after.loops[n] == e.loops[n]
  {
  }

  lemma OthersKeep(e: Engine, ev: Event, n: nat)
    requires Enabled(e, ev) && Numbered(e) && n in e.loops && !(ev.By? && ev.n == n)
    ensures
      var after := Apply(e, ev);
      n in after.loops && after.loops[n] == e.loops[n]
  {
    hide LoopStep, CanStep;
    if ev.By? { OtherLoopKeeps(e, ev.n, ev.step, n); }
  }

  lemma CaptureAlone(events: seq<Event>, n: nat)
    requires Runs(events) && CanStep(After(events), n, Capture) && NeverHasty(events + [By(n, Capture)])
    ensures
      var e := After(events);
      n == e.runs - 1 && e.snapshots in {None, Some(n)} && e.verdict.None?
  {
    hide Inv;
    assert Init(events + [By(n, Capture)]) == events;
    LifecycleSafe(events);
    AloneAt(After(events), n);
  }

  lemma CloseOwn(events: seq<Event>, n: nat)
    requires Runs(events) && CanStep(After(events), n, Close) && NeverHasty(events + [By(n, Close)])
    ensures After(events).loops[n].done == n && n !in After(events).closed && !After(events).panicked
  {
    hide Inv;
    assert Init(events + [By(n, Close)]) == events;
    LifecycleSafe(events);
    OwnChannel(After(events), n);
    InvNoPanic(After(events));
  }
}
