/** The engine's run lifecycle: control calls and run loops interleaved at the grain of the engine's
    mutex. Each accepted start gives its run a number, which also names its done channel. */
module Lifecycle {
  import opened Basics

  datatype EngineState = Idle | Starting | Running | Stopping | Stopped | Failed

  /** Where a run loop stands. */
  datatype Point =
    | Building              // groups not built yet
    | Preparing             // consumers starting, then warmup, up to the last look at the context
    | Ready                 // that look found the run not cancelled
    | ErrorSet              // setError has run, the deferred block has not
    | Abandoned             // cancelled before the measurement
    | Measuring
    | Draining
    | Captured              // snapshots taken
    | Judged                // verdict stored
    | Closing(done: nat)    // the deferred block has released the lock and will close this channel

  datatype Verdict = Verdict(run: nat, source: Option<nat>, passed: bool)

  datatype Engine = Engine(
    state: EngineState,
    runs: nat,                     // accepted starts
    loops: map<nat, Point>,        // run loops that have not returned
    timed: set<nat>,               // runs with a configured duration
    asked: set<nat>,               // runs whose cancel function a shutdown has taken
    cancelled: set<nat>,
    runDone: Option<nat>,
    snapshots: Option<nat>,        // the run whose loop took them
    verdict: Option<Verdict>,
    closed: set<nat>,
    panicked: bool)                // a channel was closed twice

  const BOOT := Engine(Idle, 0, map[], {}, {}, {}, None, None, None, {}, false)

  datatype Step =
    Build | SetError | Abandon | Clear | Measure | Finish | Capture | Judge(passed: bool) | Defer | Close

  /** `Ask` is a shutdown's first stretch under the mutex; its cancel comes later, after the unlock. */
  datatype Event = Start(timed: bool) | Stop | Ask | Cancel(n: nat) | By(n: nat, step: Step)

  /** StartRunFromConfig accepts in these states only. */
  predicate Accepts(e: Engine) { e.state.Idle? || e.state.Stopped? || e.state.Failed? }

  /** StopRun cancels, and GracefulShutdown cancels and waits, in these states only. */
  predicate Stoppable(e: Engine) { e.state.Starting? || e.state.Running? }

  predicate CanStep(e: Engine, n: nat, step: Step) {
    n in e.loops &&
    var at := e.loops[n];
    match step
    case Build => at.Building?
    case SetError => at.Preparing?
    case Abandon => at.Preparing? && n in e.cancelled
    case Clear => at.Preparing? && n !in e.cancelled
    case Measure => at.Ready?
    case Finish => at.Measuring? && (n in e.timed || n in e.cancelled)
    case Capture => at.Draining?
    case Judge(_) => at.Captured?
    case Defer => at.ErrorSet? || at.Abandoned? || at.Judged?
    case Close => at.Closing?
  }

  predicate Enabled(e: Engine, ev: Event) {
    match ev
    case Start(_) => true
    case Stop => true
    case Ask => true
    case Cancel(n) => n in e.asked
    case By(n, step) => CanStep(e, n, step)
  }

  function Moved(e: Engine, n: nat, at: Point): Engine { e.(loops := e.loops[n := at]) }

  function LoopStep(e: Engine, n: nat, step: Step): Engine
    requires CanStep(e, n, step)
  {
    match step
    case Build => Moved(e, n, Preparing)
    case SetError => Moved(e, n, ErrorSet).(state := Failed)
    case Abandon => Moved(e, n, Abandoned)
    case Clear => Moved(e, n, Ready)
    case Measure => Moved(e, n, Measuring).(state := Running)
    case Finish => Moved(e, n, Draining).(state := Stopping)
    case Capture => Moved(e, n, Captured).(snapshots := Some(n))
    case Judge(passed) => Moved(e, n, Judged).(verdict := Some(Verdict(n, e.snapshots, passed)))
    case Defer =>
      var left := e.(state := if e.state.Failed? then Failed else Stopped);
      if e.runDone.Some? then Moved(left, n, Closing(e.runDone.value)) else left.(loops := e.loops - {n})
    case Close =>
      var d := e.loops[n].done;
      e.(loops := e.loops - {n}, closed := e.closed + {d}, panicked := e.panicked || d in e.closed)
  }

  function Apply(e: Engine, ev: Event): Engine
    requires Enabled(e, ev)
  {
    match ev
    case Start(timed) =>
      if !Accepts(e) then e
      else
        e.(state := Starting, runs := e.runs + 1, loops := e.loops[e.runs := Building],
           timed := if timed then e.timed + {e.runs} else e.timed,
           runDone := Some(e.runs), snapshots := None, verdict := None)
    case Stop =>
      if Stoppable(e) && e.runs > 0 then e.(cancelled := e.cancelled + {e.runs - 1}) else e
    case Ask =>
      if Stoppable(e) && e.runs > 0 then e.(asked := e.asked + {e.runs - 1}) else e
    case Cancel(n) => e.(cancelled := e.cancelled + {n})
    case By(n, step) => LoopStep(e, n, step)
  }

  // ---- safety --------------------------------------------------------------

  /** Still able to touch the engine: everything before the deferred block has released the lock. */
  predicate Live(e: Engine, n: nat) { n in e.loops && !e.loops[n].Closing? }

  ghost predicate OneLoop(e: Engine) {
    forall m, n | Live(e, m) && Live(e, n) :: m == n
  }

  /** A start would be accepted although a loop that has set an error has not run its deferred block. */
  ghost predicate ErrorWindow(e: Engine) {
    Accepts(e) && exists n :: n in e.loops && e.loops[n].ErrorSet?
  }

  ghost predicate Hasty(e: Engine, ev: Event) { ev.Start? && ErrorWindow(e) }

  /** The engine state that goes with each place of the live loop. */
  predicate Fits(state: EngineState, at: Point) {
    match at
    case Building => state.Starting?
    case Preparing => state.Starting?
    case Ready => state.Starting?
    case ErrorSet => state.Failed?
    case Abandoned => state.Starting?
    case Measuring => state.Running?
    case Draining => state.Stopping?
    case Captured => state.Stopping?
    case Judged => state.Stopping?
    case Closing(_) => true
  }

  ghost predicate Inv(e: Engine) {
    && (forall n :: n in e.loops || n in e.closed ==> n < e.runs)
    && (forall n: nat | n < e.runs :: n in e.loops <==> n !in e.closed)
    && (forall n | n in e.loops && e.loops[n].Closing? :: e.loops[n].done == n)
    && (forall n | Live(e, n) ::
          n == e.runs - 1 && Fits(e.state, e.loops[n]) && (e.loops[n].Judged? || e.verdict.None?))
    && ((forall n | n in e.loops :: e.loops[n].Closing?) ==> Accepts(e))
    && e.runDone == (if e.runs == 0 then None else Some(e.runs - 1))
    && (e.snapshots.Some? ==> e.snapshots.value == e.runs - 1)
    && (forall n | n in e.loops && e.loops[n].Captured? :: e.snapshots == Some(n))
    && (e.verdict.Some? ==> e.verdict.value.run == e.runs - 1 && e.verdict.value.source == Some(e.runs - 1))
    && (forall n | n in e.asked || n in e.cancelled :: n < e.runs)
    && !e.panicked
  }

  lemma StartKeeps(e: Engine, timed: bool)
    requires Inv(e) && !ErrorWindow(e)
    ensures Inv(Apply(e, Start(timed)))
  {
    if Accepts(e) {
      forall n | n in e.loops ensures e.loops[n].Closing? {
        if Live(e, n) { assert Fits(e.state, e.loops[n]); }
      }
    }
  }

  /** What a step of the live loop has to respect. */
  lemma MoveKeeps(e: Engine, n: nat, at: Point, state: EngineState, snapshots: Option<nat>, verdict: Option<Verdict>)
    requires Inv(e) && Live(e, n) && !at.Closing? && Fits(state, at)
    requires snapshots == e.snapshots || snapshots == Some(n)
    requires at.Captured? ==> snapshots == Some(n)
    requires if at.Judged? then verdict.Some? && verdict.value.run == n && verdict.value.source == Some(n)
             else verdict.None?
    ensures Inv(e.(loops := e.loops[n := at], state := state, snapshots := snapshots, verdict := verdict))
  {
    assert n in e.loops[n := at] && !e.loops[n := at][n].Closing?;
  }

  lemma WorkKeeps(e: Engine, n: nat, step: Step)
    requires Inv(e) && CanStep(e, n, step) && !step.Defer? && !step.Close?
    ensures Inv(LoopStep(e, n, step))
  {
    assert Live(e, n) && Fits(e.state, e.loops[n]);
    var after := LoopStep(e, n, step);
    MoveKeeps(e, n, after.loops[n], after.state, after.snapshots, after.verdict);
    assert after == e.(loops := after.loops, state := after.state, snapshots := after.snapshots,
                       verdict := after.verdict);
    assert after.loops == e.loops[n := after.loops[n]];
  }

  lemma DeferKeeps(e: Engine, n: nat)
    requires Inv(e) && CanStep(e, n, Defer)
    ensures Inv(LoopStep(e, n, Defer))
  {
    assert Live(e, n);
  }

  lemma CloseKeeps(e: Engine, n: nat)
    requires Inv(e) && CanStep(e, n, Close)
    ensures Inv(LoopStep(e, n, Close))
  {
  }

  lemma StepKeeps(e: Engine, ev: Event)
    requires Inv(e) && Enabled(e, ev) && !Hasty(e, ev)
    ensures Inv(Apply(e, ev))
  {
    match ev
    case Start(timed) => StartKeeps(e, timed);
    case Stop =>
    case Ask =>
    case Cancel(_) =>
    case By(n, step) => LoopKeeps(e, n, step);
  }

  // ---- whole runs ----------------------------------------------------------

  predicate Runs(events: seq<Event>)
    decreases |events|, 0
  {
    events != [] ==> Runs(Init(events)) && Enabled(After(Init(events)), Last(events))
  }

  function After(events: seq<Event>): Engine
    requires Runs(events)
    decreases |events|, 1
  {
    if events == [] then BOOT else Apply(After(Init(events)), Last(events))
  }

  /** At no point of the run was a start accepted inside the error window. */
  ghost predicate NeverHasty(events: seq<Event>)
    decreases |events|
  {
    Runs(events) && (events == [] || (NeverHasty(Init(events)) && !Hasty(After(Init(events)), Last(events))))
  }

  /** At every point of the run at most one loop was live. */
  ghost predicate AlwaysOneLoop(events: seq<Event>)
    decreases |events|
  {
    Runs(events) && OneLoop(After(events)) && (events == [] || AlwaysOneLoop(Init(events)))
  }

  /** Over every interleaving that is never hasty: one live loop at most, each done channel closed
      by its own loop and once, none of a finished run left open, and a stored verdict computed by
      the latest run's loop from the latest run's snapshots. */
  lemma {:induction false} LifecycleSafe(events: seq<Event>)
    requires NeverHasty(events)
    ensures Inv(After(events)) && AlwaysOneLoop(events)
  {
    if events != [] {
      LifecycleSafe(Init(events));
      StepKeeps(After(Init(events)), Last(events));
    }
    InvOneLoop(After(events));
  }

  lemma InvOneLoop(e: Engine)
    requires Inv(e)
    ensures OneLoop(e)
  {
  }

  ghost predicate Numbered(e: Engine) { forall n | n in e.loops :: n < e.runs }

  lemma StepKeepsNumbers(e: Engine, ev: Event)
    requires Numbered(e) && Enabled(e, ev)
    ensures Numbered(Apply(e, ev))
  {
  }

  /** Holds with or without hasty starts. */
  lemma {:induction false} LoopsAreNumbered(events: seq<Event>)
    requires Runs(events)
    ensures Numbered(After(events))
  {
    hide Numbered, Apply;
    if events == [] {
      NoLoops();
    } else {
      LoopsAreNumbered(Init(events));
      StepKeepsNumbers(After(Init(events)), Last(events));
    }
  }

  lemma NoLoops()
    ensures Numbered(BOOT)
  {
  }

  /** The guard is exact: a run keeps to one live loop if and only if it is never hasty. */
  lemma {:induction false} OneLoopExactly(events: seq<Event>)
    requires Runs(events)
    ensures AlwaysOneLoop(events) <==> NeverHasty(events)
  {
    if events != [] {
      OneLoopExactly(Init(events));
      if NeverHasty(events) { LifecycleSafe(events); }
      if AlwaysOneLoop(events) && Hasty(After(Init(events)), Last(events)) {
        var e := After(Init(events));
        LoopsAreNumbered(Init(events));
        var n :| n in e.loops && e.loops[n].ErrorSet?;
        assert Live(After(events), n) && Live(After(events), e.runs);
      }
    } else {
      LifecycleSafe(events);
    }
  }

  lemma RunsSnoc(events: seq<Event>, ev: Event)
    requires Runs(events) && Enabled(After(events), ev)
    ensures Runs(events + [ev]) && After(events + [ev]) == Apply(After(events), ev)
  {
    hide Enabled, Apply;
    assert Init(events + [ev]) == events;
  }

  /** Before the first start the engine is idle. */
  lemma {:induction false} IdleAtFirst(events: seq<Event>)
    requires Runs(events)
    ensures NotBegun(After(events))
  {
    hide NotBegun, Apply, Enabled;
    if events == [] {
      BootNotBegun();
    } else {
      IdleAtFirst(Init(events));
      StepNotBegun(After(Init(events)), Last(events));
    }
  }

  predicate NotBegun(e: Engine) { e.runs == 0 ==> e.state.Idle? && e.loops == map[] }

  lemma BootNotBegun()
    ensures NotBegun(BOOT)
  {
  }

  lemma StepNotBegun(e: Engine, ev: Event)
    requires NotBegun(e) && Enabled(e, ev)
    ensures NotBegun(Apply(e, ev))
  {
  }

  lemma {:induction false} CalmPrefix(events: seq<Event>, n: nat)
    requires n <= |events| && NeverHasty(events)
    ensures NeverHasty(events[..n])
  {
    hide Hasty, After, Runs;
    if n < |events| {
      CalmPrefix(Init(events), n);
      assert Init(events)[..n] == events[..n];
    } else {
      assert events[..n] == events;
    }
  }

  lemma JudgeStep(e: Engine, ev: Event, n: nat, passed: bool)
    requires Inv(e) && Enabled(e, ev) && Apply(e, ev).runs == n + 1
    requires ev == By(n, Judge(passed)) || (e.runs == n + 1 ==> e.verdict == Some(Verdict(n, Some(n), passed)))
    requires ev == By(n, Judge(passed)) || n < e.runs
    ensures Apply(e, ev).verdict == Some(Verdict(n, Some(n), passed))
  {
    if ev.By? && ev.step.Judge? { assert Live(e, ev.n); }
  }

  lemma JudgesAreNumbered(e: Engine, ev: Event, n: nat, passed: bool)
    requires Numbered(e) && Enabled(e, ev) && ev == By(n, Judge(passed))
    ensures n < e.runs
  {
  }

  lemma RunsGrow(e: Engine, ev: Event)
    requires Enabled(e, ev)
    ensures Apply(e, ev).runs >= e.runs
  {
  }

  lemma {:induction false} JudgedBefore(events: seq<Event>, n: nat, passed: bool)
    requires Runs(events) && By(n, Judge(passed)) in events
    ensures n < After(events).runs
  {
    hide Apply, Enabled, Numbered;
    var e, ev := After(Init(events)), Last(events);
    RunsGrow(e, ev);
    if ev == By(n, Judge(passed)) {
      LoopsAreNumbered(Init(events));
      JudgesAreNumbered(e, ev, n, passed);
    } else {
      JudgedBefore(Init(events), n, passed);
    }
  }

  /** Until the next start the engine holds the verdict its latest run's loop gave. */
  lemma {:induction false} JudgedStands(events: seq<Event>, n: nat, passed: bool)
    requires NeverHasty(events) && By(n, Judge(passed)) in events && After(events).runs == n + 1
    ensures After(events).verdict == Some(Verdict(n, Some(n), passed))
  {
    hide Apply, Enabled, Inv, Hasty;
    var e, ev := After(Init(events)), Last(events);
    LifecycleSafe(Init(events));
    if ev != By(n, Judge(passed)) {
      JudgedBefore(Init(events), n, passed);
      if e.runs == n + 1 { JudgedStands(Init(events), n, passed); }
    }
    JudgeStep(e, ev, n, passed);
  }

  /** One step further. */
  lemma Extended(events: seq<Event>, ev: Event) returns (longer: seq<Event>)
    requires Runs(events) && Enabled(After(events), ev)
    ensures Runs(longer) && After(longer) == Apply(After(events), ev)
  {
    RunsSnoc(events, ev);
    longer := events + [ev];
  }

  /** A hasty start can close one channel twice: the failed loop's deferred block takes the new
      run's channel, closes it, and the new run's loop closes it again. */
  lemma HastyStartClosesTwice() returns (events: seq<Event>)
    ensures Runs(events) && After(events).panicked
  {
    hide After, Runs;
    events := Booted();
    events := Extended(events, Start(true));
    events := Extended(events, By(0, Build));
    events := Extended(events, By(0, SetError));
    events := Extended(events, Start(true));
    events := Extended(events, By(0, Defer));
    events := Extended(events, By(0, Close));
    events := Extended(events, By(1, Build));
    events := Extended(events, By(1, SetError));
    events := Extended(events, By(1, Defer));
    events := Extended(events, By(1, Close));
  }

  lemma Booted() returns (events: seq<Event>)
    ensures Runs(events) && NeverHasty(events) && After(events) == BOOT
  {
    events := [];
  }

  // ---- without a further start ---------------------------------------------

  /** Anything but a start: steps of run loops, stops and shutdowns. */
  predicate Continues(e: Engine, events: seq<Event>)
    decreases |events|, 0
  {
    events != [] ==>
      Continues(e, Init(events)) && !Last(events).Start? && Enabled(Later(e, Init(events)), Last(events))
  }

  function Later(e: Engine, events: seq<Event>): Engine
    requires Continues(e, events)
    decreases |events|, 1
  {
    if events == [] then e else Apply(Later(e, Init(events)), Last(events))
  }

  lemma ContinuesSnoc(e: Engine, events: seq<Event>, ev: Event) returns (longer: seq<Event>)
    requires Continues(e, events) && !ev.Start? && Enabled(Later(e, events), ev)
    ensures Continues(e, longer) && Later(e, longer) == Apply(Later(e, events), ev) && longer == events + [ev]
  {
    hide Enabled, Apply;
    longer := events + [ev];
    assert Init(longer) == events;
  }

  lemma NoEvents(e: Engine)
    ensures Continues(e, []) && Later(e, []) == e
  {
  }

  lemma LoopKeeps(e: Engine, n: nat, step: Step)
    requires Inv(e) && CanStep(e, n, step)
    ensures Inv(LoopStep(e, n, step))
  {
    hide Inv, LoopStep;
    if step.Defer? {
      DeferKeeps(e, n);
    } else if step.Close? {
      CloseKeeps(e, n);
    } else {
      WorkKeeps(e, n, step);
    }
  }

  lemma {:induction false} LaterKeeps(e: Engine, events: seq<Event>)
    requires Inv(e) && Continues(e, events)
    ensures Inv(Later(e, events))
  {
    hide Inv, Apply, Enabled;
    if events != [] {
      LaterKeeps(e, Init(events));
      StepKeeps(Later(e, Init(events)), Last(events));
    }
  }

  // ---- do the run loops return? --------------------------------------------

  /** A measurement, begun or about to begin, that nothing ends: no duration and not cancelled. */
  predicate Endless(e: Engine, n: nat) {
    n in e.loops && (e.loops[n].Ready? || e.loops[n].Measuring?) && n !in e.timed && n !in e.cancelled
  }

  ghost predicate NoneEndless(e: Engine) { forall n | n in e.loops :: !Endless(e, n) }

  predicate OnlySteps(events: seq<Event>) { forall i | 0 <= i < |events| :: events[i].By? }

  /** How many steps a loop has ahead of it, on its shortest way out. */
  function Rank(at: Point): nat {
    match at
    case Building => 4
    case Preparing => 3
    case Ready => 7
    case Measuring => 6
    case Draining => 5
    case Captured => 4
    case ErrorSet => 2
    case Abandoned => 2
    case Judged => 2
    case Closing(_) => 1
  }

  function WayOut(at: Point): Step {
    match at
    case Building => Build
    case Preparing => SetError
    case Ready => Measure
    case Measuring => Finish
    case Draining => Capture
    case Captured => Judge(false)
    case Closing(_) => Close
    case _ => Defer
  }

  lemma StepOut(e: Engine, n: nat)
    requires n in e.loops && !Endless(e, n)
    ensures CanStep(e, n, WayOut(e.loops[n]))
    ensures
      var after := LoopStep(e, n, WayOut(e.loops[n]));
      && after.timed == e.timed && after.cancelled == e.cancelled
      && (after.loops == e.loops - {n} ||
          (n in after.loops && after.loops == e.loops[n := after.loops[n]] && !Endless(after, n) &&
           Rank(after.loops[n]) < Rank(e.loops[n])))
  {
  }

  lemma {:induction false} FinishOne(e: Engine, events: seq<Event>, n: nat) returns (longer: seq<Event>)
    requires Continues(e, events) && OnlySteps(events)
    requires n in Later(e, events).loops && !Endless(Later(e, events), n)
    ensures Continues(e, longer) && OnlySteps(longer)
    ensures
      var before, after := Later(e, events), Later(e, longer);
      after.loops == before.loops - {n} && after.timed == before.timed && after.cancelled == before.cancelled
    decreases Rank(Later(e, events).loops[n])
  {
    hide Continues, Later, CanStep, LoopStep, WayOut, Rank, Endless;
    var now := Later(e, events);
    StepOut(now, n);
    longer := ContinuesSnoc(e, events, By(n, WayOut(now.loops[n])));
    if n in Later(e, longer).loops {
      longer := FinishOne(e, longer, n);
    }
  }

  lemma {:induction false} FinishAll(e: Engine, events: seq<Event>) returns (longer: seq<Event>)
    requires Continues(e, events) && OnlySteps(events) && NoneEndless(Later(e, events))
    ensures Continues(e, longer) && OnlySteps(longer) && Later(e, longer).loops == map[]
    decreases |Later(e, events).loops|
  {
    hide Continues, Later, OnlySteps;
    var loops := Later(e, events).loops;
    longer := events;
    if n :| n in loops {
      longer := FinishOne(e, events, n);
      assert (loops - {n}).Keys == loops.Keys - {n};
      longer := FinishAll(e, longer);
    }
  }

  lemma StepKeepsEndless(e: Engine, ev: Event, n: nat)
    requires Endless(e, n) && ev.By? && Enabled(e, ev)
    ensures Endless(Apply(e, ev), n)
  {
  }

  lemma {:induction false} StaysEndless(e: Engine, events: seq<Event>, n: nat)
    requires Endless(e, n) && Continues(e, events) && OnlySteps(events)
    ensures Endless(Later(e, events), n)
  {
    hide Endless, Apply, Enabled;
    if events != [] {
      StaysEndless(e, Init(events), n);
      StepKeepsEndless(Later(e, Init(events)), Last(events), n);
    }
  }

  /** Left to themselves the run loops can all return if and only if none is endless. */
  lemma LoopsFinishExactly(e: Engine)
    ensures (exists events :: Continues(e, events) && OnlySteps(events) && Later(e, events).loops == map[]) <==>
            NoneEndless(e)
  {
    hide Continues, Later, OnlySteps, Endless;
    if NoneEndless(e) {
      NoEvents(e);
      NoSteps();
      var events := FinishAll(e, []);
    } else {
      var n :| n in e.loops && Endless(e, n);
      forall events | Continues(e, events) && OnlySteps(events) ensures Later(e, events).loops != map[] {
        StaysEndless(e, events, n);
        EndlessIsLeft(Later(e, events), n);
      }
    }
  }

  lemma NoSteps()
    ensures OnlySteps([])
  {
  }

  lemma EndlessIsLeft(e: Engine, n: nat)
    requires Endless(e, n)
    ensures e.loops != map[]
  {
  }

  // ---- which channels are closed, and how often ----------------------------

  /** Every accepted start left a loop that has not returned or a channel closed for the first
      time, unless a channel was closed twice. */
  ghost predicate Counted(e: Engine) {
    && Numbered(e) && (forall d | d in e.closed :: d < e.runs)
    && (forall n | n in e.loops && e.loops[n].Closing? :: e.loops[n].done < e.runs)
    && e.runDone == (if e.runs == 0 then None else Some(e.runs - 1))
    && Tally(e.closed, e.loops.Keys, e.runs, e.panicked)
  }

  ghost predicate Tally(closed: set<nat>, open: set<nat>, runs: nat, panicked: bool) {
    |closed| + |open| <= runs && (panicked <==> |closed| + |open| < runs)
  }

  lemma CloseTally(closed: set<nat>, open: set<nat>, runs: nat, panicked: bool, n: nat, d: nat)
    requires Tally(closed, open, runs, panicked) && n in open
    ensures Tally(closed + {d}, open - {n}, runs, panicked || d in closed)
  {
    if d in closed { assert closed + {d} == closed; }
  }

  lemma StartKeepsCount(e: Engine, timed: bool)
    requires Counted(e)
    ensures Counted(Apply(e, Start(timed)))
  {
    if Accepts(e) {
      assert e.loops[e.runs := Building].Keys == e.loops.Keys + {e.runs};
    }
  }

  lemma CloseKeepsCount(e: Engine, n: nat)
    requires Counted(e) && CanStep(e, n, Close)
    ensures Counted(LoopStep(e, n, Close))
  {
    hide Tally;
    CloseTally(e.closed, e.loops.Keys, e.runs, e.panicked, n, e.loops[n].done);
    assert (e.loops - {n}).Keys == e.loops.Keys - {n};
  }

  lemma MoveKeepsCount(e: Engine, n: nat, at: Point, after: Engine)
    requires Counted(e) && n in e.loops && (at.Closing? ==> at.done < e.runs)
    requires after.loops == e.loops[n := at] && after.closed == e.closed && after.panicked == e.panicked
    requires after.runs == e.runs && after.runDone == e.runDone
    ensures Counted(after)
  {
    hide Tally;
    assert after.loops.Keys == e.loops.Keys;
  }

  lemma LoopKeepsCount(e: Engine, n: nat, step: Step)
    requires Counted(e) && CanStep(e, n, step)
    ensures Counted(LoopStep(e, n, step))
  {
    if step.Close? {
      CloseKeepsCount(e, n);
    } else {
      var after := LoopStep(e, n, step);
      assert e.runs > 0;
      MoveKeepsCount(e, n, after.loops[n], after);
    }
  }

  lemma {:induction false} RunsCount(events: seq<Event>)
    requires Runs(events)
    ensures Counted(After(events))
  {
    if events != [] {
      hide Counted, Apply;
      RunsCount(Init(events));
      StepKeepsCount(After(Init(events)), Last(events));
    }
  }

  lemma StepKeepsCount(e: Engine, ev: Event)
    requires Counted(e) && Enabled(e, ev)
    ensures Counted(Apply(e, ev))
  {
    match ev
    case Start(timed) => StartKeepsCount(e, timed);
    case Stop =>
    case Ask =>
    case Cancel(_) =>
    case By(n, step) => LoopKeepsCount(e, n, step);
  }

  /** A channel nobody has closed, holds or can take any more: a deferred block takes the latest. */
  ghost predicate Orphan(e: Engine, d: nat) {
    && d + 1 < e.runs && d !in e.closed
    && (forall n | n in e.loops && e.loops[n].Closing? :: e.loops[n].done != d)
  }

  lemma StepKeepsOrphan(e: Engine, ev: Event, d: nat)
    requires Counted(e) && Orphan(e, d) && Enabled(e, ev)
    ensures Orphan(Apply(e, ev), d)
  {
  }

  lemma HasteOrphans(e: Engine, ev: Event)
    requires Inv(e) && Hasty(e, ev)
    ensures e.runs > 0 && Orphan(Apply(e, ev), e.runs - 1)
  {
    var n :| n in e.loops && e.loops[n].ErrorSet?;
    assert Live(e, n);
  }

  lemma {:induction false} HastyRunOrphans(events: seq<Event>) returns (d: nat)
    requires Runs(events) && !NeverHasty(events)
    ensures Orphan(After(events), d)
  {
    hide Inv, Counted, Orphan, Hasty, Apply;
    var e := After(Init(events));
    if NeverHasty(Init(events)) {
      LifecycleSafe(Init(events));
      HasteOrphans(e, Last(events));
      d := e.runs - 1;
    } else {
      d := HastyRunOrphans(Init(events));
      RunsCount(Init(events));
      StepKeepsOrphan(e, Last(events), d);
    }
  }

  lemma {:induction false} LaterKeepsOrphan(e: Engine, events: seq<Event>, d: nat)
    requires Counted(e) && Orphan(e, d) && Continues(e, events)
    ensures Orphan(Later(e, events), d)
  {
    if events != [] {
      hide Counted, Orphan, Apply, Enabled;
      LaterKeepsOrphan(e, Init(events), d);
      LaterKeepsCount(e, Init(events));
      StepKeepsOrphan(Later(e, Init(events)), Last(events), d);
    }
  }

  lemma {:induction false} LaterKeepsCount(e: Engine, events: seq<Event>)
    requires Counted(e) && Continues(e, events)
    ensures Counted(Later(e, events))
  {
    if events != [] {
      hide Counted, Apply, Enabled;
      LaterKeepsCount(e, Init(events));
      StepKeepsCount(Later(e, Init(events)), Last(events));
    }
  }

  ghost predicate AllClosed(e: Engine) { forall d: nat | d < e.runs :: d in e.closed }

  lemma AllClosedExactly(e: Engine)
    requires Counted(e) && e.loops == map[]
    ensures AllClosed(e) <==> !e.panicked
  {
    SpanSize(-1, e.runs - 1);
    assert e.closed <= Span(-1, e.runs - 1);
    if AllClosed(e) {
      assert e.closed == Span(-1, e.runs - 1);
    } else {
      var d: nat :| d < e.runs && d !in e.closed;
      assert d in Span(-1, e.runs - 1) - e.closed;
      assert Span(-1, e.runs - 1) == e.closed + (Span(-1, e.runs - 1) - e.closed);
    }
  }

  /** However the run loops return after any run, some channel is closed twice if and only if a
      start was hasty, and every channel is closed if and only if none was. */
  lemma ClosedOnceExactly(events: seq<Event>, more: seq<Event>)
    requires Runs(events) && Continues(After(events), more) && Later(After(events), more).loops == map[]
    ensures Later(After(events), more).panicked <==> !NeverHasty(events)
    ensures AllClosed(Later(After(events), more)) <==> NeverHasty(events)
  {
    hide Counted, Continues, Later, Runs, NeverHasty;
    var e := After(events);
    RunsCount(events);
    LaterKeepsCount(e, more);
    AllClosedExactly(Later(e, more));
    if NeverHasty(events) {
      LifecycleSafe(events);
      LaterKeeps(e, more);
    } else {
      var d := HastyRunOrphans(events);
      LaterKeepsOrphan(e, more, d);
    }
  }

  /** A channel has been closed twice, or will be on some course of events without a start. */
  ghost predicate ClosesTwice(e: Engine) {
    exists more :: Continues(e, more) && Later(e, more).panicked
  }

  /** So a double close is behind or ahead only after a hasty start, and, with no measurement left
      endless, always after one. */
  lemma ClosedTwiceExactly(events: seq<Event>)
    requires Runs(events)
    ensures ClosesTwice(After(events)) ==> !NeverHasty(events)
    ensures NoneEndless(After(events)) ==> (ClosesTwice(After(events)) <==> !NeverHasty(events))
  {
    hide Inv, Continues, Later, Runs, NeverHasty, NoneEndless;
    var e := After(events);
    if NeverHasty(events) {
      LifecycleSafe(events);
      forall more | Continues(e, more) ensures !Later(e, more).panicked {
        LaterKeeps(e, more);
        InvNoPanic(Later(e, more));
      }
    } else if NoneEndless(e) {
      NoEvents(e);
      NoSteps();
      var more := FinishAll(e, []);
      ClosedOnceExactly(events, more);
    }
  }

  /** A hasty start's loop that measures without end while the failed loop's deferred block has made
      the engine look stopped: no stop reaches it any more. */
  ghost predicate OutOfReach(e: Engine) {
    && e.state.Stopped? && e.runs == 2 && e.runDone == Some(1) && e.timed == {0} && e.asked == e.cancelled == {}
    && e.loops.Keys <= {0, 1} && 1 in e.loops && e.loops[1].Measuring?
    && (0 in e.loops ==> e.loops[0] == Closing(1)) && e.closed == (if 0 in e.loops then {} else {1}) && !e.panicked
  }

  lemma StepKeepsOutOfReach(e: Engine, ev: Event)
    requires OutOfReach(e) && Enabled(e, ev) && !ev.Start?
    ensures OutOfReach(Apply(e, ev))
  {
  }

  lemma {:induction false} StaysOutOfReach(e: Engine, more: seq<Event>)
    requires OutOfReach(e) && Continues(e, more)
    ensures OutOfReach(Later(e, more))
  {
    hide OutOfReach, Apply, Enabled;
    if more != [] {
      StaysOutOfReach(e, Init(more));
      StepKeepsOutOfReach(Later(e, Init(more)), Last(more));
    }
  }

  /** The condition on endless measurements is needed: a hasty start without a double close. */
  lemma EndlessNeverClosesTwice() returns (events: seq<Event>)
    ensures Runs(events) && !NeverHasty(events) && !NoneEndless(After(events)) && !ClosesTwice(After(events))
  {
    hide After, Runs, Continues, Later;
    events := Booted();
    events := Extended(events, Start(true));
    events := Extended(events, By(0, Build));
    events := Extended(events, By(0, SetError));
    events := Extended(events, Start(false));
    events := Extended(events, By(1, Build));
    events := Extended(events, By(1, Clear));
    events := Extended(events, By(1, Measure));
    events := Extended(events, By(0, Defer));
    var e := After(events);
    assert Endless(e, 1) && OutOfReach(e);
    forall more | Continues(e, more) ensures !Later(e, more).panicked { StaysOutOfReach(e, more); }
    assert 0 in e.loops && e.loops[0] == Closing(1);
    if NeverHasty(events) { LifecycleSafe(events); }
  }

  lemma InvNoPanic(e: Engine)
    requires Inv(e)
    ensures !e.panicked
  {
  }

  // ---- what a shutdown reports ---------------------------------------------

  /** GracefulShutdown's answer, read once it has stopped waiting. */
  predicate Answer(e: Engine) { e.verdict.Some? && e.verdict.value.passed }

  /** On a path that can still store a verdict: a run cancelled before its last look at the context
      never gets there. */
  predicate Ahead(e: Engine, n: nat) {
    n in e.loops &&
    match e.loops[n]
    case Building => n !in e.cancelled
    case Preparing => n !in e.cancelled
    case Ready => true
    case Measuring => true
    case Draining => true
    case Captured => true
    case _ => false
  }

  ghost predicate CanJudge(e: Engine) { exists n :: Ahead(e, n) }

  /** Whatever happens short of a new start, the answer stays. */
  ghost predicate Final(e: Engine) {
    forall events :: Continues(e, events) ==> Answer(Later(e, events)) == Answer(e)
  }

  lemma StepKeepsAnswer(e: Engine, ev: Event)
    requires !CanJudge(e) && !ev.Start? && Enabled(e, ev)
    ensures Apply(e, ev).verdict == e.verdict && !CanJudge(Apply(e, ev))
  {
    var after := Apply(e, ev);
    if ev.By? { assert !Ahead(e, ev.n); }
    forall n ensures !Ahead(after, n) {
      assert !Ahead(e, n);
    }
  }

  lemma {:induction false} LaterKeepsAnswer(e: Engine, events: seq<Event>)
    requires !CanJudge(e) && Continues(e, events)
    ensures Later(e, events).verdict == e.verdict && !CanJudge(Later(e, events))
  {
    hide CanJudge, Apply, Enabled;
    if events != [] {
      LaterKeepsAnswer(e, Init(events));
      StepKeepsAnswer(Later(e, Init(events)), Last(events));
    }
  }

  /** The next event on the way to a pass: a measurement without a duration is stopped first. */
  function Onward(e: Engine, n: nat): Event
    requires n in e.loops
  {
    match e.loops[n]
    case Building => By(n, Build)
    case Preparing => By(n, Clear)
    case Ready => By(n, Measure)
    case Measuring => if n in e.timed || n in e.cancelled then By(n, Finish) else Stop
    case Draining => By(n, Capture)
    case _ => By(n, Judge(true))
  }

  function Onwards(e: Engine, n: nat): nat
    requires n in e.loops
  {
    match e.loops[n]
    case Building => 7
    case Preparing => 6
    case Ready => 5
    case Measuring => if n in e.timed || n in e.cancelled then 3 else 4
    case Draining => 2
    case _ => 1
  }

  lemma StepOnward(e: Engine, n: nat)
    requires Inv(e) && Ahead(e, n)
    ensures Enabled(e, Onward(e, n)) && !Onward(e, n).Start?
    ensures
      var after := Apply(e, Onward(e, n));
      Answer(after) || (Ahead(after, n) && Onwards(after, n) < Onwards(e, n))
  {
    assert Live(e, n) && Fits(e.state, e.loops[n]);
  }

  /** A loop ahead of its verdict can still pass. */
  lemma {:induction false} CanPass(e: Engine, events: seq<Event>, n: nat) returns (longer: seq<Event>)
    requires Inv(e) && Continues(e, events) && Ahead(Later(e, events), n)
    ensures Continues(e, longer) && Answer(Later(e, longer))
    decreases Onwards(Later(e, events), n)
  {
    hide Inv, Continues, Later, Enabled, Apply, Answer, Onward, Onwards;
    LaterKeeps(e, events);
    StepOnward(Later(e, events), n);
    longer := ContinuesSnoc(e, events, Onward(Later(e, events), n));
    if !Answer(Later(e, longer)) {
      longer := CanPass(e, longer, n);
    }
  }

  lemma AheadUndecided(e: Engine, n: nat)
    requires Inv(e) && Ahead(e, n)
    ensures !Answer(e)
  {
    assert Live(e, n);
  }

  /** The answer read at any moment, waited for, timed out or not waited for at all, is final if and
      only if no loop can still judge. */
  lemma AnswerFinalExactly(e: Engine)
    requires Inv(e)
    ensures Final(e) <==> !CanJudge(e)
  {
    hide Inv, Continues, Later, Ahead, Answer;
    if CanJudge(e) {
      var n :| Ahead(e, n);
      AheadUndecided(e, n);
      NoEvents(e);
      var events := CanPass(e, [], n);
    } else {
      forall events | Continues(e, events) ensures Answer(Later(e, events)) == Answer(e) {
        LaterKeepsAnswer(e, events);
        SameAnswer(e, Later(e, events));
      }
    }
  }

  lemma SameAnswer(e: Engine, f: Engine)
    requires e.verdict == f.verdict
    ensures Answer(e) == Answer(f)
  {
  }

  /** A shutdown that does not wait reads a final answer unless the engine is draining. */
  lemma UnwaitedAnswerExactly(e: Engine)
    requires Inv(e) && !Stoppable(e)
    ensures Final(e) <==> !exists n :: n in e.loops && (e.loops[n].Draining? || e.loops[n].Captured?)
  {
    hide Final;
    AnswerFinalExactly(e);
    forall n | Ahead(e, n) ensures e.loops[n].Draining? || e.loops[n].Captured? {
      assert Live(e, n) && Fits(e.state, e.loops[n]);
    }
    forall n | n in e.loops && (e.loops[n].Draining? || e.loops[n].Captured?) ensures Ahead(e, n) { }
  }

  /** A shutdown whose wait timed out, with its cancel made, reads a final answer if and only if the
      run it cancelled had not passed its last look at the context. */
  lemma TimedOutAnswerExactly(e: Engine)
    requires Inv(e) && Stoppable(e) && e.runs - 1 in e.cancelled
    ensures e.runs - 1 in e.loops
    ensures Final(e) <==> e.loops[e.runs - 1] in {Building, Preparing, Abandoned}
  {
    hide Final;
    AnswerFinalExactly(e);
    assert exists n :: n in e.loops && !e.loops[n].Closing?;
    assert Live(e, e.runs - 1) && Fits(e.state, e.loops[e.runs - 1]);
    forall n | Ahead(e, n) ensures n == e.runs - 1 { assert Live(e, n); }
    assert Ahead(e, e.runs - 1) <==> e.loops[e.runs - 1] in {Ready, Measuring};
  }

  /** A shutdown that has seen the latest channel closed reads a final answer. */
  lemma WaitedAnswerIsFinal(e: Engine)
    requires Inv(e) && e.runDone.Some? && e.runDone.value in e.closed
    ensures Final(e) && Accepts(e)
  {
    hide Final;
    AnswerFinalExactly(e);
    forall n | n in e.loops ensures e.loops[n].Closing? {
      assert Live(e, n) ==> n == e.runs - 1;
    }
  }

  /** But a start may come between the close and the reading, and then the answer is the new run's,
      which has none yet: "not passed", whatever the run waited for had given. */
  lemma RestartTakesAnswer(e: Engine, timed: bool)
    requires Inv(e) && e.runDone.Some? && e.runDone.value in e.closed
    ensures !Answer(Apply(e, Start(timed))) && !Final(Apply(e, Start(timed)))
  {
    hide Final;
    WaitedAnswerIsFinal(e);
    var after := Apply(e, Start(timed));
    assert !ErrorWindow(e) by {
      forall n | n in e.loops ensures e.loops[n].Closing? {
        assert Live(e, n) ==> n == e.runs - 1;
      }
    }
    StartKeeps(e, timed);
    AnswerFinalExactly(after);
    assert Ahead(after, e.runs);
  }

  /** A run whose answer is read too early: while it measures, by a shutdown that has cancelled it
      and whose wait timed out, or while it drains, by a shutdown that did not wait. The answer is
      "not passed", and the run can still pass. */
  lemma AnswerTooEarly(timedOut: bool) returns (events: seq<Event>, more: seq<Event>)
    ensures Runs(events) && NeverHasty(events) && Ask in events
    ensures Stoppable(After(events)) == timedOut && (timedOut ==> 0 in After(events).cancelled)
    ensures !Answer(After(events)) && Continues(After(events), more) && Answer(Later(After(events), more))
  {
    hide After, Runs, Continues, Later, NeverHasty, Inv;
    events := MeasuringRun();
    if timedOut {
      events := CalmlyExtended(events, Ask);
      events := CalmlyExtended(events, Cancel(0));
    } else {
      events := CalmlyExtended(events, By(0, Finish));
      events := CalmlyExtended(events, Ask);
    }
    LifecycleSafe(events);
    NoEvents(After(events));
    more := CanPass(After(events), [], 0);
  }

  lemma MeasuringRun() returns (events: seq<Event>)
    ensures Runs(events) && NeverHasty(events)
    ensures After(events) == Engine(Running, 1, map[0 := Measuring], {0}, {}, {}, Some(0), None, None, {}, false)
  {
    hide After, Runs, NeverHasty;
    events := Booted();
    events := CalmlyExtended(events, Start(true));
    events := CalmlyExtended(events, By(0, Build));
    events := CalmlyExtended(events, By(0, Clear));
    events := CalmlyExtended(events, By(0, Measure));
  }

  lemma CalmlyExtended(events: seq<Event>, ev: Event) returns (longer: seq<Event>)
    requires NeverHasty(events) && Enabled(After(events), ev) && !Hasty(After(events), ev)
    ensures NeverHasty(longer) && Runs(longer) && After(longer) == Apply(After(events), ev)
    ensures longer == events + [ev]
  {
    hide Enabled, Apply, Hasty;
    RunsSnoc(events, ev);
    longer := events + [ev];
    assert Init(longer) == events;
  }
}
