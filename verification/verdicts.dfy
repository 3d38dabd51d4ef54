/** The two verdicts on a run: the engine's, gate by gate, and the report's, check by check, and the
    reconciliation that publishes one of them. Percentages and rates are exact reals. */
module Verdicts {
  import opened Basics
  import WorkerCounters

  const EVENTS := "events"
  const CREDIT_FLOW := "credit_flow"
  const BOUNDARY_LOSS_PCT: real := 0.5

  predicate IsRpcWorker(name: string) { name == "commands" || name == "queries" }

  datatype Snapshot = Snapshot(
    sent: nat, received: nat, errors: nat, corrupted: nat, duplicated: nat, lost: nat,
    fidelityFailures: nat, eventsDropped: nat, rpcSuccess: nat, rpcTimeout: nat, rpcError: nat,
    downtime: real, p50: real, p95: real, p99: real, p999: real)

  datatype Thresholds = Thresholds(
    maxLoss: real, maxEventsLoss: real, maxDuplication: real, maxP50: real, maxP95: real, maxP99: real,
    maxP999: real, minThroughput: real, maxErrorRate: real, maxMemoryGrowth: real, maxDowntime: real,
    maxFidelity: nat)

  /** The ranges the configuration check enforces, as far as the verdicts depend on them. */
  predicate Validated(t: Thresholds) {
    && t.maxP50 > 0.0 && t.maxP95 > 0.0 && t.maxP99 > 0.0 && t.maxP999 > 0.0
    && t.maxMemoryGrowth >= 1.0
  }

  /** A finished run: the snapshots of its enabled workers and what was measured around them. */
  datatype Run = Run(
    thresholds: Thresholds,
    rates: map<string, nat>,
    seconds: real,
    workers: map<string, Snapshot>,
    baseline: nat,
    peak: nat)

  datatype Outcome = PASSED | PASSED_WITH_WARNINGS | FAILED

  function Pct(part: nat, whole: nat): real
    requires whole > 0
  {
    part as real / whole as real * 100.0
  }

  function MaxLoss(t: Thresholds, name: string): real {
    if name == EVENTS then t.maxEventsLoss else t.maxLoss
  }

  // ---- the engine's verdict ------------------------------------------------

  datatype Gate =
    | Corruption | Fidelity | EventsDropped | Loss | Duplication | P50 | P95 | P99 | P999
    | ErrorRate | Throughput | Downtime | RpcFailures

  predicate TooSlow(value: real, threshold: real) { value > 0.0 && threshold > 0.0 && value > threshold }

  predicate Fails(run: Run, name: string, s: Snapshot, gate: Gate) {
    var t := run.thresholds;
    match gate
    case Corruption => s.corrupted > 0
    case Fidelity => s.fidelityFailures > t.maxFidelity
    case EventsDropped => name == EVENTS && s.eventsDropped > 0
    case Loss =>
      s.sent > 0 && Pct(s.lost, s.sent) > MaxLoss(t, name) && Pct(s.lost, s.sent) > BOUNDARY_LOSS_PCT
    case Duplication => s.received > 0 && Pct(s.duplicated, s.received) > t.maxDuplication
    case P50 => TooSlow(s.p50, t.maxP50)
    case P95 => TooSlow(s.p95, t.maxP95)
    case P99 => TooSlow(s.p99, t.maxP99)
    case P999 => TooSlow(s.p999, t.maxP999)
    case ErrorRate => s.sent + s.received > 0 && Pct(s.errors, s.sent + s.received) > t.maxErrorRate
    case Throughput =>
      var rate := if name in run.rates then run.rates[name] else 100;
      !IsRpcWorker(name) && run.seconds > 0.0 && s.sent > 0 && rate > 0 &&
      s.sent as real / run.seconds / rate as real * 100.0 < t.minThroughput
    case Downtime =>
      run.seconds > 0.0 && s.downtime > 0.0 && s.downtime / run.seconds * 100.0 > t.maxDowntime
    case RpcFailures =>
      var total := s.rpcSuccess + s.rpcTimeout + s.rpcError;
      IsRpcWorker(name) && total > 0 && Pct(s.rpcTimeout + s.rpcError, total) > t.maxErrorRate
  }

  // ---- what each gate means, without a quotient ----------------------------

  function Rate(run: Run, name: string): nat { if name in run.rates then run.rates[name] else 100 }

  /** A part of a whole above so many per cent of it. */
  predicate MoreThan(part: real, pct: real, whole: real) { 100.0 * part > pct * whole }

  /** The same gates by products: so much of something against its allowance. */
  predicate Exceeds(run: Run, name: string, s: Snapshot, gate: Gate) {
    var t := run.thresholds;
    match gate
    case Corruption => s.corrupted != 0
    case Fidelity => s.fidelityFailures > t.maxFidelity
    case EventsDropped => name == EVENTS && s.eventsDropped != 0
    case Loss =>
      && s.sent > 0 && 200 * s.lost > s.sent
      && MoreThan(s.lost as real, if name == EVENTS then t.maxEventsLoss else t.maxLoss, s.sent as real)
    case Duplication => s.received > 0 && MoreThan(s.duplicated as real, t.maxDuplication, s.received as real)
    case P50 => s.p50 > t.maxP50
    case P95 => s.p95 > t.maxP95
    case P99 => s.p99 > t.maxP99
    case P999 => s.p999 > t.maxP999
    case ErrorRate =>
      s.sent + s.received > 0 && MoreThan(s.errors as real, t.maxErrorRate, (s.sent + s.received) as real)
    case Throughput =>
      && name !in {"commands", "queries"} && run.seconds > 0.0 && s.sent > 0 && Rate(run, name) > 0
      && 100.0 * s.sent as real < t.minThroughput * Rate(run, name) as real * run.seconds
    case Downtime => run.seconds > 0.0 && s.downtime > 0.0 && MoreThan(s.downtime, t.maxDowntime, run.seconds)
    case RpcFailures =>
      && name in {"commands", "queries"} && s.rpcSuccess + s.rpcTimeout + s.rpcError > 0
      && MoreThan((s.rpcTimeout + s.rpcError) as real, t.maxErrorRate,
                  (s.rpcSuccess + s.rpcTimeout + s.rpcError) as real)
  }

  lemma QuotientAbove(a: real, b: real, pct: real)
    requires b > 0.0
    ensures a / b * 100.0 > pct <==> 100.0 * a > pct * b
  {
    var q := a / b;
    assert a == q * b;
    if q * 100.0 > pct { Scale(q * 100.0, pct, b); } else { ScaleWeakly(q * 100.0, pct, b); }
    assert q * 100.0 * b == 100.0 * a by { Reorder(q, b); }
  }

  lemma Reorder(q: real, b: real)
    ensures q * 100.0 * b == 100.0 * (q * b)
  {
  }

  lemma Scale(x: real, y: real, b: real)
    requires x > y && b > 0.0
    ensures x * b > y * b
  {
  }

  lemma ScaleWeakly(x: real, y: real, b: real)
    requires x <= y && b > 0.0
    ensures x * b <= y * b
  {
  }

  lemma PctAbove(part: nat, whole: nat, pct: real)
    requires whole > 0
    ensures Pct(part, whole) > pct <==> MoreThan(part as real, pct, whole as real)
  {
    QuotientAbove(part as real, whole as real, pct);
  }

  lemma ThroughputBelow(sent: real, seconds: real, rate: real, pct: real)
    requires seconds > 0.0 && rate > 0.0
    ensures sent / seconds / rate * 100.0 < pct <==> 100.0 * sent < pct * rate * seconds
  {
    var x := sent / seconds;
    var q := x / rate;
    assert x == q * rate && sent == x * seconds;
    var a, b := q * 100.0, rate * seconds;
    assert b > 0.0;
    assert a * b == 100.0 * sent by { Regroup(q, rate, seconds); }
    if a < pct { Scale(pct, a, b); } else { ScaleWeakly(pct, a, b); }
    assert pct * b == pct * rate * seconds;
  }

  lemma Regroup(q: real, rate: real, seconds: real)
    ensures q * 100.0 * (rate * seconds) == 100.0 * (q * rate * seconds)
  {
  }

  lemma LossExactly(run: Run, name: string, s: Snapshot)
    ensures Fails(run, name, s, Loss) <==> Exceeds(run, name, s, Loss)
  {
    hide Pct, MoreThan;
    if s.sent > 0 {
      PctAbove(s.lost, s.sent, MaxLoss(run.thresholds, name));
      PctAbove(s.lost, s.sent, BOUNDARY_LOSS_PCT);
      HalfPerCent(s.lost, s.sent);
    }
  }

  lemma HalfPerCent(lost: nat, sent: nat)
    ensures MoreThan(lost as real, 0.5, sent as real) <==> 200 * lost > sent
  {
    assert (200 * lost) as real == 200.0 * lost as real;
  }

  lemma DowntimeExactly(run: Run, name: string, s: Snapshot)
    ensures Fails(run, name, s, Downtime) <==> Exceeds(run, name, s, Downtime)
  {
    if run.seconds > 0.0 { QuotientAbove(s.downtime, run.seconds, run.thresholds.maxDowntime); }
  }

  lemma ThroughputExactly(run: Run, name: string, s: Snapshot)
    ensures Fails(run, name, s, Throughput) <==> Exceeds(run, name, s, Throughput)
  {
    if run.seconds > 0.0 && Rate(run, name) > 0 {
      ThroughputBelow(s.sent as real, run.seconds, Rate(run, name) as real, run.thresholds.minThroughput);
    }
  }

  lemma SharesExactly(run: Run, name: string, s: Snapshot, gate: Gate)
    requires gate in {Duplication, ErrorRate, RpcFailures}
    ensures Fails(run, name, s, gate) <==> Exceeds(run, name, s, gate)
  {
    hide Pct, MoreThan;
    var t, total := run.thresholds, s.rpcSuccess + s.rpcTimeout + s.rpcError;
    if s.received > 0 { PctAbove(s.duplicated, s.received, t.maxDuplication); }
    if s.sent + s.received > 0 { PctAbove(s.errors, s.sent + s.received, t.maxErrorRate); }
    if total > 0 { PctAbove(s.rpcTimeout + s.rpcError, total, t.maxErrorRate); }
  }

  lemma LatencyExactly(run: Run, name: string, s: Snapshot, gate: Gate)
    requires Validated(run.thresholds) && gate in {P50, P95, P99, P999}
    ensures Fails(run, name, s, gate) <==> Exceeds(run, name, s, gate)
  {
  }

  /** Every gate is what its products say. */
  lemma GateExactly(run: Run, name: string, s: Snapshot, gate: Gate)
    requires Validated(run.thresholds)
    ensures Fails(run, name, s, gate) <==> Exceeds(run, name, s, gate)
  {
    match gate
    case Loss => LossExactly(run, name, s);
    case Downtime => DowntimeExactly(run, name, s);
    case Throughput => ThroughputExactly(run, name, s);
    case Duplication => SharesExactly(run, name, s, gate);
    case ErrorRate => SharesExactly(run, name, s, gate);
    case RpcFailures => SharesExactly(run, name, s, gate);
    case P50 => LatencyExactly(run, name, s, gate);
    case P95 => LatencyExactly(run, name, s, gate);
    case P99 => LatencyExactly(run, name, s, gate);
    case P999 => LatencyExactly(run, name, s, gate);
    case _ =>
  }

  // ---- worse numbers never pass where better ones failed -------------------

  /** The same traffic, with every bad number at least as high and no more RPC successes. */
  predicate NoBetter(s: Snapshot, worse: Snapshot) {
    && worse.sent == s.sent && worse.received == s.received && worse.rpcSuccess <= s.rpcSuccess
    && worse.errors >= s.errors && worse.corrupted >= s.corrupted && worse.duplicated >= s.duplicated
    && worse.lost >= s.lost && worse.fidelityFailures >= s.fidelityFailures && worse.eventsDropped >= s.eventsDropped
    && worse.rpcTimeout >= s.rpcTimeout && worse.rpcError >= s.rpcError && worse.downtime >= s.downtime
    && worse.p50 >= s.p50 && worse.p95 >= s.p95 && worse.p99 >= s.p99 && worse.p999 >= s.p999
  }

  function Times(x: real, y: real): real { x * y }

  lemma TimesGrows(k: real, x: real, y: real)
    requires k >= 0.0 && x <= y
    ensures Times(k, x) <= Times(k, y)
  {
    ProductGrows(k, x, y);
  }

  lemma TimesSign(k: real, x: real)
    requires x >= 0.0
    ensures if k >= 0.0 then Times(k, x) >= 0.0 else Times(k, x) <= 0.0
  {
    if k < 0.0 { NegativeProduct(k, x); }
  }

  lemma MoreThanSplits(pct: real, bad: real, good: real)
    ensures MoreThan(bad, pct, bad + good) <==> Times(100.0 - pct, bad) > Times(pct, good)
  {
    assert (100.0 - pct) * bad == 100.0 * bad - pct * bad;
    assert pct * (bad + good) == pct * bad + pct * good;
  }

  lemma ShareGrows(bad: nat, good: nat, moreBad: nat, lessGood: nat, pct: real)
    requires pct >= 0.0 && moreBad >= bad && lessGood <= good && bad + good > 0
    requires MoreThan(bad as real, pct, (bad + good) as real)
    ensures moreBad + lessGood > 0 && MoreThan(moreBad as real, pct, (moreBad + lessGood) as real)
  {
    hide MoreThan, Times;
    var b, g, c, d := bad as real, good as real, moreBad as real, lessGood as real;
    assert (bad + good) as real == b + g && (moreBad + lessGood) as real == c + d;
    MoreThanSplits(pct, b, g);
    MoreThanSplits(pct, c, d);
    TimesGrows(pct, d, g);
    TimesSign(pct, d);
    TimesSign(100.0 - pct, b);
    if 100.0 - pct >= 0.0 { TimesGrows(100.0 - pct, b, c); }
    if bad == 0 { TimesZero(100.0 - pct); }
  }

  lemma TimesZero(k: real)
    ensures Times(k, 0.0) == 0.0
  {
  }

  lemma ProductGrows(k: real, x: real, y: real)
    requires k >= 0.0 && x <= y
    ensures k * x <= k * y
  {
  }

  lemma NegativeProduct(k: real, x: real)
    requires k <= 0.0 && x >= 0.0
    ensures k * x <= 0.0
  {
  }

  /** The ranges the configuration check enforces. */
  predicate InRange(t: Thresholds) {
    && Validated(t)
    && 0.0 <= t.maxLoss <= 100.0 && 0.0 <= t.maxEventsLoss <= 100.0 && 0.0 <= t.maxDuplication <= 100.0
    && 0.0 < t.minThroughput <= 100.0 && 0.0 <= t.maxErrorRate <= 100.0 && 0.0 <= t.maxDowntime <= 100.0
  }

  /** What fails a worker still fails it when its numbers get worse. */
  lemma WorseStillFails(run: Run, name: string, s: Snapshot, worse: Snapshot, gate: Gate)
    requires InRange(run.thresholds) && NoBetter(s, worse) && Fails(run, name, s, gate)
    ensures Fails(run, name, worse, gate)
  {
    hide Fails;
    GateExactly(run, name, s, gate);
    GateExactly(run, name, worse, gate);
    if gate.RpcFailures? {
      ShareGrows(s.rpcTimeout + s.rpcError, s.rpcSuccess, worse.rpcTimeout + worse.rpcError, worse.rpcSuccess,
                 run.thresholds.maxErrorRate);
    }
  }

  /** Sending more never adds a throughput failure to a worker that sent anything. */
  lemma MoreSentNeverTooSlow(run: Run, name: string, s: Snapshot, sent: nat)
    requires Validated(run.thresholds) && 0 < s.sent <= sent && !Fails(run, name, s, Throughput)
    ensures !Fails(run, name, s.(sent := sent), Throughput)
  {
    hide Fails;
    ThroughputExactly(run, name, s);
    ThroughputExactly(run, name, s.(sent := sent));
  }

  /** A worker with nothing wrong that keeps at least its target rate. */
  predicate Healthy(run: Run, name: string, s: Snapshot) {
    var t := run.thresholds;
    && s.errors == s.corrupted == s.duplicated == s.lost == s.fidelityFailures == s.eventsDropped == 0
    && s.rpcTimeout == s.rpcError == 0 && s.downtime == 0.0
    && s.p50 <= t.maxP50 && s.p95 <= t.maxP95 && s.p99 <= t.maxP99 && s.p999 <= t.maxP999
    && s.sent as real >= Rate(run, name) as real * run.seconds
  }

  lemma AtTargetRate(sent: real, rate: real, seconds: real, pct: real)
    requires 0.0 <= pct <= 100.0 && rate >= 0.0 && seconds >= 0.0 && sent >= rate * seconds
    ensures !(100.0 * sent < pct * rate * seconds)
  {
    var due := rate * seconds;
    assert due >= 0.0;
    ProductGrows(due, pct, 100.0);
    assert pct * rate * seconds == due * pct;
  }

  /** It passes every gate, for all thresholds the configuration check lets through. */
  lemma HealthyPasses(run: Run, name: string, s: Snapshot, gate: Gate)
    requires InRange(run.thresholds) && Healthy(run, name, s)
    ensures !Fails(run, name, s, gate)
  {
    hide Fails;
    GateExactly(run, name, s, gate);
    if gate.Throughput? && run.seconds > 0.0 {
      AtTargetRate(s.sent as real, Rate(run, name) as real, run.seconds, run.thresholds.minThroughput);
    }
  }

  /** And a run of such workers is PASSED, or PASSED_WITH_WARNINGS if and only if the peak is more
      than the allowed multiple of the baseline. */
  lemma HealthyRunPasses(run: Run)
    requires InRange(run.thresholds)
    requires forall name | name in run.workers :: Healthy(run, name, run.workers[name])
    ensures EngineOutcome(run) == if GrewTooMuch(run) then PASSED_WITH_WARNINGS else PASSED
  {
    hide Fails, Healthy, MemoryGrew, GrewTooMuch;
    forall name, gate | name in run.workers ensures !Fails(run, name, run.workers[name], gate) {
      HealthyPasses(run, name, run.workers[name], gate);
    }
    MemoryExactly(run);
  }

  predicate GrewTooMuch(run: Run) {
    run.baseline > 0 && run.peak as real > run.thresholds.maxMemoryGrowth * run.baseline as real
  }

  lemma MemoryExactly(run: Run)
    requires Validated(run.thresholds)
    ensures MemoryGrew(run) <==> GrewTooMuch(run)
  {
    if run.baseline > 0 {
      var b, p, m := run.baseline as real, run.peak as real, run.thresholds.maxMemoryGrowth;
      QuotientAbove(p, b, 100.0 * m);
      assert 100.0 * m * b == 100.0 * (m * b);
      ProductGrows(b, 1.0, m);
    }
  }

  const GATES := [Corruption, Fidelity, EventsDropped, Loss, Duplication, P50, P95, P99, P999,
                  ErrorRate, Throughput, Downtime, RpcFailures]

  ghost predicate AnyFails(run: Run) {
    exists name, gate :: name in run.workers && Fails(run, name, run.workers[name], gate)
  }

  predicate MemoryGrew(run: Run) {
    run.baseline > 0 && run.peak > run.baseline &&
    run.peak as real / run.baseline as real > run.thresholds.maxMemoryGrowth
  }

  ghost function EngineOutcome(run: Run): Outcome {
    if AnyFails(run) then FAILED else if MemoryGrew(run) then PASSED_WITH_WARNINGS else PASSED
  }

  /** The engine's loop over the snapshots, which visits them in no particular order. */
  method ComputeVerdict(run: Run) returns (result: Outcome, failures: seq<(string, Gate)>)
    ensures result == EngineOutcome(run)
    ensures forall name, gate :: (name, gate) in failures <==>
              name in run.workers && Fails(run, name, run.workers[name], gate)
    ensures Validated(run.thresholds) ==>
              forall name, gate :: (name, gate) in failures <==>
                name in run.workers && Exceeds(run, name, run.workers[name], gate)
  {
    hide Fails, Exceeds;
    result, failures := PASSED, [];
    var todo := run.workers.Keys;
    while todo != {}
      invariant todo <= run.workers.Keys && (result == FAILED <==> failures != []) && result != PASSED_WITH_WARNINGS
      invariant forall name, gate :: (name, gate) in failures <==>
                  name in run.workers && name !in todo && Fails(run, name, run.workers[name], gate)
      decreases todo
    {
      var name :| name in todo;
      for i := 0 to |GATES|
        invariant (result == FAILED <==> failures != []) && result != PASSED_WITH_WARNINGS
        invariant forall n, gate :: (n, gate) in failures <==>
                    n in run.workers && (n !in todo || (n == name && gate in GATES[..i])) &&
                    Fails(run, n, run.workers[n], gate)
      {
        if Fails(run, name, run.workers[name], GATES[i]) {
          result := FAILED;
          failures := failures + [(name, GATES[i])];
        }
      }
      AllGates();
      todo := todo - {name};
    }
    assert failures != [] ==> (failures[0].0, failures[0].1) in failures;
    if Validated(run.thresholds) { GatesExactly(run); }
    if MemoryGrew(run) && result == PASSED {
      result := PASSED_WITH_WARNINGS;
    }
  }

  lemma GatesExactly(run: Run)
    requires Validated(run.thresholds)
    ensures forall name, gate | name in run.workers ::
              Fails(run, name, run.workers[name], gate) <==> Exceeds(run, name, run.workers[name], gate)
  {
    hide Fails, Exceeds;
    forall name, gate | name in run.workers
      ensures Fails(run, name, run.workers[name], gate) <==> Exceeds(run, name, run.workers[name], gate)
    {
      GateExactly(run, name, run.workers[name], gate);
    }
  }

  lemma AllGates()
    ensures forall gate: Gate :: gate in GATES[..|GATES|]
  {
    forall gate: Gate ensures gate in GATES[..|GATES|] {
      var i :=
        match gate
        case Corruption => 0 case Fidelity => 1 case EventsDropped => 2 case Loss => 3 case Duplication => 4
        case P50 => 5 case P95 => 6 case P99 => 7 case P999 => 8 case ErrorRate => 9 case Throughput => 10
        case Downtime => 11 case RpcFailures => 12;
      assert GATES[i] == gate;
    }
  }

  // ---- the report's verdict ------------------------------------------------

  datatype Check =
    | MessageLoss(name: string) | DuplicationOf(name: string) | P99Latency(name: string) | ErrorRateOf(name: string)
    | CorruptionTotal | FidelityTotal | EventsNoCreditDrop

  function LossGateThreshold(base: real): real {
    if base < BOUNDARY_LOSS_PCT then BOUNDARY_LOSS_PCT else base
  }

  /** The hard checks made for one worker, each with whether it passed. */
  function WorkerChecks(run: Run, name: string, s: Snapshot): map<Check, bool> {
    var t := run.thresholds;
    if s.sent == 0 then map[]
    else
      var loss := map[MessageLoss(name) := Pct(s.lost, s.sent) <= LossGateThreshold(MaxLoss(t, name))];
      var dup :=
        if s.received > 0 then loss[DuplicationOf(name) := Pct(s.duplicated, s.received) <= t.maxDuplication]
        else loss;
      var p99 := if s.p99 > 0.0 then dup[P99Latency(name) := s.p99 <= t.maxP99] else dup;
      p99[ErrorRateOf(name) := Pct(s.errors, s.sent + s.received) <= t.maxErrorRate]
  }

  function ChecksOf(run: Run, name: string): map<Check, bool>
    requires name in run.workers
  {
    WorkerChecks(run, name, run.workers[name])
  }

  ghost predicate WorkerFails(run: Run, name: string) {
    name in run.workers && exists c :: c in ChecksOf(run, name) && !ChecksOf(run, name)[c]
  }

  ghost function TotalCorrupted(run: Run): nat { Sum(run.workers, (s: Snapshot) => s.corrupted) }

  ghost function TotalFidelity(run: Run): nat { Sum(run.workers, (s: Snapshot) => s.fidelityFailures) }

  ghost predicate ReportFails(run: Run) {
    || (exists name :: WorkerFails(run, name))
    || TotalCorrupted(run) > 0
    || TotalFidelity(run) > run.thresholds.maxFidelity
    || (EVENTS in run.workers && run.workers[EVENTS].eventsDropped > 0)
  }

  predicate ReportWarns(run: Run) {
    run.baseline > 0 && run.peak as real / run.baseline as real > run.thresholds.maxMemoryGrowth
  }

  ghost function ReportOutcome(run: Run): Outcome {
    if ReportFails(run) then FAILED else if ReportWarns(run) then PASSED_WITH_WARNINGS else PASSED
  }

  lemma ChecksAreNamed(run: Run, name: string, c: Check)
    requires name in run.workers && c in ChecksOf(run, name)
    ensures !c.CorruptionTotal? && !c.FidelityTotal? && !c.EventsNoCreditDrop? && c.name == name
  {
  }

  /** The checks of the workers visited so far, each under its own key. */
  ghost predicate Collected(run: Run, todo: set<string>, checks: map<Check, bool>) {
    && (forall c | c in checks :: c.MessageLoss? || c.DuplicationOf? || c.P99Latency? || c.ErrorRateOf?)
    && (forall c | c in checks :: c.name in run.workers && c.name !in todo &&
          c in ChecksOf(run, c.name) && checks[c] == ChecksOf(run, c.name)[c])
    && (forall name, c | name in run.workers && name !in todo && c in ChecksOf(run, name) :: c in checks)
  }

  lemma CollectOne(run: Run, todo: set<string>, checks: map<Check, bool>, name: string)
    requires Collected(run, todo, checks) && name in todo && name in run.workers
    ensures Collected(run, todo - {name}, checks + ChecksOf(run, name))
  {
    hide WorkerChecks;
    forall n, c | n in run.workers && c in ChecksOf(run, n)
      ensures !c.CorruptionTotal? && !c.FidelityTotal? && !c.EventsNoCreditDrop? && c.name == n
    {
      ChecksAreNamed(run, n, c);
    }
  }

  lemma CollectedAll(run: Run, checks: map<Check, bool>)
    requires Collected(run, {}, checks)
    ensures (exists c :: c in checks && !checks[c]) <==> exists name :: WorkerFails(run, name)
  {
    hide WorkerChecks;
    if c :| c in checks && !checks[c] {
      assert WorkerFails(run, c.name);
    }
    if name :| WorkerFails(run, name) {
      var c :| c in ChecksOf(run, name) && !ChecksOf(run, name)[c];
      ChecksAreNamed(run, name, c);
      assert c in checks && !checks[c];
    }
  }

  lemma StartCollecting(run: Run)
    ensures Collected(run, run.workers.Keys, map[])
  {
  }

  /** A worker that is still to come has no check in the report yet. */
  lemma NoneCollected(run: Run, todo: set<string>, checks: map<Check, bool>, name: string)
    requires Collected(run, todo, checks) && name in todo
    ensures NoneOf(name, checks)
  {
  }

  predicate NoneOf(name: string, checks: map<Check, bool>) {
    MessageLoss(name) !in checks && DuplicationOf(name) !in checks && P99Latency(name) !in checks &&
    ErrorRateOf(name) !in checks
  }

  ghost predicate AllPass(checks: map<Check, bool>) { forall c | c in checks :: checks[c] }

  lemma OneMore(checks: map<Check, bool>, c: Check, ok: bool)
    requires c !in checks
    ensures AllPass(checks[c := ok]) <==> AllPass(checks) && ok
  {
    var more := checks[c := ok];
    assert c in more && forall d | d in checks :: d in more && more[d] == checks[d];
  }

  lemma PlusOne(m: map<Check, bool>, n: map<Check, bool>, c: Check, ok: bool)
    ensures m + n[c := ok] == (m + n)[c := ok]
  {
  }

  /** One worker's checks, added in the order the report adds them. */
  lemma InOrder(run: Run, name: string, checks: map<Check, bool>)
    requires name in run.workers && run.workers[name].sent > 0
    ensures
      var s, t := run.workers[name], run.thresholds;
      var loss := checks[MessageLoss(name) := Pct(s.lost, s.sent) <= LossGateThreshold(MaxLoss(t, name))];
      var dup :=
        if s.received > 0 then loss[DuplicationOf(name) := Pct(s.duplicated, s.received) <= t.maxDuplication]
        else loss;
      var p99 := if s.p99 > 0.0 then dup[P99Latency(name) := s.p99 <= t.maxP99] else dup;
      checks + ChecksOf(run, name) ==
      p99[ErrorRateOf(name) := Pct(s.errors, s.sent + s.received) <= t.maxErrorRate]
  {
    hide Pct, LossGateThreshold, MaxLoss;
    var s, t := run.workers[name], run.thresholds;
    var mine := map[MessageLoss(name) := Pct(s.lost, s.sent) <= LossGateThreshold(MaxLoss(t, name))];
    PlusOne(checks, map[], MessageLoss(name), mine[MessageLoss(name)]);
    assert checks + map[] == checks;
    if s.received > 0 {
      PlusOne(checks, mine, DuplicationOf(name), Pct(s.duplicated, s.received) <= t.maxDuplication);
      mine := mine[DuplicationOf(name) := Pct(s.duplicated, s.received) <= t.maxDuplication];
    }
    if s.p99 > 0.0 {
      PlusOne(checks, mine, P99Latency(name), s.p99 <= t.maxP99);
      mine := mine[P99Latency(name) := s.p99 <= t.maxP99];
    }
    PlusOne(checks, mine, ErrorRateOf(name), Pct(s.errors, s.sent + s.received) <= t.maxErrorRate);
  }

  lemma NoneSent(run: Run, name: string, checks: map<Check, bool>)
    requires name in run.workers && run.workers[name].sent == 0
    ensures checks + ChecksOf(run, name) == checks
  {
  }

  /** The report under construction: checks are added one by one, and each addition site clears the
      flag on its own. */
  class Report {
    var passed: bool
    var checks: map<Check, bool>

    /** The flag is up exactly as long as no recorded check has failed. */
    ghost predicate Valid()
      reads this
    {
      passed <==> AllPass(checks)
    }

    constructor ()
      ensures Valid() && checks == map[]
    {
      passed, checks := true, map[];
    }

    method AddHard(c: Check, value: real, threshold: real)
      modifies this
      ensures checks == old(checks)[c := value <= threshold]
      ensures old(Valid()) && c !in old(checks) ==> Valid()
      ensures !passed <==> !old(passed) || value > threshold
    {
      hide AllPass;
      var ok := value <= threshold;
      if c !in checks { OneMore(checks, c, ok); }
      checks := checks[c := ok];
      if !ok {
        passed := false;
      }
    }

    /** The body of the first loop. */
    method AddWorker(run: Run, name: string)
      requires Valid() && name in run.workers && NoneOf(name, checks)
      modifies this
      ensures Valid() && checks == old(checks) + ChecksOf(run, name)
    {
      hide Pct, LossGateThreshold, MaxLoss, AllPass, WorkerChecks;
      var s, t := run.workers[name], run.thresholds;
      if s.sent == 0 {
        NoneSent(run, name, checks);
        return;
      }
      InOrder(run, name, checks);
      AddHard(MessageLoss(name), Pct(s.lost, s.sent), LossGateThreshold(MaxLoss(t, name)));
      if s.received > 0 {
        AddHard(DuplicationOf(name), Pct(s.duplicated, s.received), t.maxDuplication);
      }
      if s.p99 > 0.0 {
        AddHard(P99Latency(name), s.p99, t.maxP99);
      }
      AddHard(ErrorRateOf(name), Pct(s.errors, s.sent + s.received), t.maxErrorRate);
    }

    /** The first loop, over the workers in any order. */
    method AddWorkers(run: Run)
      requires Valid() && checks == map[]
      modifies this
      ensures Valid() && Collected(run, {}, checks)
    {
      hide Collected, ChecksOf, NoneOf, Report.Valid;
      StartCollecting(run);
      var todo := run.workers.Keys;
      while todo != {}
        invariant Valid() && todo <= run.workers.Keys && Collected(run, todo, checks)
        decreases todo
      {
        var name :| name in todo;
        NoneCollected(run, todo, checks, name);
        CollectOne(run, todo, checks, name);
        AddWorker(run, name);
        todo := todo - {name};
      }
    }

    /** The checks on all workers together, each with its own way of clearing the flag. */
    method AddTotals(run: Run, corrupted: nat, fidelity: nat)
      requires Valid() && CorruptionTotal !in checks && FidelityTotal !in checks && EventsNoCreditDrop !in checks
      modifies this
      ensures Valid() && checks == old(checks) + TotalChecks(run, corrupted, fidelity)
    {
      hide AllPass, TotalChecks;
      TotalsInOrder(run, checks, corrupted, fidelity);
      OneMore(checks, CorruptionTotal, corrupted == 0);
      checks := checks[CorruptionTotal := corrupted == 0];
      if corrupted > 0 {
        passed := false;
      }
      var fidelityOk := fidelity <= run.thresholds.maxFidelity;
      OneMore(checks, FidelityTotal, fidelityOk);
      checks := checks[FidelityTotal := fidelityOk];
      if !fidelityOk {
        passed := false;
      }
      if EVENTS in run.workers {
        var dropped := run.workers[EVENTS].eventsDropped;
        OneMore(checks, EventsNoCreditDrop, dropped == 0);
        checks := checks[EventsNoCreditDrop := dropped == 0];
        if dropped > 0 {
          passed := false;
        }
      }
    }
  }

  function TotalChecks(run: Run, corrupted: nat, fidelity: nat): map<Check, bool> {
    var both := map[CorruptionTotal := corrupted == 0][FidelityTotal := fidelity <= run.thresholds.maxFidelity];
    if EVENTS in run.workers then both[EventsNoCreditDrop := run.workers[EVENTS].eventsDropped == 0] else both
  }

  lemma TotalsInOrder(run: Run, checks: map<Check, bool>, corrupted: nat, fidelity: nat)
    ensures
      var both := checks[CorruptionTotal := corrupted == 0][FidelityTotal := fidelity <= run.thresholds.maxFidelity];
      checks + TotalChecks(run, corrupted, fidelity) ==
      if EVENTS in run.workers then both[EventsNoCreditDrop := run.workers[EVENTS].eventsDropped == 0] else both
  {
    var one := map[CorruptionTotal := corrupted == 0];
    PlusOne(checks, map[], CorruptionTotal, corrupted == 0);
    PlusOne(checks, one, FidelityTotal, fidelity <= run.thresholds.maxFidelity);
    if EVENTS in run.workers {
      PlusOne(checks, one[FidelityTotal := fidelity <= run.thresholds.maxFidelity], EventsNoCreditDrop,
              run.workers[EVENTS].eventsDropped == 0);
    }
    assert checks + map[] == checks;
  }

  /** The second loop. */
  method WorkerTotals(run: Run) returns (corrupted: nat, fidelity: nat)
    ensures corrupted == TotalCorrupted(run) && fidelity == TotalFidelity(run)
  {
    corrupted, fidelity := 0, 0;
    var todo := run.workers.Keys;
    ghost var rest := run.workers;
    while todo != {}
      invariant todo <= run.workers.Keys && rest == map name | name in todo :: run.workers[name]
      invariant corrupted + Sum(rest, (s: Snapshot) => s.corrupted) == TotalCorrupted(run)
      invariant fidelity + Sum(rest, (s: Snapshot) => s.fidelityFailures) == TotalFidelity(run)
      decreases todo
    {
      var name :| name in todo;
      var s := run.workers[name];
      SumWithout(rest, (s: Snapshot) => s.corrupted, name);
      SumWithout(rest, (s: Snapshot) => s.fidelityFailures, name);
      corrupted, fidelity := corrupted + s.corrupted, fidelity + s.fidelityFailures;
      todo, rest := todo - {name}, rest - {name};
    }
  }

  /** The whole report: the verdict and the checks behind it, every failed one a reason to fail. */
  method GenerateVerdict(run: Run) returns (result: Outcome, checks: map<Check, bool>)
    ensures result == ReportOutcome(run)
    ensures result == FAILED <==> exists c :: c in checks && !checks[c]
    ensures CorruptionTotal in checks && FidelityTotal in checks
    ensures EventsNoCreditDrop in checks <==> EVENTS in run.workers
    ensures checks[CorruptionTotal] <==> TotalCorrupted(run) == 0
    ensures checks[FidelityTotal] <==> TotalFidelity(run) <= run.thresholds.maxFidelity
    ensures EVENTS in run.workers ==> (checks[EventsNoCreditDrop] <==> run.workers[EVENTS].eventsDropped == 0)
  {
    hide ChecksOf, Sum, WorkerFails, Collected;
    var report := new Report();
    report.AddWorkers(run);
    ghost var mine := report.checks;
    CollectedAll(run, mine);
    NoTotals(run, mine);
    var corrupted, fidelity := WorkerTotals(run);
    report.AddTotals(run, corrupted, fidelity);
    checks := report.checks;
    Together(run, mine, corrupted, fidelity);
    result := if !report.passed then FAILED else if ReportWarns(run) then PASSED_WITH_WARNINGS else PASSED;
  }

  lemma NoTotals(run: Run, checks: map<Check, bool>)
    requires Collected(run, {}, checks)
    ensures CorruptionTotal !in checks && FidelityTotal !in checks && EventsNoCreditDrop !in checks
  {
  }

  /** Some check failed exactly when a worker's or a total one did. */
  lemma Together(run: Run, mine: map<Check, bool>, corrupted: nat, fidelity: nat)
    requires CorruptionTotal !in mine && FidelityTotal !in mine && EventsNoCreditDrop !in mine
    ensures
      var all := mine + TotalChecks(run, corrupted, fidelity);
      (exists c :: c in all && !all[c]) <==>
      (exists c :: c in mine && !mine[c]) || corrupted > 0 || fidelity > run.thresholds.maxFidelity ||
      (EVENTS in run.workers && run.workers[EVENTS].eventsDropped > 0)
  {
    var all := mine + TotalChecks(run, corrupted, fidelity);
    assert forall c | c in mine :: c in all && all[c] == mine[c];
    assert CorruptionTotal in all && FidelityTotal in all;
    assert EVENTS in run.workers ==> EventsNoCreditDrop in all;
  }

  // ---- reconciliation ------------------------------------------------------

  function Severity(o: Outcome): nat {
    match o
    case PASSED => 0
    case PASSED_WITH_WARNINGS => 1
    case FAILED => 2
  }

  /** What is published: the engine's failure first, then its warning, then the report's own, which
      also stands when the engine has no verdict. In other words, the worse of the two. */
  function Reconciled(engine: Option<Outcome>, report: Outcome): (published: Outcome)
    ensures engine.Some? ==> Severity(published) == Max(Severity(engine.value), Severity(report))
    ensures engine.None? ==> published == report
  {
    if engine == Some(FAILED) then FAILED
    else if engine == Some(PASSED_WITH_WARNINGS) && report == PASSED then PASSED_WITH_WARNINGS
    else report
  }

  /** The published result of a run the engine has judged is the engine's. */
  ghost predicate Agree(run: Run) {
    Reconciled(Some(EngineOutcome(run)), ReportOutcome(run)) == EngineOutcome(run)
  }

  /** Above both bounds is above the larger one. */
  lemma LossGatesAgree(pct: real, maxLoss: real)
    ensures pct > maxLoss && pct > BOUNDARY_LOSS_PCT <==> !(pct <= LossGateThreshold(maxLoss))
  {
  }

  /** Which checks a worker gets, and that each passes if and only if the engine gate of its name
      does: the report's bounds are the engine's. */
  lemma ChecksAreGates(run: Run, name: string)
    requires Validated(run.thresholds) && name in run.workers
    ensures
      var s, checks := run.workers[name], ChecksOf(run, name);
      && (MessageLoss(name) in checks <==> s.sent > 0)
      && (DuplicationOf(name) in checks <==> s.sent > 0 && s.received > 0)
      && (P99Latency(name) in checks <==> s.sent > 0 && s.p99 > 0.0)
      && (ErrorRateOf(name) in checks <==> s.sent > 0)
      && (MessageLoss(name) in checks ==> (checks[MessageLoss(name)] <==> !Exceeds(run, name, s, Loss)))
      && (DuplicationOf(name) in checks ==> (checks[DuplicationOf(name)] <==> !Exceeds(run, name, s, Duplication)))
      && (P99Latency(name) in checks ==> (checks[P99Latency(name)] <==> !Exceeds(run, name, s, P99)))
      && (ErrorRateOf(name) in checks ==> (checks[ErrorRateOf(name)] <==> !Exceeds(run, name, s, ErrorRate)))
  {
    hide Exceeds, Pct;
    var s := run.workers[name];
    GateExactly(run, name, s, Loss);
    GateExactly(run, name, s, Duplication);
    GateExactly(run, name, s, P99);
    GateExactly(run, name, s, ErrorRate);
    if s.sent > 0 { LossGatesAgree(Pct(s.lost, s.sent), MaxLoss(run.thresholds, name)); }
  }

  /** The report's failure in terms of the engine's gates: the four it checks per worker that sent
      anything, corruption and dropped events of any worker, and the fidelity failures of all. */
  lemma ReportFailsByGates(run: Run)
    requires Validated(run.thresholds)
    ensures ReportFails(run) <==>
            || (exists name, gate :: FailsBoth(run, name, gate))
            || TotalFidelity(run) > run.thresholds.maxFidelity
  {
    hide Exceeds, ChecksOf;
    SumPositive(run.workers, (s: Snapshot) => s.corrupted);
    if name :| WorkerFails(run, name) {
      var gate := FailedGate(run, name);
      assert FailsBoth(run, name, gate);
    }
    if name :| name in run.workers && run.workers[name].corrupted > 0 {
      TotalGates(run, name);
      assert FailsBoth(run, name, Corruption);
    }
    if EVENTS in run.workers && run.workers[EVENTS].eventsDropped > 0 {
      TotalGates(run, EVENTS);
      assert FailsBoth(run, EVENTS, EventsDropped);
    }
    if name, gate :| FailsBoth(run, name, gate) {
      TotalGates(run, name);
      if gate in {Loss, Duplication, P99, ErrorRate} { GateFailsCheck(run, name, gate); }
    }
  }

  /** A gate of the engine that the report checks too, failed. */
  predicate FailsBoth(run: Run, name: string, gate: Gate) {
    && name in run.workers && Exceeds(run, name, run.workers[name], gate)
    && (|| gate in {Corruption, EventsDropped}
        || (gate in {Loss, Duplication, P99, ErrorRate} && run.workers[name].sent > 0))
  }

  lemma TotalGates(run: Run, name: string)
    requires name in run.workers
    ensures Exceeds(run, name, run.workers[name], Corruption) <==> run.workers[name].corrupted > 0
    ensures Exceeds(run, name, run.workers[name], EventsDropped) <==>
            name == EVENTS && run.workers[name].eventsDropped > 0
  {
  }

  lemma FailedGate(run: Run, name: string) returns (gate: Gate)
    requires Validated(run.thresholds) && WorkerFails(run, name)
    ensures gate in {Loss, Duplication, P99, ErrorRate} && run.workers[name].sent > 0
    ensures Exceeds(run, name, run.workers[name], gate)
  {
    hide Exceeds, WorkerChecks;
    var c :| c in ChecksOf(run, name) && !ChecksOf(run, name)[c];
    ChecksAreNamed(run, name, c);
    ChecksAreGates(run, name);
    gate :=
      match c
      case MessageLoss(_) => Loss
      case DuplicationOf(_) => Duplication
      case P99Latency(_) => P99
      case _ => ErrorRate;
  }

  lemma GateFailsCheck(run: Run, name: string, gate: Gate)
    requires Validated(run.thresholds) && name in run.workers && run.workers[name].sent > 0
    requires gate in {Loss, Duplication, P99, ErrorRate} && Exceeds(run, name, run.workers[name], gate)
    ensures WorkerFails(run, name)
  {
    hide WorkerChecks;
    ChecksAreGates(run, name);
    var c :=
      match gate
      case Loss => MessageLoss(name)
      case Duplication => DuplicationOf(name)
      case P99 => P99Latency(name)
      case _ => ErrorRateOf(name);
    assert c in ChecksOf(run, name) && !ChecksOf(run, name)[c];
  }

  /** A worker's report check fails only where an engine gate fails. */
  lemma WorkerChecksTrimGates(run: Run, name: string)
    requires Validated(run.thresholds) && WorkerFails(run, name)
    ensures exists gate :: Fails(run, name, run.workers[name], gate)
  {
    var c :| c in ChecksOf(run, name) && !ChecksOf(run, name)[c];
    var s, t := run.workers[name], run.thresholds;
    match c {
      case MessageLoss(_) =>
        LossGatesAgree(Pct(s.lost, s.sent), MaxLoss(t, name));
        assert Fails(run, name, s, Loss);
      case DuplicationOf(_) => assert Fails(run, name, s, Duplication);
      case P99Latency(_) => assert Fails(run, name, s, P99);
      case ErrorRateOf(_) => assert Fails(run, name, s, ErrorRate);
    }
  }

  /** The report fails where the engine does not exactly when the fidelity failures of all workers
      together exceed the bound that each worker alone keeps. */
  lemma ReportFailsExactly(run: Run)
    requires Validated(run.thresholds) && !AnyFails(run)
    ensures ReportFails(run) <==> TotalFidelity(run) > run.thresholds.maxFidelity
  {
    hide Fails;
    SumPositive(run.workers, (s: Snapshot) => s.corrupted);
    forall name, gate | name in run.workers ensures !Fails(run, name, run.workers[name], gate) { }
    forall name | name in run.workers
      ensures run.workers[name].corrupted == 0 && (name == EVENTS ==> run.workers[name].eventsDropped == 0)
    {
      CleanWorker(run, name);
    }
    forall name ensures !WorkerFails(run, name) {
      if WorkerFails(run, name) { WorkerChecksTrimGates(run, name); }
    }
  }

  lemma CleanWorker(run: Run, name: string)
    requires name in run.workers
    requires !Fails(run, name, run.workers[name], Corruption) && !Fails(run, name, run.workers[name], EventsDropped)
    ensures run.workers[name].corrupted == 0 && (name == EVENTS ==> run.workers[name].eventsDropped == 0)
  {
  }

  lemma MemoryAgrees(run: Run)
    requires Validated(run.thresholds)
    ensures MemoryGrew(run) <==> ReportWarns(run)
  {
    if run.baseline > 0 && run.peak <= run.baseline {
      assert run.peak as real / run.baseline as real <= 1.0;
    }
  }

  /** Whatever numbers the snapshots hold, the two verdicts agree if and only if the engine failed
      the run or the workers' fidelity failures together stay in bound. */
  lemma VerdictsAgreeExactly(run: Run)
    requires Validated(run.thresholds)
    ensures Agree(run) <==> AnyFails(run) || TotalFidelity(run) <= run.thresholds.maxFidelity
  {
    hide AnyFails, ReportFails, MemoryGrew, ReportWarns, TotalFidelity;
    MemoryAgrees(run);
    if !AnyFails(run) { ReportFailsExactly(run); }
  }

  /** With the default bound of zero fidelity failures the two always agree. */
  lemma VerdictsAgreeByDefault(run: Run)
    requires Validated(run.thresholds) && run.thresholds.maxFidelity == 0
    ensures Agree(run)
  {
    hide Agree;
    VerdictsAgreeExactly(run);
    SumPositive(run.workers, (s: Snapshot) => s.fidelityFailures);
    if TotalFidelity(run) > 0 {
      var name :| name in run.workers && run.workers[name].fidelityFailures > 0;
      assert Fails(run, name, run.workers[name], Fidelity);
    }
  }

  // ---- the snapshots the counters give -------------------------------------

  /** Only the credit-flow worker records fidelity failures other than corrupted messages. */
  ghost predicate AtRest(run: Run) {
    forall name | name in run.workers && name != CREDIT_FLOW ::
      run.workers[name].fidelityFailures == run.workers[name].corrupted
  }

  lemma {:induction false} OnlyOneCounts(workers: map<string, Snapshot>, name: string)
    requires forall other | other in workers && other != name :: workers[other].fidelityFailures == 0
    ensures Sum(workers, (s: Snapshot) => s.fidelityFailures) ==
            if name in workers then workers[name].fidelityFailures else 0
  {
    var f := (s: Snapshot) => s.fidelityFailures;
    if name in workers {
      SumWithout(workers, f, name);
      SumPositive(workers - {name}, f);
    } else {
      SumPositive(workers, f);
    }
  }

  lemma PassedIsClean(run: Run, name: string)
    requires !AnyFails(run) && name in run.workers
    ensures run.workers[name].corrupted == 0 && run.workers[name].fidelityFailures <= run.thresholds.maxFidelity
  {
    assert !Fails(run, name, run.workers[name], Corruption) && !Fails(run, name, run.workers[name], Fidelity);
  }

  /** On such snapshots the two verdicts agree whatever the bound. */
  lemma VerdictsAgreeAtRest(run: Run)
    requires Validated(run.thresholds) && AtRest(run)
    ensures Agree(run)
  {
    hide Agree, AnyFails;
    VerdictsAgreeExactly(run);
    if !AnyFails(run) {
      forall name | name in run.workers
        ensures run.workers[name].corrupted == 0 && run.workers[name].fidelityFailures <= run.thresholds.maxFidelity
      {
        PassedIsClean(run, name);
      }
      OnlyOneCounts(run.workers, CREDIT_FLOW);
    }
  }

  /** The snapshots' two integrity counters are what was loaded from the workers of each group. */
  ghost predicate TakenFrom(run: Run, workers: map<string, seq<WorkerCounters.History>>) {
    forall name | name in run.workers ::
      && name in workers
      && run.workers[name].corrupted == WorkerCounters.TotalCorruptedOf(workers[name])
      && run.workers[name].fidelityFailures == WorkerCounters.TotalFidelityOf(workers[name])
      && forall i | 0 <= i < |workers[name]| ::
           WorkerCounters.Possible(workers[name][i]) &&
           (name != CREDIT_FLOW ==> WorkerCounters.NoGaps(workers[name][i]))
  }

  ghost predicate AllQuiet(run: Run, workers: map<string, seq<WorkerCounters.History>>) {
    forall name, i | name in run.workers && name in workers && 0 <= i < |workers[name]| ::
      WorkerCounters.Quiet(workers[name][i])
  }

  /** So the verdicts agree, whatever the bound, on every run in which nothing was recorded while a
      reset or a capture was at work. */
  lemma VerdictsAgreeWhenQuiet(run: Run, workers: map<string, seq<WorkerCounters.History>>)
    requires Validated(run.thresholds) && TakenFrom(run, workers) && AllQuiet(run, workers)
    ensures Agree(run)
  {
    hide Agree, WorkerCounters.Possible, WorkerCounters.NoGaps, WorkerCounters.Quiet,
      WorkerCounters.TotalCorruptedOf, WorkerCounters.TotalFidelityOf;
    forall name | name in run.workers && name != CREDIT_FLOW
      ensures run.workers[name].fidelityFailures == run.workers[name].corrupted
    {
      WorkerCounters.GroupAtRest(workers[name]);
    }
    VerdictsAgreeAtRest(run);
  }

  /** A mismatch cut in two by the capture, or by the reset after warmup, in each of two groups, with
      one failure allowed: the engine passes the run and the published result is a failure. */
  lemma VerdictsCanDiffer(torn: WorkerCounters.History)
    returns (run: Run, workers: map<string, seq<WorkerCounters.History>>)
    requires torn in {WorkerCounters.TORN_CAPTURE, WorkerCounters.TORN_RESET}
    ensures Validated(run.thresholds) && TakenFrom(run, workers) && !AllQuiet(run, workers)
    ensures EngineOutcome(run) == PASSED && Reconciled(Some(EngineOutcome(run)), ReportOutcome(run)) == FAILED
  {
    var t := Thresholds(0.0, 5.0, 0.1, 500.0, 1500.0, 2000.0, 10000.0, 80.0, 1.0, 2.0, 10.0, 1);
    var s := Snapshot(0, 0, 0, 0, 0, 0, 1, 0, 0, 0, 0, 0.0, 0.0, 0.0, 0.0, 0.0);
    run := Run(t, map[], 0.0, map["queues" := s, "events" := s], 0, 0);
    workers := map["queues" := [torn], "events" := [torn]];
    TornSnapshots(run, workers, torn);
    SumWithout(run.workers, (s: Snapshot) => s.fidelityFailures, "queues");
    SumWithout(run.workers - {"queues"}, (s: Snapshot) => s.fidelityFailures, "events");
    forall name, gate | name in run.workers ensures !Fails(run, name, run.workers[name], gate) { }
    ReportFailsExactly(run);
  }

  lemma TornSnapshots(run: Run, workers: map<string, seq<WorkerCounters.History>>, torn: WorkerCounters.History)
    requires torn in {WorkerCounters.TORN_CAPTURE, WorkerCounters.TORN_RESET}
    requires run.workers.Keys == workers.Keys == {"queues", "events"}
    requires forall name | name in workers ::
               workers[name] == [torn] && run.workers[name].corrupted == 0 && run.workers[name].fidelityFailures == 1
    ensures TakenFrom(run, workers) && !AllQuiet(run, workers)
  {
    hide WorkerCounters.Possible, WorkerCounters.NoGaps, WorkerCounters.Quiet,
      WorkerCounters.LoadedCorrupted, WorkerCounters.LoadedFidelity;
    WorkerCounters.TornLoads(torn);
    WorkerCounters.AtRestExactly(torn);
    assert Init([torn]) == [];
    forall name | name in run.workers
      ensures WorkerCounters.TotalCorruptedOf(workers[name]) == 0 && WorkerCounters.TotalFidelityOf(workers[name]) == 1
    {
      assert workers[name] == [torn];
    }
    assert "queues" in run.workers && workers["queues"][0] == torn;
  }
}
