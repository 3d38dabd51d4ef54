/** All producers together, on values: arrivals and polls of a whole tracker. */
module GapStream {
  import opened Basics
  import opened SequenceSpec

  type Producers = map<string, Producer>

  datatype Call = Arrive(id: string, s: nat) | Poll

  function Lost(p: Producer): nat { |p.pending| }

  function ArriveAt(w: nat, m: Producers, id: string, s: nat): Producers {
    m[id := if id in m then Record(w, m[id], s) else Start(s)]
  }

  function Polled(p: Producer): Producer { p.(lastReported := Lost(p)) }

  function PollAll(m: Producers): Producers { map id | id in m :: Polled(m[id]) }

  /** What one poll reports: only increases, and no entry for a producer without one. */
  function Deltas(m: Producers): map<string, nat> {
    map id | id in m && Rise(m[id]) > 0 :: Rise(m[id])
  }

  function Rise(p: Producer): nat { Max(0, Lost(p) - p.lastReported) }

  function Apply(w: nat, m: Producers, c: Call): Producers {
    match c
    case Arrive(id, s) => ArriveAt(w, m, id, s)
    case Poll => PollAll(m)
  }

  function RunCalls(w: nat, calls: seq<Call>): Producers {
    if calls == [] then map[] else Apply(w, RunCalls(w, Init(calls)), Last(calls))
  }

  /** A poll of `before` that still has `todo` to visit. */
  ghost predicate PolledSoFar(before: Producers, todo: set<string>, now: Producers, deltas: map<string, nat>) {
    && now == (map id | id in before :: if id in todo then before[id] else Polled(before[id]))
    && deltas == map id | id in before && id !in todo && Rise(before[id]) > 0 :: Rise(before[id])
  }

  lemma PollsStart(m: Producers)
    ensures PolledSoFar(m, m.Keys, m, map[])
  {
  }

  lemma PollsContinue(before: Producers, todo: set<string>, now: Producers, deltas: map<string, nat>, id: string)
    requires PolledSoFar(before, todo, now, deltas) && id in todo && todo <= before.Keys
    ensures id in now
    ensures PolledSoFar(before, todo - {id}, now[id := Polled(now[id])],
                        if Rise(now[id]) > 0 then deltas[id := Rise(now[id])] else deltas)
  {
  }

  lemma PollsEnd(before: Producers, now: Producers, deltas: map<string, nat>)
    requires PolledSoFar(before, {}, now, deltas)
    ensures now == PollAll(before) && deltas == Deltas(before)
  {
  }

  // ---- reported losses telescope ------------------------------------------

  /** The sum of the deltas ever reported for one producer. */
  function Reported(w: nat, calls: seq<Call>, id: string): nat {
    if calls == [] then 0
    else
      var deltas := Deltas(RunCalls(w, Init(calls)));
      Reported(w, Init(calls), id) + (if Last(calls).Poll? && id in deltas then deltas[id] else 0)
  }

  /** By how much the count had fallen at the polls that found it lower than the poll before. */
  function Fallen(w: nat, calls: seq<Call>, id: string): nat {
    if calls == [] then 0
    else
      var m := RunCalls(w, Init(calls));
      Fallen(w, Init(calls), id) +
      (if Last(calls).Poll? && id in m then Max(0, m[id].lastReported - Lost(m[id])) else 0)
  }

  lemma RecordKeepsReported(w: nat, p: Producer, s: nat)
    ensures Record(w, p, s).lastReported == p.lastReported
  {
  }

  /** What a producer's loss is after some calls; none before it is seen. */
  function LostAfter(w: nat, calls: seq<Call>, id: string): nat {
    var m := RunCalls(w, calls);
    if id in m then |m[id].pending| else 0
  }

  /** What it was at the latest poll. */
  function LostAtPoll(w: nat, calls: seq<Call>, id: string): nat {
    if calls == [] then 0
    else if Last(calls).Poll? then LostAfter(w, Init(calls), id)
    else LostAtPoll(w, Init(calls), id)
  }

  lemma {:induction false} ReportedIsLostAtPoll(w: nat, calls: seq<Call>, id: string)
    ensures if id in RunCalls(w, calls) then RunCalls(w, calls)[id].lastReported == LostAtPoll(w, calls, id)
            else LostAtPoll(w, calls, id) == 0
  {
    hide Record;
    if calls != [] {
      ReportedIsLostAtPoll(w, Init(calls), id);
      var m := RunCalls(w, Init(calls));
      if Last(calls).Arrive? && id in m {
        RecordKeepsReported(w, m[id], Last(calls).s);
      }
    }
  }

  /** One poll, from the two losses alone: a producer is reported if and only if its loss is higher
      than at the poll before, by how much it is higher; and polling changes no loss. */
  lemma PollDeltaExactly(w: nat, calls: seq<Call>, id: string)
    ensures
      var deltas, now, before := Deltas(RunCalls(w, calls)), LostAfter(w, calls, id), LostAtPoll(w, calls, id);
      (id in deltas <==> now > before) && (now > before ==> deltas[id] == now - before)
    ensures LostAfter(w, calls + [Poll], id) == LostAfter(w, calls, id)
  {
    hide RunCalls, LostAtPoll;
    ReportedIsLostAtPoll(w, calls, id);
    AfterPoll(w, calls);
  }

  lemma AfterPoll(w: nat, calls: seq<Call>)
    ensures RunCalls(w, calls + [Poll]) == PollAll(RunCalls(w, calls))
  {
    hide Record;
    assert Init(calls + [Poll]) == calls;
  }

  /** Over any mix of arrivals and polls, what was reported is what stands plus what fell. */
  lemma {:induction false} ReportedTelescopes(w: nat, calls: seq<Call>, id: string)
    ensures Reported(w, calls, id) ==
            Fallen(w, calls, id) + (if id in RunCalls(w, calls) then RunCalls(w, calls)[id].lastReported else 0)
  {
    hide Record;
    if calls != [] {
      ReportedTelescopes(w, Init(calls), id);
      var m := RunCalls(w, Init(calls));
      if Last(calls).Arrive? && id in m {
        RecordKeepsReported(w, m[id], Last(calls).s);
      }
    }
  }

  // ---- producers do not interfere ------------------------------------------

  /** The calls that can touch one producer. */
  function CallsOf(calls: seq<Call>, id: string): seq<Call> {
    if calls == [] then []
    else if Last(calls).Arrive? && Last(calls).id != id then CallsOf(Init(calls), id)
    else CallsOf(Init(calls), id) + [Last(calls)]
  }

  predicate SameFor(m: Producers, n: Producers, id: string) {
    (id in m <==> id in n) && (id in m ==> m[id] == n[id])
  }

  lemma SameForSelf(m: Producers, id: string)
    ensures SameFor(m, m, id)
  {
  }

  lemma OwnCallKeepsSame(w: nat, m: Producers, n: Producers, c: Call, id: string)
    requires SameFor(m, n, id) && (c.Arrive? ==> c.id == id)
    ensures SameFor(Apply(w, m, c), Apply(w, n, c), id)
  {
    hide Record;
  }

  lemma OtherCallKeepsSame(w: nat, m: Producers, n: Producers, c: Call, id: string)
    requires SameFor(m, n, id) && c.Arrive? && c.id != id
    ensures SameFor(Apply(w, m, c), n, id)
  {
    hide Record;
  }

  /** A producer's record is the same as if the other producers did not exist. */
  lemma {:induction false} ProducersDoNotInterfere(w: nat, calls: seq<Call>, id: string)
    ensures SameFor(RunCalls(w, calls), RunCalls(w, CallsOf(calls, id)), id)
  {
    hide Apply, SameFor;
    if calls == [] {
      SameForSelf(map[], id);
    } else {
      var before, own, c := Init(calls), CallsOf(Init(calls), id), Last(calls);
      ProducersDoNotInterfere(w, before, id);
      if c.Arrive? && c.id != id {
        OtherCallKeepsSame(w, RunCalls(w, before), RunCalls(w, own), c, id);
      } else {
        OwnCallKeepsSame(w, RunCalls(w, before), RunCalls(w, own), c, id);
        assert Init(own + [c]) == own;
      }
    }
  }

  function ArrivalsOf(calls: seq<Call>, id: string): seq<nat> {
    if calls == [] then []
    else if Last(calls).Arrive? && Last(calls).id == id then ArrivalsOf(Init(calls), id) + [Last(calls).s]
    else ArrivalsOf(Init(calls), id)
  }

  lemma RecordIgnoresReported(w: nat, p: Producer, s: nat, x: nat)
    ensures Record(w, p.(lastReported := x), s) == Record(w, p, s).(lastReported := x)
  {
  }

  /** Inside a busy tracker each producer's record is `Run` of its own arrivals, so everything
      proved about a run holds of it whatever polls and other producers come between. */
  lemma {:induction false} RecordIsOwnRun(w: nat, calls: seq<Call>, id: string)
    ensures id in RunCalls(w, calls) <==> ArrivalsOf(calls, id) != []
    ensures id in RunCalls(w, calls) ==>
              RunCalls(w, calls)[id].(lastReported := 0) == Run(w, ArrivalsOf(calls, id))
  {
    hide Record;
    if calls != [] {
      RecordIsOwnRun(w, Init(calls), id);
      var m, own := RunCalls(w, Init(calls)), ArrivalsOf(Init(calls), id);
      if Last(calls).Arrive? && Last(calls).id == id {
        var s := Last(calls).s;
        assert Init(own + [s]) == own;
        if id in m { RecordIgnoresReported(w, m[id], s, 0); }
      }
    }
  }

  // ---- totals --------------------------------------------------------------

  /** An arrival moves a total by exactly what it moves its own producer's counter. */
  lemma SumAfterArrival(w: nat, m: Producers, f: Producer -> nat, id: string, s: nat)
    ensures Sum(ArriveAt(w, m, id, s), f) - f(ArriveAt(w, m, id, s)[id]) ==
            Sum(m, f) - (if id in m then f(m[id]) else 0)
  {
    var n := ArriveAt(w, m, id, s);
    SumWithout(n, f, id);
    if id in m { SumWithout(m, f, id); }
    assert n - {id} == m - {id};
    assert id !in m ==> m - {id} == m;
  }
}
