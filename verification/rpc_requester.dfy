/** The requester's own loop, one goroutine, against whatever its environment answers. */
module RpcRequester {
  import opened Basics
  import opened Envelope
  import opened Rpc
  import Crc32

  /** What one turn of the loop meets: the outcome of the dial if there is no connection, then of
      the send, then of the wait for the reply. */
  datatype Turn = Turn(dialed: Option<string>, body: seq<bv8>, now: int, result: SendResult, answer: Answer)

  function RoundTrip(r: Requester, t: Turn): Requester {
    var sent := AfterSend(r, 0, t.body, t.now, t.result);
    if t.result.Delivered? then AfterAnswer(true, sent, t.answer) else sent
  }

  /** One turn, on values. */
  function AfterTurn(r: Requester, t: Turn): Requester {
    if r.phase.Stopped? then r
    else if r.node.None? && t.dialed.None? then r
    else RoundTrip(if r.node.None? then r.(node := t.dialed) else r, t)
  }

  /** All turns in a row; a stopped requester takes no further one. */
  function AfterTurns(r: Requester, turns: seq<Turn>): Requester {
    if turns == [] then r else AfterTurn(AfterTurns(r, Init(turns)), Last(turns))
  }

  lemma {:induction false} StaysStopped(r: Requester, turns: seq<Turn>, n: nat)
    requires n <= |turns| && AfterTurns(r, turns[..n]).phase.Stopped?
    ensures AfterTurns(r, turns) == AfterTurns(r, turns[..n])
  {
    hide RoundTrip;
    if n < |turns| {
      assert Init(turns)[..n] == turns[..n];
      StaysStopped(r, Init(turns), n);
    } else {
      assert turns[..n] == turns;
    }
  }

  lemma SendBalanced(r: Requester, t: Turn)
    requires Balanced(r) && r.phase.Idle?
    ensures
      var sent := AfterSend(r, 0, t.body, t.now, t.result);
      Balanced(sent) && (sent.phase.Awaiting? <==> t.result.Delivered?)
  {
  }

  lemma AnswerBalanced(r: Requester, answer: Answer)
    requires Balanced(r) && r.phase.Awaiting?
    ensures Balanced(AfterAnswer(true, r, answer)) && !AfterAnswer(true, r, answer).phase.Awaiting?
  {
    hide AccountReply, CorrelationId;
  }

  lemma TurnBalanced(r: Requester, t: Turn)
    requires Balanced(r) && !r.phase.Awaiting?
    ensures Balanced(AfterTurn(r, t)) && !AfterTurn(r, t).phase.Awaiting?
  {
    hide AfterSend, AfterAnswer;
    if r.phase.Idle? {
      var ready := if r.node.None? then r.(node := t.dialed) else r;
      SendBalanced(ready, t);
      if t.result.Delivered? { AnswerBalanced(AfterSend(ready, 0, t.body, t.now, t.result), t.answer); }
    }
  }

  /** Attempts = successes + timeouts + errors + cancelled, with at most one cancelled, after any
      turns against any environment, faithful or not. */
  lemma {:induction false} AttemptsConserved(r: Requester, turns: seq<Turn>)
    requires Balanced(r) && !r.phase.Awaiting?
    ensures Balanced(AfterTurns(r, turns)) && !AfterTurns(r, turns).phase.Awaiting?
  {
    if turns != [] {
      hide AfterTurn, Balanced;
      AttemptsConserved(r, Init(turns));
      TurnBalanced(AfterTurns(r, Init(turns)), Last(turns));
    }
  }

  // ---- which counter each outcome moves ------------------------------------

  /** How a turn ended for a requester that met it in a given state. */
  datatype Fate =
    | NotTaken                  // stopped, or no connection
    | SendFailed
    | TimedOut
    | LinkBroken
    | Cancelled
    | Answered(reply: Message)

  function FateOf(stopped: bool, connected: bool, t: Turn): Fate {
    if stopped || (!connected && t.dialed.None?) then NotTaken
    else if t.result.Failed? then SendFailed
    else if t.result.Aborted? then Cancelled
    else
      match t.answer
      case Replied(reply) => Answered(reply)
      case NoReply => TimedOut
      case Broken => LinkBroken
      case Interrupted => Cancelled
  }

  /** The fate of every turn: a requester is connected after an answer, or as it was when it took no
      turn, and stopped after a cancelled one. */
  function Fates(r: Requester, turns: seq<Turn>): (fates: seq<Fate>)
    ensures |fates| == |turns|
  {
    if turns == [] then []
    else
      var before := Fates(r, Init(turns));
      before + [FateOf(StoppedAfter(r, before), ConnectedAfter(r, before), Last(turns))]
  }

  predicate StoppedAfter(r: Requester, fates: seq<Fate>) {
    r.phase.Stopped? || exists i :: 0 <= i < |fates| && fates[i].Cancelled?
  }

  predicate ConnectedAfter(r: Requester, fates: seq<Fate>) {
    if fates == [] then r.node.Some?
    else Last(fates).Answered? || (Last(fates).NotTaken? && ConnectedAfter(r, Init(fates)))
  }

  datatype Kind = IsTaken | IsSendFailed | IsTimedOut | IsLinkBroken | IsCancelled | IsAnswered

  predicate Is(f: Fate, kind: Kind) {
    match kind
    case IsTaken => !f.NotTaken?
    case IsSendFailed => f.SendFailed?
    case IsTimedOut => f.TimedOut?
    case IsLinkBroken => f.LinkBroken?
    case IsCancelled => f.Cancelled?
    case IsAnswered => f.Answered?
  }

  function Count(fates: seq<Fate>, kind: Kind): nat {
    if fates == [] then 0 else Count(Init(fates), kind) + (if Is(Last(fates), kind) then 1 else 0)
  }

  /** The replies that came with the right correlation id; request number i of a run carries the
      number of turns taken up to it. */
  function Matching(channel: string, c: nat, fates: seq<Fate>): seq<Message> {
    if fates == [] then []
    else
      var before := Matching(channel, c, Init(fates));
      if Last(fates).Answered? && CorrelationString(Last(fates).reply) == CorrelationId(channel, c + Taken(fates))
      then before + [Last(fates).reply] else before
  }

  function Taken(fates: seq<Fate>): nat { Count(fates, IsTaken) }

  /** Of those, the ones that count as executed. */
  function Executed(verifyOutcome: bool, replies: seq<Message>): seq<Message> {
    if replies == [] then []
    else
      var before := Executed(verifyOutcome, Init(replies));
      if verifyOutcome && !CommandExecuted(Last(replies)) then before else before + [Last(replies)]
  }

  /** What the counters must be, from the fates alone. */
  ghost predicate CountedBy(r: Requester, fates: seq<Fate>, after: Requester) {
    var matching := Matching(r.channel, r.c, fates);
    var executed := Executed(r.verifyOutcome, matching);
    var answered := Count(fates, IsAnswered);
    && after.channel == r.channel && after.verifyOutcome == r.verifyOutcome
    && after.s == r.s + Taken(fates) && after.c == r.c + Taken(fates)
    && after.timedOut == r.timedOut + Count(fates, IsTimedOut)
    && after.cancelled == r.cancelled + Count(fates, IsCancelled)
    && after.succeeded == r.succeeded + |executed|
    && after.mismatched == r.mismatched + answered - |matching|
    && after.errors == r.errors + Count(fates, IsSendFailed) + Count(fates, IsLinkBroken) + answered - |executed|
    && !after.phase.Awaiting? && after.phase.Stopped? == StoppedAfter(r, fates)
    && after.node.Some? == ConnectedAfter(r, fates)
  }

  lemma CountSnoc(fates: seq<Fate>, f: Fate, kind: Kind)
    ensures Count(fates + [f], kind) == Count(fates, kind) + (if Is(f, kind) then 1 else 0)
  {
    hide Is;
    assert Init(fates + [f]) == fates;
  }

  lemma CountsSnoc(fates: seq<Fate>, f: Fate)
    ensures forall kind :: Count(fates + [f], kind) == Count(fates, kind) + (if Is(f, kind) then 1 else 0)
  {
    hide Count, Is;
    forall kind ensures Count(fates + [f], kind) == Count(fates, kind) + (if Is(f, kind) then 1 else 0) {
      CountSnoc(fates, f, kind);
    }
  }

  lemma MatchingSnoc(r: Requester, fates: seq<Fate>, f: Fate)
    ensures
      var before, after := Matching(r.channel, r.c, fates), Matching(r.channel, r.c, fates + [f]);
      var known, kept := Executed(r.verifyOutcome, before), Executed(r.verifyOutcome, after);
      if f.Answered? && CorrelationString(f.reply) == CorrelationId(r.channel, r.c + Taken(fates + [f])) then
        && |after| == |before| + 1
        && |kept| == |known| + (if r.verifyOutcome && !CommandExecuted(f.reply) then 0 else 1)
      else after == before
  {
    hide CorrelationString, CorrelationId, CommandExecuted, Taken;
    assert Init(fates + [f]) == fates;
    if f.Answered? && CorrelationString(f.reply) == CorrelationId(r.channel, r.c + Taken(fates + [f])) {
      var before := Matching(r.channel, r.c, fates);
      assert Init(before + [f.reply]) == before;
    }
  }

  lemma StatusSnoc(r: Requester, fates: seq<Fate>, f: Fate)
    ensures StoppedAfter(r, fates + [f]) <==> StoppedAfter(r, fates) || f.Cancelled?
    ensures ConnectedAfter(r, fates + [f]) <==> f.Answered? || (f.NotTaken? && ConnectedAfter(r, fates))
  {
    assert Init(fates + [f]) == fates;
    var more := fates + [f];
    assert more[|fates|] == f && forall i | 0 <= i < |fates| :: more[i] == fates[i];
  }

  /** What one turn does, told by its fate. */
  ghost predicate ByFate(x: Requester, f: Fate, after: Requester) {
    && (f.NotTaken? ==> after == x)
    && (!f.NotTaken? ==>
          && x.phase.Idle? && after.s == x.s + 1 && after.c == x.c + 1
          && after.channel == x.channel && after.verifyOutcome == x.verifyOutcome
          && after.phase == (if f.Cancelled? then Stopped else Idle) && after.node.Some? == f.Answered?
          && after.timedOut == x.timedOut + (if f.TimedOut? then 1 else 0)
          && after.cancelled == x.cancelled + (if f.Cancelled? then 1 else 0))
    && (!f.NotTaken? && !f.Answered? ==>
          && after.succeeded == x.succeeded && after.mismatched == x.mismatched
          && after.errors == x.errors + (if f.SendFailed? || f.LinkBroken? then 1 else 0))
    && (f.Answered? ==>
          var matched := CorrelationString(f.reply) == CorrelationId(x.channel, x.c + 1);
          var executed := matched && !(x.verifyOutcome && !CommandExecuted(f.reply));
          && after.succeeded == x.succeeded + (if executed then 1 else 0)
          && after.mismatched == x.mismatched + (if matched then 0 else 1)
          && after.errors == x.errors + (if executed then 0 else 1))
  }

  lemma AnswerByFate(x: Requester, t: Turn)
    requires x.phase.Idle? && x.node.Some? && t.result.Delivered?
    ensures ByFate(x, FateOf(false, true, t), AfterAnswer(true, AfterSend(x, 0, t.body, t.now, t.result), t.answer))
  {
    hide CorrelationString, CorrelationId, CommandExecuted, ExtractMeta, Crc32.VerifyCrc;
  }

  lemma UnsentByFate(x: Requester, t: Turn)
    requires x.phase.Idle? && x.node.Some? && !t.result.Delivered?
    ensures ByFate(x, FateOf(false, true, t), AfterSend(x, 0, t.body, t.now, t.result))
  {
    hide AccountReply;
  }

  lemma DialedAway(x: Requester, node: Option<string>, f: Fate, after: Requester)
    requires ByFate(x.(node := node), f, after) && !f.NotTaken?
    ensures ByFate(x, f, after)
  {
    hide CorrelationString, CorrelationId, CommandExecuted;
  }

  lemma TurnByFate(x: Requester, t: Turn)
    requires !x.phase.Awaiting?
    ensures ByFate(x, FateOf(x.phase.Stopped?, x.node.Some?, t), AfterTurn(x, t))
  {
    hide AfterSend, AfterAnswer, CorrelationString, CorrelationId, CommandExecuted;
    var f := FateOf(x.phase.Stopped?, x.node.Some?, t);
    if !f.NotTaken? {
      var ready := if x.node.None? then x.(node := t.dialed) else x;
      if t.result.Delivered? { AnswerByFate(ready, t); } else { UnsentByFate(ready, t); }
      assert ready == x.(node := ready.node);
      DialedAway(x, ready.node, f, AfterTurn(x, t));
    }
  }

  lemma TurnCounted(r: Requester, fates: seq<Fate>, x: Requester, t: Turn)
    requires CountedBy(r, fates, x)
    ensures CountedBy(r, fates + [FateOf(StoppedAfter(r, fates), ConnectedAfter(r, fates), t)], AfterTurn(x, t))
  {
    hide FateOf, AfterTurn, Count, Matching, Executed, StoppedAfter, ConnectedAfter, CorrelationString, CorrelationId,
      CommandExecuted;
    var f := FateOf(StoppedAfter(r, fates), ConnectedAfter(r, fates), t);
    TurnByFate(x, t);
    CountsSnoc(fates, f);
    MatchingSnoc(r, fates, f);
    StatusSnoc(r, fates, f);
  }

  /** After any turns against any environment each counter is the number of turns of its kind:
      timeouts of timeouts, errors of failed sends, broken links and replies that did not match or
      were not executed, successes of the rest. */
  lemma {:induction false} CountersFromFates(r: Requester, turns: seq<Turn>)
    requires !r.phase.Awaiting?
    ensures CountedBy(r, Fates(r, turns), AfterTurns(r, turns))
  {
    hide AfterTurn, FateOf, CountedBy, StoppedAfter, ConnectedAfter;
    if turns == [] {
      NothingCounted(r);
    } else {
      CountersFromFates(r, Init(turns));
      TurnCounted(r, Fates(r, Init(turns)), AfterTurns(r, Init(turns)), Last(turns));
    }
  }

  lemma NothingCounted(r: Requester)
    requires !r.phase.Awaiting?
    ensures CountedBy(r, [], r)
  {
  }

  class Loop {
    const channel: string
    const verifyOutcome: bool
    var node: Option<string>
    var s: nat
    var c: nat
    var succeeded: nat
    var timedOut: nat
    var errors: nat
    var corrupted: nat
    var tracked: seq<(string, nat)>
    ghost var mismatched: nat
    ghost var cancelled: nat

    ghost function Abs(phase: Phase): Requester
      reads this
    {
      Requester(channel, verifyOutcome, node, phase, s, c, succeeded, timedOut, errors, cancelled, mismatched,
                corrupted, tracked)
    }

    constructor (channel: string, verifyOutcome: bool)
      ensures Abs(Idle) == Requester(channel, verifyOutcome, None, Idle, 0, 0, 0, 0, 0, 0, 0, 0, [])
    {
      this.channel, this.verifyOutcome, node := channel, verifyOutcome, None;
      s, c, succeeded, timedOut, errors, corrupted, tracked := 0, 0, 0, 0, 0, 0, [];
      mismatched, cancelled := 0, 0;
    }

    method Account(reply: Message, wantCorr: string)
      modifies this
      ensures Abs(Idle) == Accounted(old(Abs(Idle)), AccountReply(verifyOutcome, reply, wantCorr))
    {
      hide ExtractMeta, CorrelationString, Crc32.VerifyCrc;
      if CorrelationString(reply) != wantCorr {
        errors := errors + 1;
        mismatched := mismatched + 1;
        return;
      }
      if verifyOutcome && !CommandExecuted(reply) {
        errors := errors + 1;
        return;
      }
      var meta := ExtractMeta(reply);
      if meta.ok {
        if meta.tag != "" && !Crc32.VerifyCrc(reply.body, meta.tag) {
          corrupted := corrupted + 1;
        }
        tracked := tracked + [(meta.producer, meta.s)];
      }
      succeeded := succeeded + 1;
    }

    /** One round trip; false asks the caller to rebuild the links, or to stop when cancelled. */
    method DoOne(t: Turn) returns (ok: bool, stop: bool)
      requires node.Some?
      modifies this
      ensures ok ==> !stop && Abs(Idle) == RoundTrip(old(Abs(Idle)), t)
      ensures !ok ==> RoundTrip(old(Abs(Idle)), t) == if stop then Halted(Abs(Idle)) else TornDown(Abs(Idle))
    {
      hide AccountReply;
      s, c := s + 1, c + 1;
      if t.result.Failed? {
        errors := errors + 1;
        return false, false;
      }
      if t.result.Aborted? {
        cancelled := cancelled + 1;
        return false, true;
      }
      match t.answer {
        case Interrupted =>
          cancelled := cancelled + 1;
          return false, true;
        case NoReply =>
          timedOut := timedOut + 1;
          return false, false;
        case Broken =>
          errors := errors + 1;
          return false, false;
        case Replied(reply) =>
          Account(reply, CorrelationId(channel, c));
          return true, false;
      }
    }

    /** The loop, until a turn is cancelled or the run is stopped between turns; the links are down
        when it returns. */
    method Run(turns: seq<Turn>)
      modifies this
      ensures Abs(Stopped) == Halted(AfterTurns(old(Abs(Idle)), turns))
    {
      hide RoundTrip;
      for n := 0 to |turns|
        invariant AfterTurns(old(Abs(Idle)), turns[..n]) == Abs(Idle)
      {
        var t := turns[n];
        assert Init(turns[..n + 1]) == turns[..n];
        if node.None? {
          node := t.dialed;
          if node.None? { continue; }
        }
        var ok, stop := DoOne(t);
        if !ok {
          node := None;
          if stop {
            StaysStopped(old(Abs(Idle)), turns, n + 1);
            return;
          }
        }
      }
      assert turns[..|turns|] == turns;
      node := None;
    }
  }
}
