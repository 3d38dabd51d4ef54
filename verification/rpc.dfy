/** Request and reply over a dynamic reply node: any number of requesters sharing one channel, the
    responders that serve it, and a network that delays, reorders and loses messages. One request
    gets at most one reply, sent to the node the request named; the server never hands out one
    reply-node address twice. */
module Rpc {
  import opened Basics
  import opened Envelope
  import Crc32

  const EXECUTED := "x-opt-kubemq-executed"
  const ERROR := "x-opt-kubemq-error"

  // ---- one round trip ------------------------------------------------------

  function CorrelationId(channel: string, n: nat): string { channel + "-" + FormatUint(n) }

  /** Request number c with sequence s, to be answered at the given reply node. */
  function BuildRequest(channel: string, s: nat, c: nat, node: string, body: seq<bv8>, now: int): Message {
    BuildMessage(channel, s, body, Crc32.Tag(body), now).(
      properties := Some(Properties(None, Some(node), Some(Str(CorrelationId(channel, c))), None)))
  }

  predicate Answerable(req: Message) {
    req.properties.Some? && req.properties.value.replyTo.Some?
  }

  /** The responder's reply: the body and the envelope echoed, the correlation id too, with the
      message id in its place when there is none. */
  function BuildReply(withOutcome: bool, req: Message): Message
    requires Answerable(req)
  {
    var p := req.properties.value;
    var echoed :=
      match req.app
      case None => map[]
      case Some(app) =>
        map[WORKER_ID := Lookup(app, WORKER_ID), SEQUENCE := Lookup(app, SEQUENCE),
            CONTENT_HASH := Lookup(app, CONTENT_HASH), TIMESTAMP_NS := Lookup(app, TIMESTAMP_NS)];
    Message(
      req.body,
      Some(if withOutcome then echoed[EXECUTED := Flag(true)][ERROR := Str("")] else echoed),
      Some(Properties(p.replyTo, None, if p.correlationId.Some? then p.correlationId else p.messageId, None)))
  }

  function CorrelationString(m: Message): string {
    if m.properties.None? || m.properties.value.correlationId.None? then ""
    else AsString(m.properties.value.correlationId.value)
  }

  predicate CommandExecuted(m: Message) {
    m.app.Some? && Lookup(m.app.value, EXECUTED) == Flag(true)
  }

  datatype Outcome = Mismatched | NotExecuted | Succeeded(corrupted: bool, tracked: Option<(string, nat)>)

  function AccountReply(verifyOutcome: bool, reply: Message, wantCorr: string): Outcome {
    if CorrelationString(reply) != wantCorr then Mismatched
    else if verifyOutcome && !CommandExecuted(reply) then NotExecuted
    else
      var meta := ExtractMeta(reply);
      if meta.ok then
        Succeeded(meta.tag != "" && !Crc32.VerifyCrc(reply.body, meta.tag), Some((meta.producer, meta.s)))
      else Succeeded(false, None)
  }

  lemma ReplyMeta(withOutcome: bool, req: Message)
    requires Answerable(req) && req.app.Some?
    ensures ExtractMeta(BuildReply(withOutcome, req)) == ExtractMeta(req)
  {
  }

  /** The reply to a request is accepted by the requester that sent it: right correlation id,
      executed, not corrupted, and tracked under the sequence that was sent. */
  lemma OwnReplyAccepted(withOutcome: bool, verifyOutcome: bool, channel: string, s: nat, c: nat, node: string,
                         body: seq<bv8>, now: int)
    requires verifyOutcome ==> withOutcome
    requires channel != "" && s <= MAX_U64 && -MAX_I64 - 1 <= now <= MAX_I64
    ensures AccountReply(verifyOutcome, BuildReply(withOutcome, BuildRequest(channel, s, c, node, body, now)),
                         CorrelationId(channel, c)) == Succeeded(false, Some((channel, s)))
  {
    hide BuildReply, BuildMessage, AccountReply, Crc32.Tag, CorrelationId, ExtractMeta, Crc32.Checksum, Crc32.Hex;
    var reply := BuildReply(withOutcome, BuildRequest(channel, s, c, node, body, now));
    OwnReplyFields(withOutcome, channel, s, c, node, body, now);
    AccountsAs(verifyOutcome, reply, CorrelationId(channel, c));
    TagVerifies(withOutcome, channel, s, c, node, body, now);
  }

  /** A reply whose body was altered on the way, in up to four adjacent bytes, is still a success
      under its sequence, and is recorded as corrupted if and only if a byte is different. */
  lemma AlteredReplyCorrupted(withOutcome: bool, verifyOutcome: bool, channel: string, s: nat, c: nat, node: string,
                              p: seq<bv8>, u: seq<bv8>, v: seq<bv8>, q: seq<bv8>, now: int)
    requires verifyOutcome ==> withOutcome
    requires channel != "" && s <= MAX_U64 && -MAX_I64 - 1 <= now <= MAX_I64 && |u| == |v| <= 4
    ensures
      var reply := BuildReply(withOutcome, BuildRequest(channel, s, c, node, p + u + q, now));
      AccountReply(verifyOutcome, reply.(body := p + v + q), CorrelationId(channel, c)) ==
      Succeeded(u != v, Some((channel, s)))
  {
    hide BuildReply, BuildMessage, AccountReply, Crc32.VerifyCrc, Crc32.Tag, CorrelationId, ExtractMeta;
    var body := p + u + q;
    var reply := BuildReply(withOutcome, BuildRequest(channel, s, c, node, body, now));
    OwnReplyFields(withOutcome, channel, s, c, node, body, now);
    Crc32.AlteredBytesRejected(p, u, v, q);
    TagNotEmpty(body);
    MetaIgnoresBody(reply, p + v + q);
    AccountsAs(verifyOutcome, reply.(body := p + v + q), CorrelationId(channel, c));
  }

  lemma TagVerifies(withOutcome: bool, channel: string, s: nat, c: nat, node: string, body: seq<bv8>, now: int)
    ensures Crc32.VerifyCrc(BuildReply(withOutcome, BuildRequest(channel, s, c, node, body, now)).body, Crc32.Tag(body))
  {
    hide Crc32.Checksum, Crc32.Hex;
  }

  lemma MetaIgnoresBody(m: Message, body: seq<bv8>)
    ensures ExtractMeta(m.(body := body)) == ExtractMeta(m)
  {
  }

  lemma TagNotEmpty(body: seq<bv8>)
    ensures Crc32.Tag(body) != ""
  {
    hide Crc32.Checksum;
    Crc32.HexRoundTrip(Crc32.Checksum(body));
  }

  /** What a requester reads from the reply to its own request. */
  lemma OwnReplyFields(withOutcome: bool, channel: string, s: nat, c: nat, node: string, body: seq<bv8>, now: int)
    requires channel != "" && s <= MAX_U64 && -MAX_I64 - 1 <= now <= MAX_I64
    ensures
      var reply := BuildReply(withOutcome, BuildRequest(channel, s, c, node, body, now));
      && CorrelationString(reply) == CorrelationId(channel, c) && (withOutcome ==> CommandExecuted(reply))
      && ExtractMeta(reply) == Meta(channel, s, Crc32.Tag(body), if now > 0 then Some(now) else None, true)
  {
    hide Crc32.Tag, FormatUint, FormatInt, ParseDigits;
    var req := BuildRequest(channel, s, c, node, body, now);
    ReplyMeta(withOutcome, req);
    EnvelopeRoundTrip(channel, s, body, Crc32.Tag(body), now);
    assert ExtractMeta(req) == ExtractMeta(BuildMessage(channel, s, body, Crc32.Tag(body), now));
  }

  lemma AccountsAs(verifyOutcome: bool, reply: Message, wantCorr: string)
    requires CorrelationString(reply) == wantCorr && (verifyOutcome ==> CommandExecuted(reply)) && ExtractMeta(reply).ok
    ensures
      var meta := ExtractMeta(reply);
      AccountReply(verifyOutcome, reply, wantCorr) ==
      Succeeded(meta.tag != "" && !Crc32.VerifyCrc(reply.body, meta.tag), Some((meta.producer, meta.s)))
  {
    hide ExtractMeta, CorrelationString, Crc32.VerifyCrc, CommandExecuted;
  }

  /** So the requester's counters move by one success, by one corrupted reply if and only if a byte
      is different, and by no error, and its tracker is given the sequence sent. */
  lemma AlteredReplyMoves(withOutcome: bool, r: Requester, node: string, p: seq<bv8>, u: seq<bv8>, v: seq<bv8>,
                          q: seq<bv8>, now: int)
    requires (r.verifyOutcome ==> withOutcome) && r.channel != "" && r.s <= MAX_U64
    requires -MAX_I64 - 1 <= now <= MAX_I64 && |u| == |v| <= 4
    ensures
      var reply := BuildReply(withOutcome, BuildRequest(r.channel, r.s, r.c, node, p + u + q, now));
      Accounted(r, AccountReply(r.verifyOutcome, reply.(body := p + v + q), CorrelationId(r.channel, r.c))) ==
      r.(succeeded := r.succeeded + 1, corrupted := if u == v then r.corrupted else r.corrupted + 1,
         tracked := r.tracked + [(r.channel, r.s)])
  {
    hide BuildReply, BuildMessage, AccountReply;
    AlteredReplyCorrupted(withOutcome, r.verifyOutcome, r.channel, r.s, r.c, node, p, u, v, q, now);
  }

  /** A correlated reply that carries anything but `true` as its executed property, or carries no
      such property, moves the error counter alone where outcomes are verified, and is a success
      where they are not. */
  lemma UnexecutedIsError(r: Requester, reply: Message, c: nat)
    requires CorrelationString(reply) == CorrelationId(r.channel, c)
    requires reply.app.None? || EXECUTED !in reply.app.value || reply.app.value[EXECUTED] != Flag(true)
    ensures
      var after := Accounted(r, AccountReply(r.verifyOutcome, reply, CorrelationId(r.channel, c)));
      && (r.verifyOutcome ==> after == r.(errors := r.errors + 1))
      && (!r.verifyOutcome ==> after.succeeded == r.succeeded + 1 && after.errors == r.errors)
  {
    hide ExtractMeta, CorrelationString, CorrelationId, Crc32.VerifyCrc;
  }

  /** And one that carries `true` is a success either way. */
  lemma ExecutedIsSuccess(r: Requester, reply: Message, c: nat)
    requires CorrelationString(reply) == CorrelationId(r.channel, c)
    requires reply.app.Some? && EXECUTED in reply.app.value && reply.app.value[EXECUTED] == Flag(true)
    ensures
      var after := Accounted(r, AccountReply(r.verifyOutcome, reply, CorrelationId(r.channel, c)));
      after.succeeded == r.succeeded + 1 && after.errors == r.errors && after.mismatched == r.mismatched
  {
    hide ExtractMeta, CorrelationString, CorrelationId, Crc32.VerifyCrc;
  }

  // ---- requesters, responders and the network ------------------------------

  datatype Phase = Idle | Awaiting(id: nat, body: seq<bv8>, now: int) | Stopped

  datatype Requester = Requester(
    channel: string,
    verifyOutcome: bool,
    node: Option<string>,   // the reply node of the live links, None when they are torn down
    phase: Phase,
    s: nat,                 // sequence counter
    c: nat,                 // correlation counter
    succeeded: nat,
    timedOut: nat,
    errors: nat,
    cancelled: nat,
    mismatched: nat,        // replies that carried another request's correlation id
    corrupted: nat,
    tracked: seq<(string, nat)>)  // what the sequence tracker was given, in order

  /** Messages in flight are keyed by the send they stem from; neither side sees the key. */
  datatype System = System(
    withOutcome: bool,
    rebuild: bool,          // links are torn down after a timeout
    requesters: map<nat, Requester>,
    used: set<string>,      // reply-node addresses handed out so far
    sends: nat,
    requests: map<nat, Message>,
    replies: map<nat, Message>)

  /** How Send returned; a send that failed may still have reached the network. */
  datatype SendResult = Delivered | Failed(posted: bool) | Aborted(posted: bool)

  datatype Action =
    | Connect(node: string)
    | Send(body: seq<bv8>, now: int, result: SendResult)
    | Receive(k: nat)
    | TimeOut
    | LinkFailure
    | Cancel

  datatype Event = By(i: nat, act: Action) | Serve(k: nat) | DropRequest(k: nat) | LoseReply(k: nat)

  function Request(r: Requester, body: seq<bv8>, now: int): Message
    requires r.node.Some?
  {
    BuildRequest(r.channel, r.s, r.c, r.node.value, body, now)
  }

  /** doOne's first lines: two counters move and the request is built. */
  function Minted(r: Requester): Requester { r.(s := r.s + 1, c := r.c + 1) }

  function TornDown(r: Requester): Requester { r.(node := None, phase := Idle) }

  predicate SentTo(m: Message, node: string) {
    m.properties.Some? && m.properties.value.to == Some(node)
  }

  predicate RepliesTo(m: Message, node: string) {
    m.properties.Some? && m.properties.value.replyTo == Some(node)
  }

  predicate CanAct(sys: System, r: Requester, act: Action) {
    match act
    case Connect(node) => r.phase.Idle? && r.node.None? && node != "" && node !in sys.used
    case Send(_, now, _) =>
      r.phase.Idle? && r.node.Some? && r.s < MAX_U64 && -MAX_I64 - 1 <= now <= MAX_I64
    case Receive(k) =>
      r.phase.Awaiting? && r.node.Some? && k in sys.replies && SentTo(sys.replies[k], r.node.value)
    case TimeOut => r.phase.Awaiting?
    case LinkFailure => r.phase.Awaiting?
    case Cancel => !r.phase.Stopped?
  }

  predicate Enabled(sys: System, e: Event) {
    match e
    case By(i, act) => i in sys.requesters && CanAct(sys, sys.requesters[i], act)
    case Serve(k) => k in sys.requests && Answerable(sys.requests[k])
    case DropRequest(k) => k in sys.requests
    case LoseReply(k) => k in sys.replies
  }

  function Accounted(r: Requester, o: Outcome): Requester {
    match o
    case Mismatched => r.(errors := r.errors + 1, mismatched := r.mismatched + 1)
    case NotExecuted => r.(errors := r.errors + 1)
    case Succeeded(corrupted, tracked) =>
      r.(succeeded := r.succeeded + 1, corrupted := r.corrupted + (if corrupted then 1 else 0),
         tracked := if tracked.Some? then r.tracked + [tracked.value] else r.tracked)
  }

  /** The first half of an attempt, up to the wait for the reply. */
  function AfterSend(r: Requester, id: nat, body: seq<bv8>, now: int, result: SendResult): Requester {
    var m := Minted(r);
    match result
    case Delivered => m.(phase := Awaiting(id, body, now))
    case Failed(_) => TornDown(m).(errors := r.errors + 1)
    case Aborted(_) => Halted(m).(cancelled := r.cancelled + 1)
  }

  function Halted(r: Requester): Requester { TornDown(r).(phase := Stopped) }

  datatype Answer = Replied(reply: Message) | NoReply | Broken | Interrupted

  /** The second half: the reply, the timeout, a broken link or cancellation. */
  function AfterAnswer(rebuild: bool, r: Requester, answer: Answer): Requester {
    match answer
    case Replied(reply) =>
      Accounted(r, AccountReply(r.verifyOutcome, reply, CorrelationId(r.channel, r.c))).(phase := Idle)
    case NoReply => (if rebuild then TornDown(r) else r.(phase := Idle)).(timedOut := r.timedOut + 1)
    case Broken => TornDown(r).(errors := r.errors + 1)
    case Interrupted => Halted(r).(cancelled := r.cancelled + 1)
  }

  /** What an action does to the requester itself. */
  function Act(sys: System, r: Requester, act: Action): Requester
    requires CanAct(sys, r, act)
  {
    match act
    case Connect(node) => r.(node := Some(node))
    case Send(body, now, result) => AfterSend(r, sys.sends, body, now, result)
    case Receive(k) => AfterAnswer(sys.rebuild, r, Replied(sys.replies[k]))
    case TimeOut => AfterAnswer(sys.rebuild, r, NoReply)
    case LinkFailure => AfterAnswer(sys.rebuild, r, Broken)
    case Cancel => if r.phase.Awaiting? then AfterAnswer(sys.rebuild, r, Interrupted) else Halted(r)
  }

  predicate Posts(result: SendResult) { result.Delivered? || result.posted }

  /** What an action does to the network. */
  function Carry(sys: System, r: Requester, act: Action): System
    requires CanAct(sys, r, act)
  {
    match act
    case Connect(node) => sys.(used := sys.used + {node})
    case Send(body, now, result) =>
      sys.(sends := sys.sends + 1,
           requests := if Posts(result) then sys.requests[sys.sends := Request(Minted(r), body, now)]
                       else sys.requests)
    case Receive(k) => sys.(replies := sys.replies - {k})
    case _ => sys
  }

  function Apply(sys: System, e: Event): System
    requires Enabled(sys, e)
  {
    match e
    case By(i, act) =>
      var r := sys.requesters[i];
      Carry(sys, r, act).(requesters := sys.requesters[i := Act(sys, r, act)])
    case Serve(k) =>
      sys.(requests := sys.requests - {k},
           replies := sys.replies[k := BuildReply(sys.withOutcome, sys.requests[k])])
    case DropRequest(k) => sys.(requests := sys.requests - {k})
    case LoseReply(k) => sys.(replies := sys.replies - {k})
  }

  // ---- what every run keeps ------------------------------------------------

  /** Every attempt is accounted for exactly once; the one in flight is not accounted for yet. */
  ghost predicate Balanced(r: Requester) {
    && r.s == r.c == r.succeeded + r.timedOut + r.errors + r.cancelled + (if r.phase.Awaiting? then 1 else 0)
    && (r.cancelled == 0 || (r.cancelled == 1 && r.phase.Stopped?))
  }

  /** The tracker was given one sequence per success, each the requester's own and higher than all
      before it; the one in flight is still to come. */
  ghost predicate Filed(r: Requester) {
    && |r.tracked| == r.succeeded
    && (forall j | 0 <= j < |r.tracked| ::
          r.tracked[j].0 == r.channel && r.tracked[j].1 <= r.s && (r.phase.Awaiting? ==> r.tracked[j].1 < r.s))
    && (forall i, j | 0 <= i < j < |r.tracked| :: r.tracked[i].1 < r.tracked[j].1)
  }

  /** Messages on a live link stem from the one request that is being awaited. */
  ghost predicate LinkClean(sys: System, r: Requester) {
    && r.channel != "" && r.s <= MAX_U64 && (r.verifyOutcome ==> sys.withOutcome)
    && (r.phase.Awaiting? ==> r.node.Some? && -MAX_I64 - 1 <= r.phase.now <= MAX_I64)
    && (r.phase.Stopped? ==> r.node.None?)
    && (r.node.Some? ==> r.node.value in sys.used)
    && (forall k | k in sys.requests && r.node.Some? && RepliesTo(sys.requests[k], r.node.value) ::
          r.phase.Awaiting? && k == r.phase.id && sys.requests[k] == Request(r, r.phase.body, r.phase.now))
    && (forall k | k in sys.replies && r.node.Some? && SentTo(sys.replies[k], r.node.value) ::
          r.phase.Awaiting? && k == r.phase.id &&
          sys.replies[k] == BuildReply(sys.withOutcome, Request(r, r.phase.body, r.phase.now)))
  }

  ghost predicate NetworkOk(sys: System) {
    && sys.requests.Keys !! sys.replies.Keys
    && (forall k | k in sys.requests ::
          k < sys.sends && Answerable(sys.requests[k]) && sys.requests[k].properties.value.replyTo.value in sys.used)
    && (forall k | k in sys.replies ::
          k < sys.sends && sys.replies[k].properties.Some? && sys.replies[k].properties.value.to.Some? &&
          sys.replies[k].properties.value.to.value in sys.used)
    && (forall i, j | i in sys.requesters && j in sys.requesters && i != j && sys.requesters[i].node.Some? ::
          sys.requesters[i].node != sys.requesters[j].node)
  }

  ghost predicate Inv(sys: System) {
    && sys.rebuild && NetworkOk(sys)
    && (forall i | i in sys.requesters ::
          LinkClean(sys, sys.requesters[i]) && Balanced(sys.requesters[i]) && Filed(sys.requesters[i]) &&
          sys.requesters[i].mismatched == 0 && sys.requesters[i].corrupted == 0)
  }

  /** A reply that reaches a waiting requester is the reply to its current request: it matches, is
      executed and intact, and is tracked under the sequence just sent. */
  lemma RepliesNeverCross(sys: System, i: nat, k: nat)
    requires Inv(sys) && Enabled(sys, By(i, Receive(k)))
    ensures
      var r := sys.requesters[i];
      AccountReply(r.verifyOutcome, sys.replies[k], CorrelationId(r.channel, r.c)) ==
      Succeeded(false, Some((r.channel, r.s)))
  {
    hide AccountReply, BuildReply, BuildRequest, CorrelationId;
    var r := sys.requesters[i];
    OwnReplyAccepted(sys.withOutcome, r.verifyOutcome, r.channel, r.s, r.c, r.node.value, r.phase.body, r.phase.now);
  }

  lemma RequestAddress(r: Requester, withOutcome: bool, body: seq<bv8>, now: int)
    requires r.node.Some?
    ensures Answerable(Request(r, body, now)) && Request(r, body, now).properties.value.replyTo == r.node
    ensures
      var p := BuildReply(withOutcome, Request(r, body, now)).properties;
      p.Some? && p.value.to == r.node && p.value.replyTo == None
  {
    hide BuildMessage;
  }

  lemma SendKeepsLink(sys: System, i: nat, act: Action)
    requires Inv(sys) && Enabled(sys, By(i, act)) && act.Send?
    ensures LinkClean(Apply(sys, By(i, act)), Apply(sys, By(i, act)).requesters[i])
  {
    hide AccountReply, BuildReply, BuildRequest, Balanced, Filed;
    RequestAddress(Minted(sys.requesters[i]), sys.withOutcome, act.body, act.now);
  }

  lemma ReceiveKeepsLink(sys: System, i: nat, act: Action)
    requires Inv(sys) && Enabled(sys, By(i, act)) && act.Receive?
    ensures LinkClean(Apply(sys, By(i, act)), Apply(sys, By(i, act)).requesters[i])
  {
    hide AccountReply, BuildReply, BuildRequest, Balanced, Filed;
  }

  lemma ActKeepsLink(sys: System, i: nat, act: Action)
    requires Inv(sys) && Enabled(sys, By(i, act))
    ensures LinkClean(Apply(sys, By(i, act)), Apply(sys, By(i, act)).requesters[i])
  {
    hide AccountReply, BuildReply, BuildRequest, Balanced, Filed, Answerable;
    if act.Send? {
      SendKeepsLink(sys, i, act);
    } else if act.Receive? {
      ReceiveKeepsLink(sys, i, act);
    }
  }

  lemma ActKeepsFiled(sys: System, i: nat, act: Action)
    requires Inv(sys) && Enabled(sys, By(i, act))
    ensures Filed(Act(sys, sys.requesters[i], act))
  {
    hide AccountReply, LinkClean, NetworkOk, SentTo, Balanced;
    if act.Receive? { RepliesNeverCross(sys, i, act.k); }
  }

  lemma ActKeepsBalance(sys: System, i: nat, act: Action)
    requires Inv(sys) && Enabled(sys, By(i, act))
    ensures
      var r := Act(sys, sys.requesters[i], act);
      Balanced(r) && r.mismatched == 0 && r.corrupted == 0
  {
    hide AccountReply, LinkClean, NetworkOk, SentTo, Filed;
    if act.Receive? { RepliesNeverCross(sys, i, act.k); }
  }

  lemma ActKeepsOthers(sys: System, i: nat, act: Action, j: nat)
    requires Inv(sys) && Enabled(sys, By(i, act)) && j in sys.requesters && j != i
    ensures LinkClean(Apply(sys, By(i, act)), sys.requesters[j])
  {
    hide AccountReply, BuildReply, BuildRequest;
    var r := sys.requesters[i];
    if act.Send? { RequestAddress(Minted(r), sys.withOutcome, act.body, act.now); }
  }

  lemma ActMovesNode(sys: System, r: Requester, act: Action)
    requires CanAct(sys, r, act)
    ensures Act(sys, r, act).node == (if act.Connect? then Some(act.node) else r.node) || Act(sys, r, act).node.None?
  {
    hide AccountReply;
  }

  lemma ActKeepsNetwork(sys: System, i: nat, act: Action)
    requires Inv(sys) && Enabled(sys, By(i, act))
    ensures NetworkOk(Apply(sys, By(i, act)))
  {
    hide Act, BuildReply, BuildRequest, Balanced;
    var r := sys.requesters[i];
    ActMovesNode(sys, r, act);
    if act.Send? { RequestAddress(Minted(r), sys.withOutcome, act.body, act.now); }
  }

  lemma ActKeeps(sys: System, i: nat, act: Action)
    requires Inv(sys) && Enabled(sys, By(i, act))
    ensures Inv(Apply(sys, By(i, act)))
  {
    hide LinkClean, NetworkOk, Balanced, Filed, Act;
    ActKeepsLink(sys, i, act);
    ActKeepsFiled(sys, i, act);
    ActKeepsBalance(sys, i, act);
    ActKeepsNetwork(sys, i, act);
    forall j | j in sys.requesters && j != i ensures LinkClean(Apply(sys, By(i, act)), sys.requesters[j]) {
      ActKeepsOthers(sys, i, act, j);
    }
  }

  lemma ServeKeeps(sys: System, k: nat)
    requires Inv(sys) && Enabled(sys, Serve(k))
    ensures Inv(Apply(sys, Serve(k)))
  {
    hide AccountReply, BuildRequest;
  }

  lemma LossKeeps(sys: System, e: Event)
    requires Inv(sys) && Enabled(sys, e) && (e.DropRequest? || e.LoseReply?)
    ensures Inv(Apply(sys, e))
  {
    hide AccountReply, BuildReply, BuildRequest;
  }

  lemma StepKeeps(sys: System, e: Event)
    requires Inv(sys) && Enabled(sys, e)
    ensures Inv(Apply(sys, e))
  {
    hide Inv, Apply;
    match e
    case By(i, act) => ActKeeps(sys, i, act);
    case Serve(k) => ServeKeeps(sys, k);
    case DropRequest(_) => LossKeeps(sys, e);
    case LoseReply(_) => LossKeeps(sys, e);
  }

  // ---- whole runs ----------------------------------------------------------

  predicate Runs(sys: System, events: seq<Event>)
    decreases |events|, 0
  {
    events != [] ==> Runs(sys, Init(events)) && Enabled(After(sys, Init(events)), Last(events))
  }

  function After(sys: System, events: seq<Event>): System
    requires Runs(sys, events)
    decreases |events|, 1
  {
    if events == [] then sys else Apply(After(sys, Init(events)), Last(events))
  }

  /** Nothing sent yet, nobody connected, on channels with a name. */
  ghost predicate Fresh(sys: System) {
    && sys.requests == map[] && sys.replies == map[]
    && (forall i | i in sys.requesters ::
          var r := sys.requesters[i];
          r == Requester(r.channel, r.verifyOutcome, None, Idle, 0, 0, 0, 0, 0, 0, 0, 0, []) &&
          r.channel != "" && (r.verifyOutcome ==> sys.withOutcome))
  }

  /** In every interleaving of requesters, responders and the network: no reply is ever matched to
      another request, no body is corrupted, every attempt is counted exactly once as success,
      timeout, error, cancelled (at most one) or still in flight, and the tracker is given the
      successes' own sequences in increasing order. */
  lemma {:induction false} EveryRunSafe(sys: System, events: seq<Event>)
    requires Fresh(sys) && sys.rebuild && Runs(sys, events)
    ensures Inv(After(sys, events))
  {
    if events == [] {
      hide AccountReply, BuildReply, BuildRequest;
    } else {
      hide Inv, Apply, Fresh;
      EveryRunSafe(sys, Init(events));
      StepKeeps(After(sys, Init(events)), Last(events));
    }
  }

  // ---- why the links are rebuilt -------------------------------------------

  lemma {:induction false} FormatUintInjective(m: nat, n: nat)
    requires FormatUint(m) == FormatUint(n)
    ensures m == n
  {
    ParseFormat(m);
    ParseFormat(n);
  }

  lemma CorrelationIdsDiffer(channel: string, m: nat, n: nat)
    requires m != n
    ensures CorrelationId(channel, m) != CorrelationId(channel, n)
  {
    var prefix := channel + "-";
    assert CorrelationId(channel, m)[|prefix|..] == FormatUint(m);
    assert CorrelationId(channel, n)[|prefix|..] == FormatUint(n);
    if FormatUint(m) == FormatUint(n) { FormatUintInjective(m, n); }
  }

  lemma OtherReplyMismatched(withOutcome: bool, verifyOutcome: bool, channel: string, s: nat, m: nat, n: nat,
                             node: string, body: seq<bv8>, now: int)
    requires m != n
    ensures AccountReply(verifyOutcome, BuildReply(withOutcome, BuildRequest(channel, s, m, node, body, now)),
                         CorrelationId(channel, n)) == Mismatched
  {
    hide CorrelationId;
    CorrelationIdsDiffer(channel, m, n);
  }

  /** One requester with a live link; its last request timed out and is still on its way, and n
      replies before it were matched to the wrong request. */
  ghost predicate OneBehind(sys: System, n: nat) {
    && !sys.rebuild && sys.sends == n + 1 && sys.requesters.Keys == {0}
    && var r := sys.requesters[0];
       && r.node.Some? && r.phase.Idle? && r.s == r.c == n + 1
       && r.timedOut == 1 && r.errors == r.mismatched == n && r.succeeded == 0
       && sys.requests == map[n := Request(r, [], 1)] && sys.replies == map[]
  }

  lemma RunsSnoc(sys: System, events: seq<Event>, e: Event)
    requires Runs(sys, events) && Enabled(After(sys, events), e)
    ensures Runs(sys, events + [e]) && After(sys, events + [e]) == Apply(After(sys, events), e)
  {
    hide Enabled, Apply;
    assert Init(events + [e]) == events;
  }

  /** The next attempt goes out in time, and only then is the request before it answered. */
  lemma LateRound(start: System, run: seq<Event>, n: nat) returns (longer: seq<Event>)
    requires Runs(start, run) && OneBehind(After(start, run), n) && n + 1 < MAX_U64
    ensures Runs(start, longer) && OneBehind(After(start, longer), n + 1)
  {
    hide Runs, After, AccountReply, BuildReply, BuildRequest;
    var sys := After(start, run);
    var r := sys.requesters[0];
    RequestAddress(r, sys.withOutcome, [], 1);
    RunsSnoc(start, run, By(0, Send([], 1, Delivered)));
    var one := run + [By(0, Send([], 1, Delivered))];
    RunsSnoc(start, one, Serve(n));
    RunsSnoc(start, one + [Serve(n)], By(0, Receive(n)));
    OtherReplyMismatched(sys.withOutcome, r.verifyOutcome, r.channel, r.s, r.c, r.c + 1, r.node.value, [], 1);
    longer := one + [Serve(n)] + [By(0, Receive(n))];
  }

  /** With links kept after a timeout, one late reply can turn every later attempt into an error:
      for each n there is a run with a single timeout, no success and n mismatched replies. */
  lemma {:induction false} OneLateReplyDesyncsForever(n: nat) returns (start: System, run: seq<Event>)
    requires n < MAX_U64
    ensures Fresh(start) && !start.rebuild && Runs(start, run) && OneBehind(After(start, run), n)
  {
    if n == 0 {
      hide AccountReply, BuildReply, BuildRequest;
      start := System(false, false, map[0 := Requester("ch", false, None, Idle, 0, 0, 0, 0, 0, 0, 0, 0, [])],
                      {}, 0, map[], map[]);
      run := [];
      RunsSnoc(start, run, By(0, Connect("node")));
      run := run + [By(0, Connect("node"))];
      RunsSnoc(start, run, By(0, Send([], 1, Delivered)));
      run := run + [By(0, Send([], 1, Delivered))];
      RunsSnoc(start, run, By(0, TimeOut));
      run := run + [By(0, TimeOut)];
    } else {
      hide Runs, After;
      start, run := OneLateReplyDesyncsForever(n - 1);
      run := LateRound(start, run, n - 1);
    }
  }
}
