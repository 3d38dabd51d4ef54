/** Messages, and the self-accounting envelope they carry in their application properties. */
module Envelope {
  import opened Basics

  /** An untyped property value, as far as the harness tells values apart. */
  datatype Any = Str(text: string) | Bytes(raw: string) | Unsigned(n: nat) | Signed(i: int) | Flag(b: bool) | Nil

  datatype Properties = Properties(
    to: Option<string>,
    replyTo: Option<string>,
    correlationId: Option<Any>,
    messageId: Option<Any>)

  datatype Message = Message(body: seq<bv8>, app: Option<map<string, Any>>, properties: Option<Properties>)

  const WORKER_ID := "worker-id"
  const SEQUENCE := "sequence"
  const CONTENT_HASH := "crc"
  const TIMESTAMP_NS := "timestamp-ns"

  const MAX_U64: nat := 0xffff_ffff_ffff_ffff
  const MAX_I64: int := 0x7fff_ffff_ffff_ffff

  // ---- decimal -------------------------------------------------------------

  function DigitOf(d: nat): char
    requires d < 10
  {
    '0' + d as char
  }

  function FormatUint(n: nat): (s: string)
    ensures s != ""
  {
    if n < 10 then [DigitOf(n)] else FormatUint(n / 10) + [DigitOf(n % 10)]
  }

  function FormatInt(i: int): string {
    if i < 0 then "-" + FormatUint(-i) else FormatUint(i)
  }

  /** Digits read from the left; None for an empty text or any other character. */
  function ParseDigits(s: string): Option<nat> {
    if s == "" || !('0' <= Last(s) <= '9') then None
    else
      var d := Last(s) as int - '0' as int;
      if |s| == 1 then Some(d)
      else
        match ParseDigits(Init(s))
        case None => None
        case Some(high) => Some(10 * high + d)
  }

  function ParseUint(s: string): Option<nat> {
    match ParseDigits(s)
    case Some(n) => if n <= MAX_U64 then Some(n) else None
    case None => None
  }

  function ParseInt(s: string): Option<int> {
    if s != "" && (s[0] == '-' || s[0] == '+') then
      match ParseDigits(s[1..])
      case Some(n) =>
        if s[0] == '+' then if n <= MAX_I64 then Some(n) else None
        else if n <= MAX_I64 + 1 then Some(0 - n) else None
      case None => None
    else
      match ParseDigits(s)
      case Some(n) => if n <= MAX_I64 then Some(n) else None
      case None => None
  }

  lemma {:induction false} ParseFormat(n: nat)
    ensures ParseDigits(FormatUint(n)) == Some(n)
    ensures '0' <= FormatUint(n)[0] <= '9'
  {
    if n >= 10 {
      ParseFormat(n / 10);
      var s := FormatUint(n);
      assert Init(s) == FormatUint(n / 10) && Last(s) == DigitOf(n % 10) && s[0] == FormatUint(n / 10)[0];
    }
  }

  lemma ParseUintFormat(n: nat)
    requires n <= MAX_U64
    ensures ParseUint(FormatUint(n)) == Some(n)
  {
    ParseFormat(n);
  }

  lemma ParseIntFormat(i: int)
    requires -MAX_I64 - 1 <= i <= MAX_I64
    ensures ParseInt(FormatInt(i)) == Some(i)
  {
    ParseFormat(if i < 0 then -i else i);
    if i < 0 { assert FormatInt(i)[1..] == FormatUint(-i); }
  }

  // ---- building and reading ------------------------------------------------

  function BuildMessage(producer: string, s: nat, body: seq<bv8>, tag: string, now: int): Message {
    Message(
      body,
      Some(map[
             WORKER_ID := Str(producer),
             SEQUENCE := Str(FormatUint(s)),
             CONTENT_HASH := Str(tag),
             TIMESTAMP_NS := Str(FormatInt(now))]),
      None)
  }

  function AsString(v: Any): string {
    match v
    case Str(t) => t
    case Bytes(t) => t
    case _ => ""
  }

  function AsUint64(v: Any): nat {
    match v
    case Str(t) => (match ParseUint(t) case Some(n) => n case None => 0)
    case Unsigned(n) => n
    case Signed(i) => if i >= 0 then i else 0
    case _ => 0
  }

  /** An unsigned value is reinterpreted as a signed one, as a conversion to int64 does. */
  function AsInt64(v: Any): int {
    match v
    case Str(t) => (match ParseInt(t) case Some(i) => i case None => 0)
    case Signed(i) => i
    case Unsigned(n) => if n <= MAX_I64 then n else n - MAX_U64 - 1
    case _ => 0
  }

  datatype Meta = Meta(producer: string, s: nat, tag: string, sentAt: Option<int>, ok: bool)

  function Lookup(app: map<string, Any>, key: string): Any {
    if key in app then app[key] else Nil
  }

  function ExtractMeta(m: Message): Meta {
    match m.app
    case None => Meta("", 0, "", None, false)
    case Some(app) =>
      var producer := AsString(Lookup(app, WORKER_ID));
      var ns := AsInt64(Lookup(app, TIMESTAMP_NS));
      Meta(producer, AsUint64(Lookup(app, SEQUENCE)), AsString(Lookup(app, CONTENT_HASH)),
           if ns > 0 then Some(ns) else None, producer != "")
  }

  /** What was stamped is what is read, for every sequence and every clock value; a clock at or
      before the epoch reads as no timestamp, and only an empty producer reads as no envelope. */
  lemma EnvelopeRoundTrip(producer: string, s: nat, body: seq<bv8>, tag: string, now: int)
    requires s <= MAX_U64 && -MAX_I64 - 1 <= now <= MAX_I64
    ensures ExtractMeta(BuildMessage(producer, s, body, tag, now)) ==
            Meta(producer, s, tag, if now > 0 then Some(now) else None, producer != "")
  {
    ParseUintFormat(s);
    ParseIntFormat(now);
  }
}
