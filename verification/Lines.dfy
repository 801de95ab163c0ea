/** Control lines: the grammar of one line of the client protocol, without its CRLF. */
module Lines {
  import opened ByteStrings
  import opened Decimal

  const UNKNOWN_OP := "Unknown Protocol Operation"
  const MAX_PAYLOAD := "Maximum Payload Violation"
  const MAX_CONTROL_LINE := "maximum control line exceeded"

  /** The three failure classes: said and closed, said and kept, closed in silence. */
  datatype ProtoError = Fatal(text: string) | Soft(text: string) | Silent

  datatype Limits = Limits(maxControlLine: nat, maxPayload: nat)

  datatype HpubOutcome = Good | BadArgs | BadFrame(text: string)

  datatype Event =
    | Connect(json: Bytes)
    | Subscribe(subject: Bytes, queue: Option<Bytes>, sid: Bytes)
    | Unsubscribe(sid: Bytes, max: int)
    | Publish(subject: Bytes, reply: Option<Bytes>, hdr: nat, total: nat, body: Bytes, hpub: bool)
    | Ping
    | Pong
    | Info(json: Bytes)
    | HpubAttempt(outcome: HpubOutcome)
    | ClientErr
    | ClientOk

  /** What a line asks for: an operation, or a body to be read next. */
  datatype Action =
    | Emit(event: Event)
    | AwaitBody(subject: Bytes, reply: Option<Bytes>, hdr: nat, need: nat, hpub: bool)

  datatype Parsed = Accept(action: Action) | Reject(error: ProtoError)

  // Verbs, in capitals.
  const PING: Bytes := [80, 73, 78, 71]
  const PONG: Bytes := [80, 79, 78, 71]
  const PUB: Bytes := [80, 85, 66]
  const HPUB: Bytes := [72, 80, 85, 66]
  const SUB: Bytes := [83, 85, 66]
  const UNSUB: Bytes := [85, 78, 83, 85, 66]
  const CONNECT: Bytes := [67, 79, 78, 78, 69, 67, 84]
  const INFO: Bytes := [73, 78, 70, 79]
  const PLUS_OK: Bytes := [43, 79, 75]
  const MINUS_ERR: Bytes := [45, 69, 82, 82]

  predicate IsBlank(b: byte) { b == SP || b == TAB }

  function Lower(b: byte): byte {
    if 65 <= b <= 90 then b + 32 else b
  }

  predicate EqIgnore(a: Bytes, b: Bytes) {
    |a| == |b| && forall i :: 0 <= i < |a| ==> Lower(a[i]) == Lower(b[i])
  }

  predicate Starts(line: Bytes, prefix: Bytes) {
    |line| >= |prefix| && EqIgnore(line[..|prefix|], prefix)
  }

  /** Length of the run of non-blank bytes `s` begins with. */
  function TokenLen(s: Bytes): (n: nat)
    ensures n <= |s|
    ensures forall i :: 0 <= i < n ==> !IsBlank(s[i])
    ensures n < |s| ==> IsBlank(s[n])
  {
    if s == [] || IsBlank(s[0]) then 0 else 1 + TokenLen(s[1..])
  }

  lemma TokenLenIs(s: Bytes, n: nat)
    requires n <= |s| && forall i :: 0 <= i < n ==> !IsBlank(s[i])
    requires n < |s| ==> IsBlank(s[n])
    ensures TokenLen(s) == n
  {
  }

  /** The index of the first non-blank byte. */
  function ArgAt(tail: Bytes): (r: Option<nat>)
    ensures r.Some? ==> r.value < |tail| && !IsBlank(tail[r.value])
                        && forall i :: 0 <= i < r.value ==> IsBlank(tail[i])
    ensures r.None? ==> forall i :: 0 <= i < |tail| ==> IsBlank(tail[i])
  {
    if tail == [] then None
    else if !IsBlank(tail[0]) then Some(0)
    else match ArgAt(tail[1..])
         case None => None
         case Some(i) => Some(i + 1)
  }

  /** The arguments of a line: its maximal runs of non-blank bytes. */
  function Fields(s: Bytes): seq<Bytes>
    decreases |s|
  {
    if s == [] then []
    else if IsBlank(s[0]) then Fields(s[1..])
    else var n := TokenLen(s); [s[..n]] + Fields(s[n..])
  }

  function PubLine(rest: Bytes, hpub: bool, lim: Limits): Parsed {
    if rest == [] then Reject(Fatal(UNKNOWN_OP)) else
    var args := Fields(rest);
    if hpub then
      if |args| == 3 then PubSizes(args[0], None, ParseSize(args[1]), ParseSize(args[2]), true, lim)
      else if |args| == 4 then PubSizes(args[0], Some(args[1]), ParseSize(args[2]), ParseSize(args[3]), true, lim)
      else Accept(Emit(HpubAttempt(BadArgs)))
    else
      if |args| == 2 then PubSizes(args[0], None, 0, ParseSize(args[1]), false, lim)
      else if |args| == 3 then PubSizes(args[0], Some(args[1]), 0, ParseSize(args[2]), false, lim)
      else Reject(Silent)
  }

  function PubSizes(subject: Bytes, reply: Option<Bytes>, hdr: int, total: int, hpub: bool, lim: Limits): Parsed {
    if hdr < 0 || total < 0 || hdr > total then
      if hpub then Accept(Emit(HpubAttempt(BadArgs))) else Reject(Silent)
    else if total > lim.maxPayload then Reject(Fatal(MAX_PAYLOAD))
    else Accept(AwaitBody(subject, reply, hdr, total, hpub))
  }

  function SubLine(rest: Bytes): Parsed {
    if rest == [] then Reject(Fatal(UNKNOWN_OP)) else
    var args := Fields(rest);
    if |args| == 2 then Accept(Emit(Subscribe(args[0], None, args[1])))
    else if |args| == 3 then Accept(Emit(Subscribe(args[0], Some(args[1]), args[2])))
    else Reject(Silent)
  }

  function UnsubLine(rest: Bytes): Parsed {
    if rest == [] then Reject(Fatal(UNKNOWN_OP)) else
    var args := Fields(rest);
    if |args| == 1 then Accept(Emit(Unsubscribe(args[0], -1)))
    else if |args| == 2 then Accept(Emit(Unsubscribe(args[0], ParseSize(args[1]))))
    else Reject(Silent)
  }

  /** The verbs of the protocol. */
  datatype Verb =
    | PingVerb | PongVerb | PubVerb | HpubVerb | ConnectVerb | InfoVerb | OkVerb | ErrVerb | SubVerb | UnsubVerb

  function Spelling(verb: Verb): Bytes {
    match verb
    case PingVerb => PING
    case PongVerb => PONG
    case PubVerb => PUB
    case HpubVerb => HPUB
    case ConnectVerb => CONNECT
    case InfoVerb => INFO
    case OkVerb => PLUS_OK
    case ErrVerb => MINUS_ERR
    case SubVerb => SUB
    case UnsubVerb => UNSUB
  }

  /** The verb of a line. PING, PONG, CONNECT and INFO are prefixes; the other verbs end at the
      first blank. */
  function VerbOf(line: Bytes): (r: Option<Verb>)
    ensures r.Some? ==> |Spelling(r.value)| <= |line|
  {
    if line == [] then None else
    var verbEnd := TokenLen(line);
    var first := Lower(line[0]);
    if first == 112 then
      if Starts(line, PING) then Some(PingVerb)
      else if Starts(line, PONG) then Some(PongVerb)
      else if verbEnd == 3 && EqIgnore(line[..3], PUB) then Some(PubVerb)
      else None
    else if first == 104 && verbEnd == 4 && EqIgnore(line[..4], HPUB) then Some(HpubVerb)
    else if first == 99 && Starts(line, CONNECT) then Some(ConnectVerb)
    else if first == 105 && Starts(line, INFO) then Some(InfoVerb)
    else if first == 43 && verbEnd == 3 && EqIgnore(line[..3], PLUS_OK) then Some(OkVerb)
    else if first == 45 && verbEnd == 4 && EqIgnore(line[..4], MINUS_ERR) then Some(ErrVerb)
    else if first == 115 && verbEnd == 3 && EqIgnore(line[..3], SUB) then Some(SubVerb)
    else if first == 117 && verbEnd == 5 && EqIgnore(line[..5], UNSUB) then Some(UnsubVerb)
    else None
  }

  /** What a verb does with the rest of its line. */
  function Operation(verb: Verb, rest: Bytes, lim: Limits): Parsed {
    match verb
    case PingVerb => Accept(Emit(Ping))
    case PongVerb => Accept(Emit(Pong))
    case PubVerb => PubLine(rest, false, lim)
    case HpubVerb => PubLine(rest, true, lim)
    case ConnectVerb =>
      (match ArgAt(rest)
       case Some(i) => Accept(Emit(Connect(rest[i..])))
       case None => Reject(Silent))
    case InfoVerb =>
      (match ArgAt(rest)
       case Some(i) => Accept(Emit(Info(rest[i..])))
       case None => Reject(Silent))
    case OkVerb => Accept(Emit(ClientOk))
    case ErrVerb => if rest == [] then Reject(Fatal(UNKNOWN_OP)) else Accept(Emit(ClientErr))
    case SubVerb => SubLine(rest)
    case UnsubVerb => UnsubLine(rest)
  }

  /** One control line. */
  function ParseLine(line: Bytes, lim: Limits): Parsed {
    match VerbOf(line)
    case None => Reject(Fatal(UNKNOWN_OP))
    case Some(verb) => Operation(verb, line[|Spelling(verb)|..], lim)
  }

  /** How many arguments a list keeps ranges for. */
  const MAX_ARGS: nat := 5

  /** An argument list, by range into the line it came from. */
  class Args {
    const range: array<(nat, nat)>
    const base: nat
    var len: nat

    constructor (base: nat)
      ensures this.base == base && len == 0 && fresh(range) && range.Length == MAX_ARGS
    {
      this.base := base;
      len := 0;
      range := new (nat, nat)[MAX_ARGS](_ => (0, 0));
    }

    /** The first `MAX_ARGS` ranges address, in the line, the fields `fs` of `s`. */
    ghost predicate Describes(s: Bytes, fs: seq<Bytes>)
      reads this, range
    {
      && range.Length == MAX_ARGS
      && len == |fs|
      && forall i :: 0 <= i < len && i < MAX_ARGS ==>
           && base <= range[i].0 <= range[i].1 <= base + |s|
           && s[range[i].0 - base..range[i].1 - base] == fs[i]
    }

    method Push(ghost s: Bytes, ghost fs: seq<Bytes>, from: nat, to: nat)
      requires Describes(s, fs) && from <= to <= |s|
      modifies this, range
      ensures Describes(s, fs + [s[from..to]])
    {
      if len < MAX_ARGS {
        range[len] := (base + from, base + to);
      }
      len := len + 1;
    }
  }

  /** Splits `s` on spaces and tabs, one byte at a time: the ranges kept are those of
      `Fields(s)`, and the count is theirs even past the last range kept. */
  method SplitArgs(s: Bytes, base: nat) returns (args: Args)
    ensures fresh(args) && fresh(args.range) && args.base == base
    ensures args.Describes(s, Fields(s))
  {
    args := new Args(base);
    var start: Option<nat> := None;
    ghost var done: seq<Bytes> := [];
    assert s[0..] == s;
    for i := 0 to |s|
      invariant args.base == base && fresh(args) && fresh(args.range)
      invariant args.Describes(s, done) && Scanned(s, done, start, i)
    {
      ScanStep(s, done, start, i);
      if IsBlank(s[i]) {
        if start.Some? {
          args.Push(s, done, start.value, i);
          done := done + [s[start.value..i]];
          start := None;
        }
      } else if start.None? {
        start := Some(i);
      }
    }
    ScanEnd(s, done, start);
    if start.Some? {
      args.Push(s, done, start.value, |s|);
    }
  }

  /** At `i`, with the fields of `done` behind and, if `start` says so, one begun. */
  predicate Scanned(s: Bytes, done: seq<Bytes>, start: Option<nat>, i: nat)
    requires i <= |s|
  {
    match start
    case None => Fields(s) == done + Fields(s[i..])
    case Some(st) =>
      && st < i && Fields(s) == done + Fields(s[st..])
      && forall k :: st <= k < i ==> !IsBlank(s[k])
  }

  lemma ScanStep(s: Bytes, done: seq<Bytes>, start: Option<nat>, i: nat)
    requires i < |s| && Scanned(s, done, start, i)
    ensures IsBlank(s[i]) && start.None? ==> Scanned(s, done, None, i + 1)
    ensures IsBlank(s[i]) && start.Some? ==> Scanned(s, done + [s[start.value..i]], None, i + 1)
    ensures !IsBlank(s[i]) ==> Scanned(s, done, if start.None? then Some(i) else start, i + 1)
  {
    assert s[i..][1..] == s[i + 1..];
    if IsBlank(s[i]) && start.Some? {
      FieldEnds(s, start.value, i);
      Assoc(done, [s[start.value..i]], Fields(s[i..]));
    }
  }

  lemma ScanEnd(s: Bytes, done: seq<Bytes>, start: Option<nat>)
    requires Scanned(s, done, start, |s|)
    ensures Fields(s) == done + if start.Some? then [s[start.value..|s|]] else []
  {
    if start.Some? {
      FieldEnds(s, start.value, |s|);
    }
  }

  /** A run of non-blanks that ends at a blank, or at the end, is one field. */
  lemma FieldEnds(s: Bytes, st: nat, i: nat)
    requires st < i <= |s| && forall k :: st <= k < i ==> !IsBlank(s[k])
    requires i < |s| ==> IsBlank(s[i])
    ensures Fields(s[st..]) == [s[st..i]] + Fields(s[i..])
    ensures i < |s| ==> Fields(s[i..]) == Fields(s[i + 1..])
  {
    var t := s[st..];
    TokenLenIs(t, i - st);
    assert t[..i - st] == s[st..i];
    assert t[i - st..] == s[i..];
    if i < |s| {
      assert s[i..][1..] == s[i + 1..];
    }
  }
}
