/** Delivered frames as a subscriber reads them back: the frame a message becomes, the
    status frame of an unanswered request, and the reader that cuts a stream of them. */
module Delivery {
  import opened ByteStrings
  import opened Decimal

  // The verbs the reader knows.
  const MSG: Bytes := [77, 83, 71]
  const HMSG: Bytes := [72, 77, 83, 71]
  const PING: Bytes := [80, 73, 78, 71]
  const MINUS_ERR: Bytes := [45, 69, 82, 82]

  /** The status line and the start of the header the unanswered subject goes in. */
  const STATUS: Bytes := [78, 65, 84, 83, 47, 49, 46, 48, 32, 53, 48, 51, 13, 10,
                          78, 97, 116, 115, 45, 83, 117, 98, 106, 101, 99, 116, 58, 32]

  /** What is sent to a subscription: a message, of which the first `hdr` bytes of the body
      are headers, or word that nobody answers at `published`. */
  datatype Outgoing =
    | Message(subject: Bytes, sid: Bytes, reply: Option<Bytes>, hdr: nat, body: Bytes, headers: bool)
    | Status(inbox: Bytes, sid: Bytes, published: Bytes)

  type Frame = f: Outgoing | f.Message? ==> f.hdr <= |f.body| witness Status([], [], [])

  /** The frame carries a header block. */
  predicate Tagged(f: Frame) {
    f.Status? || (f.hdr > 0 && f.headers)
  }

  /** The bytes the frame's size counts. A subscriber without headers gets none. */
  function Load(f: Frame): Bytes {
    if f.Status? then STATUS + f.published + CRLF + CRLF
    else if f.hdr > 0 && !f.headers then f.body[f.hdr..]
    else f.body
  }

  function HeaderLen(f: Frame): nat {
    if f.Status? then 32 + |f.published| else f.hdr
  }

  function Verb(f: Frame): Bytes {
    if Tagged(f) then HMSG else MSG
  }

  function ReplyPart(f: Frame): Bytes {
    if f.Message? && f.reply.Some? && f.reply.value != [] then [SP] + f.reply.value else []
  }

  function HeaderPart(f: Frame): Bytes {
    if Tagged(f) then [SP] + Digits(HeaderLen(f)) else []
  }

  function Target(f: Frame): Bytes {
    if f.Status? then f.inbox else f.subject
  }

  /** The arguments of the control line but the last. */
  function Args(f: Frame): Bytes {
    [SP] + Target(f) + [SP] + f.sid + ReplyPart(f) + HeaderPart(f)
  }

  function Head(f: Frame): Bytes {
    Verb(f) + (Args(f) + [SP] + Digits(|Load(f)|))
  }

  function FrameOf(f: Frame): Bytes {
    Head(f) + CRLF + Load(f) + CRLF
  }

  /** The two sizes of a status frame are one number, and it is the size of its block. */
  lemma StatusSize(f: Frame)
    requires f.Status?
    ensures |Load(f)| == HeaderLen(f)
  {
    assert |STATUS| == 28;
  }

  // ------------------------------------------------------------------ the reader ---

  datatype Found = NeedMore | Whole(len: nat) | PingFound | Bad | Skip(len: nat)

  predicate Lacks(s: Bytes, b: byte) {
    forall i :: 0 <= i < |s| ==> s[i] != b
  }

  /** The position of the first `b`, or the length. */
  function First(s: Bytes, b: byte): (n: nat)
    ensures n <= |s| && (n < |s| ==> s[n] == b)
    ensures forall i :: 0 <= i < n ==> s[i] != b
  {
    if s == [] || s[0] == b then 0 else 1 + First(s[1..], b)
  }

  /** What follows the last space. */
  function LastWord(s: Bytes): Bytes {
    if s == [] || s[|s| - 1] == SP then [] else LastWord(s[..|s| - 1]) + [s[|s| - 1]]
  }

  predicate IsWhite(b: byte) { 9 <= b <= 13 || b == SP }

  function Trim(d: Bytes): Bytes {
    if d == [] then []
    else if IsWhite(d[0]) then Trim(d[1..])
    else if IsWhite(d[|d| - 1]) then Trim(d[..|d| - 1])
    else d
  }

  function ParseTotal(word: Bytes): Option<nat> {
    var d := Trim(word);
    var n := if d != [] && d[0] == 43 then d[1..] else d;
    if n != [] && AllDigits(n) && Value(n) < U64 then Some(Value(n)) else None
  }

  /** A line, without its end, at the front of a buffer of `len` bytes: its verb, and for a
      message the size it ends in. `nl` is where its line feed is. */
  function Judge(line: Bytes, nl: nat, len: nat): Found {
    var v := First(line, SP);
    if line[..v] == MSG || line[..v] == HMSG then
      match ParseTotal(LastWord(line[v..]))
      case None => Bad
      case Some(total) =>
        var need := nl + 1 + total + 2;
        if len < need then NeedMore else Whole(need)
    else if line[..v] == PING then PingFound
    else if line[..v] == MINUS_ERR then Bad
    else Skip(nl + 1)
  }

  /** The frame at the front of `src`. */
  function NextFrame(src: Bytes): (r: Found)
    ensures r.Whole? || r.Skip? ==> 0 < r.len <= |src|
    ensures r == PingFound ==> 6 <= |src|
  {
    var nl := First(src, LF);
    if nl == |src| then NeedMore else Judge(src[..if nl == 0 then 0 else nl - 1], nl, |src|)
  }

  /** What the reader takes off a buffer: the messages, the PINGs it answers, whether it came to
      an error, and what is left for the next read. */
  datatype Taken = Taken(messages: seq<Bytes>, pings: nat, failed: bool, left: Bytes)

  function Cut(src: Bytes): Taken
    decreases |src|
  {
    match NextFrame(src)
    case Whole(n) => var more := Cut(src[n..]); more.(messages := [src[..n]] + more.messages)
    case PingFound => var more := Cut(src[6..]); more.(pings := more.pings + 1)
    case Skip(n) => Cut(src[n..])
    case Bad => Taken([], 0, true, src)
    case NeedMore => Taken([], 0, false, src)
  }

  // ------------------------------------------------------------------ round trip ---

  /** No line feed where a control line will be made of it. */
  predicate OneLine(f: Frame) {
    && Lacks(Target(f), LF) && Lacks(f.sid, LF)
    && (f.Message? && f.reply.Some? ==> Lacks(f.reply.value, LF))
  }

  /** What the reader takes for the control line of a text: up to the byte before its first
      line feed. */
  function FirstLine(t: Bytes): Bytes {
    var nl := First(t, LF);
    t[..if nl == 0 then 0 else nl - 1]
  }

  /** The number that line ends in is the number of bytes the text has after it, less the two
      that end it. */
  predicate Announced(t: Bytes) {
    ParseTotal(LastWord(FirstLine(t))) == Some(|t| - |FirstLine(t)| - 4)
  }

  predicate Readable(f: Frame) { Announced(FrameOf(f)) }

  lemma DigitsLack(n: nat, b: byte)
    requires !IsDigit(b)
    ensures Lacks(Digits(n), b)
  {
    var d := Digits(n);
    forall i | 0 <= i < |d| ensures d[i] != b {
      assert IsDigit(d[i]);
    }
  }

  lemma {:induction false} LastWordIs(front: Bytes, w: Bytes)
    requires Lacks(w, SP)
    ensures LastWord(front + [SP] + w) == w
  {
    var s := front + [SP] + w;
    if w != [] {
      var w' := w[..|w| - 1];
      assert s[..|s| - 1] == front + [SP] + w';
      LastWordIs(front, w');
      assert s[|s| - 1] == w[|w| - 1];
    }
  }

  /** The reader counts sizes in 64 bits. */
  lemma TotalIs(n: nat)
    ensures ParseTotal(Digits(n)) == if n < U64 then Some(n) else None
  {
    var d := Digits(n);
    assert IsDigit(d[0]) && IsDigit(d[|d| - 1]);
    DigitsValue(n);
  }

  predicate AllWhite(s: Bytes) { forall i :: 0 <= i < |s| ==> IsWhite(s[i]) }

  /** Neither end is white space. */
  predicate Trimmed(d: Bytes) { d != [] ==> !IsWhite(d[0]) && !IsWhite(d[|d| - 1]) }

  lemma {:induction false} TrimIs(pre: Bytes, d: Bytes, post: Bytes)
    requires AllWhite(pre) && AllWhite(post) && Trimmed(d) && d != []
    ensures Trim(pre + d + post) == d
    decreases |pre| + |post|
  {
    var w := pre + d + post;
    if pre != [] {
      assert w[0] == pre[0] && w[1..] == pre[1..] + d + post;
      TrimIs(pre[1..], d, post);
    } else if post != [] {
      assert w[0] == d[0] && w[|w| - 1] == post[|post| - 1] && w[..|w| - 1] == pre + d + post[..|post| - 1];
      TrimIs(pre, d, post[..|post| - 1]);
    } else {
      assert w == d;
    }
  }

  lemma {:induction false} TrimParts(w: Bytes) returns (pre: Bytes, post: Bytes)
    ensures AllWhite(pre) && AllWhite(post) && Trimmed(Trim(w)) && w == pre + Trim(w) + post
    decreases |w|
  {
    if w == [] {
      pre, post := [], [];
    } else if IsWhite(w[0]) {
      pre, post := TrimParts(w[1..]);
      pre := WhiteBefore(w, pre, Trim(w), post);
    } else if IsWhite(w[|w| - 1]) {
      pre, post := TrimParts(w[..|w| - 1]);
      post := WhiteAfter(w, pre, Trim(w), post);
    } else {
      pre, post := [], [];
    }
  }

  lemma WhiteBefore(w: Bytes, pre: Bytes, d: Bytes, post: Bytes) returns (more: Bytes)
    requires w != [] && IsWhite(w[0]) && AllWhite(pre) && w[1..] == pre + d + post
    ensures AllWhite(more) && w == more + d + post
  {
    more := [w[0]] + pre;
    assert w == [w[0]] + w[1..];
    assert [w[0]] + (pre + d + post) == more + d + post;
  }

  lemma WhiteAfter(w: Bytes, pre: Bytes, d: Bytes, post: Bytes) returns (more: Bytes)
    requires w != [] && IsWhite(w[|w| - 1]) && AllWhite(post) && w[..|w| - 1] == pre + d + post
    ensures AllWhite(more) && w == pre + d + more
  {
    more := post + [w[|w| - 1]];
    assert w == w[..|w| - 1] + [w[|w| - 1]];
    Assoc(pre + d, post, [w[|w| - 1]]);
  }

  /** White space, perhaps a plus, zeros, the number, and white space. */
  ghost predicate Counts(word: Bytes, n: nat) {
    exists pre, plus, z, post :: Spelled(word, pre, plus, z, n, post)
  }

  predicate Spelled(word: Bytes, pre: Bytes, plus: bool, z: nat, n: nat, post: Bytes) {
    AllWhite(pre) && AllWhite(post) && word == pre + ((if plus then [43] else []) + (Zeros(z) + Digits(n))) + post
  }

  /** What the reader takes for a size, and what it takes it for. */
  lemma TotalIff(word: Bytes, n: nat)
    ensures ParseTotal(word) == Some(n) <==> Counts(word, n) && n < 0x1_0000_0000_0000_0000
  {
    if ParseTotal(word) == Some(n) {
      TotalIsSpelled(word, n);
    }
    if pre, plus, z, post :| Spelled(word, pre, plus, z, n, post) {
      SpelledIs(word, pre, plus, z, n, post);
    }
  }

  lemma TotalIsSpelled(word: Bytes, n: nat)
    requires ParseTotal(word) == Some(n)
    ensures Counts(word, n)
  {
    var pre, post := TrimParts(word);
    var z := Signed(Trim(word), n);
    assert Spelled(word, pre, Trim(word)[0] == 43, z, n, post);
  }

  lemma Signed(d: Bytes, n: nat) returns (z: nat)
    requires d != [] && var rest := if d[0] == 43 then d[1..] else d; rest != [] && AllDigits(rest) && Value(rest) == n
    ensures d == (if d[0] == 43 then [43] else []) + (Zeros(z) + Digits(n))
  {
    z := PrintsAs(if d[0] == 43 then d[1..] else d);
    assert d[0] == 43 ==> d == [43] + d[1..];
  }

  lemma SpelledIs(word: Bytes, pre: Bytes, plus: bool, z: nat, n: nat, post: Bytes)
    requires Spelled(word, pre, plus, z, n, post)
    ensures ParseTotal(word) == if n < U64 then Some(n) else None
  {
    var body := Zeros(z) + Digits(n);
    ZerosCountNothing(z, Digits(n));
    DigitsValue(n);
    SignedEnds(plus, body);
    TrimIs(pre, (if plus then [43] else []) + body, post);
    TotalOf(word, body);
  }

  lemma TotalOf(word: Bytes, body: Bytes)
    requires body != [] && AllDigits(body)
    requires var d := Trim(word); d != [] && body == if d[0] == 43 then d[1..] else d
    ensures ParseTotal(word) == if Value(body) < U64 then Some(Value(body)) else None
  {
  }

  lemma SignedEnds(plus: bool, body: Bytes)
    requires body != [] && AllDigits(body)
    ensures var d := (if plus then [43] else []) + body;
            Trimmed(d) && d != [] && if plus then d[0] == 43 && d[1..] == body else d == body && d[0] != 43
  {
    var d := (if plus then [43] else []) + body;
    assert IsDigit(body[0]) && IsDigit(body[|body| - 1]) && d[|d| - 1] == body[|body| - 1];
  }

  lemma {:induction false} LastWordAfter(a: Bytes, b: Bytes)
    requires b != [] && b[0] == SP
    ensures LastWord(a + b) == LastWord(b)
  {
    var s := a + b;
    assert s[|s| - 1] == b[|b| - 1];
    if b[|b| - 1] != SP {
      assert s[..|s| - 1] == a + b[..|b| - 1];
      LastWordAfter(a, b[..|b| - 1]);
    }
  }

  lemma FirstIs(s: Bytes, b: byte, at: nat)
    requires at <= |s| && (at < |s| ==> s[at] == b) && forall i :: 0 <= i < at ==> s[i] != b
    ensures First(s, b) == at
  {
  }

  /** A line that begins with the verb of a message is judged by the number it ends in. */
  lemma MessageJudged(verb: Bytes, tail: Bytes, nl: nat, len: nat)
    requires (verb == MSG || verb == HMSG) && (tail != [] ==> tail[0] == SP)
    ensures Judge(verb + tail, nl, len) == match ParseTotal(LastWord(verb + tail))
                                           case None => Bad
                                           case Some(n) => if len < nl + 3 + n then NeedMore else Whole(nl + 3 + n)
  {
    VerbCut(verb, tail);
    if tail == [] {
      VerbIsNoSize(verb);
      assert verb + tail == verb;
    } else {
      LastWordAfter(verb, tail);
    }
  }

  lemma VerbCut(verb: Bytes, tail: Bytes)
    requires (verb == MSG || verb == HMSG) && (tail != [] ==> tail[0] == SP)
    ensures var line, v := verb + tail, |verb|; First(line, SP) == v && line[..v] == verb && line[v..] == tail
  {
    var line, v := verb + tail, |verb|;
    assert forall i :: 0 <= i < v ==> line[i] == verb[i];
    FirstIs(line, SP, v);
  }

  lemma VerbIsNoSize(verb: Bytes)
    requires verb == MSG || verb == HMSG
    ensures ParseTotal(LastWord(verb)) == None && ParseTotal([]) == None
  {
    var n := |verb|;
    assert Lacks(verb, SP);
    LastWordWhole(verb);
    assert !IsWhite(verb[0]) && !IsWhite(verb[n - 1]) && !IsDigit(verb[0]);
  }

  lemma {:induction false} LastWordWhole(w: Bytes)
    requires Lacks(w, SP)
    ensures LastWord(w) == w
  {
    if w != [] {
      LastWordWhole(w[..|w| - 1]);
    }
  }

  lemma LacksJoin(a: Bytes, c: Bytes, b: byte)
    requires Lacks(a, b) && Lacks(c, b)
    ensures Lacks(a + c, b)
  {
  }

  lemma ArgsOneLine(f: Frame)
    requires OneLine(f)
    ensures Lacks(Args(f), LF)
  {
    DigitsLack(HeaderLen(f), LF);
    assert Lacks([SP], LF);
    assert Lacks(ReplyPart(f), LF) && Lacks(HeaderPart(f), LF);
    LacksJoin([SP], Target(f), LF);
    LacksJoin([SP] + Target(f), [SP], LF);
    LacksJoin([SP] + Target(f) + [SP], f.sid, LF);
    LacksJoin([SP] + Target(f) + [SP] + f.sid, ReplyPart(f), LF);
  }

  lemma HeadOneLine(f: Frame)
    requires OneLine(f)
    ensures Lacks(Head(f), LF)
  {
    ArgsOneLine(f);
    DigitsLack(|Load(f)|, LF);
    LacksJoin(Args(f), [SP], LF);
    LacksJoin(Args(f) + [SP], Digits(|Load(f)|), LF);
    assert Lacks(Verb(f), LF);
  }

  /** A text that begins as a message does and ends in a line feed. */
  predicate MessageText(t: Bytes, verb: Bytes) {
    && (verb == MSG || verb == HMSG) && |verb| + 2 <= |t| && t[|t| - 1] == LF
    && t[..|verb|] == verb && t[|verb|] == SP
  }

  lemma FrameIsText(f: Frame)
    ensures MessageText(FrameOf(f), Verb(f))
  {
    TextStarts(Verb(f), Args(f), Digits(|Load(f)|), Load(f));
  }

  lemma TextStarts(verb: Bytes, args: Bytes, d: Bytes, load: Bytes)
    requires args != [] && args[0] == SP
    ensures var t := verb + (args + [SP] + d) + CRLF + load + CRLF;
            && |verb| + 2 <= |t| && t[|t| - 1] == LF && t[..|verb|] == verb && t[|verb|] == SP
  {
    var t := verb + (args + [SP] + d) + CRLF + load + CRLF;
    var rest := args + [SP] + d + CRLF + load + CRLF;
    assert t == verb + rest;
    assert rest[0] == args[0];
  }

  lemma LineEnds(t: Bytes, verb: Bytes)
    requires MessageText(t, verb)
    ensures |verb| < First(t, LF) < |t| && FirstLine(t) == verb + t[|verb|..First(t, LF) - 1]
    ensures |FirstLine(t)| == First(t, LF) - 1
  {
    assert forall i :: 0 <= i < |verb| ==> t[i] == t[..|verb|][i];
    var nl := First(t, LF);
    assert nl > |verb|;
    assert t[..nl - 1] == t[..|verb|] + t[|verb|..nl - 1];
  }

  lemma SameFront(t: Bytes, src: Bytes, nl: nat)
    requires nl == First(t, LF) && 0 < nl < |src| && nl < |t| && forall i :: 0 <= i <= nl ==> src[i] == t[i]
    ensures First(src, LF) == nl && src[..nl - 1] == t[..nl - 1]
  {
    FirstIs(src, LF, nl);
  }

  lemma FrontJudged(t: Bytes, src: Bytes)
    requires 0 < First(t, LF) < |src| && First(t, LF) < |t| && forall i :: 0 <= i <= First(t, LF) ==> src[i] == t[i]
    ensures NextFrame(src) == Judge(FirstLine(t), First(t, LF), |src|)
  {
    SameFront(t, src, First(t, LF));
    JudgedAt(src, First(src, LF));
  }

  lemma JudgedAt(src: Bytes, nl: nat)
    requires nl == First(src, LF) && 0 < nl < |src|
    ensures NextFrame(src) == Judge(src[..nl - 1], nl, |src|)
  {
  }

  /** What the reader makes of a buffer that begins as the text does, up to the text's first
      line feed at least. */
  lemma LineRead(t: Bytes, verb: Bytes, src: Bytes)
    requires MessageText(t, verb) && First(t, LF) < |src| && First(t, LF) < |t|
    requires forall i :: 0 <= i <= First(t, LF) ==> src[i] == t[i]
    ensures var line := FirstLine(t);
            NextFrame(src) == match ParseTotal(LastWord(line))
                              case None => Bad
                              case Some(n) => if |src| < |line| + 4 + n then NeedMore else Whole(|line| + 4 + n)
  {
    LineEnds(t, verb);
    FrontJudged(t, src);
    TailBegins(t, verb);
    MessageJudged(verb, t[|verb|..First(t, LF) - 1], First(t, LF), |src|);
  }

  lemma TailBegins(t: Bytes, verb: Bytes)
    requires MessageText(t, verb) && |verb| < First(t, LF) < |t|
    ensures var tail := t[|verb|..First(t, LF) - 1]; tail != [] ==> tail[0] == SP
  {
  }

  lemma BeginsAs(t: Bytes, rest: Bytes, n: nat)
    requires n < |t|
    ensures n < |t + rest| && forall i :: 0 <= i <= n ==> (t + rest)[i] == t[i]
  {
  }

  lemma WholeIff(found: Found, total: Option<nat>, line: nat, text: nat, len: nat)
    requires text <= len
    requires found == match total
                      case None => Bad
                      case Some(n) => if len < line + 4 + n then NeedMore else Whole(line + 4 + n)
    ensures found == Whole(text) <==> total == Some(text - line - 4)
  {
  }

  lemma TextReadBack(t: Bytes, verb: Bytes, rest: Bytes)
    requires MessageText(t, verb)
    ensures NextFrame(t + rest) == Whole(|t|) <==> Announced(t)
    ensures var r := NextFrame(t + rest); r.Whole? || r == Bad || r == NeedMore
  {
    LineEnds(t, verb);
    BeginsAs(t, rest, First(t, LF));
    LineRead(t, verb, t + rest);
    WholeIff(NextFrame(t + rest), ParseTotal(LastWord(FirstLine(t))), |FirstLine(t)|, |t|, |t + rest|);
  }

  /** A frame, whatever follows it, is read back whole, with exactly its length, if and only
      if its first line ends in the right number. */
  lemma FrameReadBack(f: Frame, rest: Bytes)
    ensures NextFrame(FrameOf(f) + rest) == Whole(|FrameOf(f)|) <==> Readable(f)
  {
    FrameIsText(f);
    TextReadBack(FrameOf(f), Verb(f), rest);
  }

  /** Without a line feed in subject, sid and reply, the first line is the control line, and
      the number it ends in is right if the reader can count so far. */
  lemma OneLineReadable(f: Frame)
    requires OneLine(f)
    ensures FirstLine(FrameOf(f)) == Head(f) && (Readable(f) <==> |Load(f)| < U64)
  {
    HeadOneLine(f);
    LineIsHead(Head(f), Load(f));
    HeadEnds(Verb(f), Args(f), |Load(f)|);
  }

  lemma LineIsHead(head: Bytes, load: Bytes)
    requires Lacks(head, LF)
    ensures var t := head + CRLF + load + CRLF; FirstLine(t) == head && |t| == |head| + 4 + |load|
  {
    var t := head + CRLF + load + CRLF;
    FirstAfter(head, load + CRLF);
    assert t == head + CRLF + (load + CRLF);
    assert t[..|head|] == head;
  }

  lemma HeadEnds(verb: Bytes, args: Bytes, n: nat)
    ensures ParseTotal(LastWord(verb + (args + [SP] + Digits(n)))) == if n < U64 then Some(n) else None
  {
    DigitsLack(n, SP);
    LastWordIs(verb + args, Digits(n));
    assert verb + (args + [SP] + Digits(n)) == verb + args + [SP] + Digits(n);
    TotalIs(n);
  }

  lemma FirstAfter(head: Bytes, after: Bytes)
    requires Lacks(head, LF)
    ensures First(head + CRLF + after, LF) == |head| + 1
  {
    var src := head + CRLF + after;
    assert src[|head|] == CR && src[|head| + 1] == LF;
    assert forall i :: 0 <= i < |head| ==> src[i] == head[i];
  }

  /** A subject that holds a line feed can still be read back by accident: on the subject `6x`
      and a line feed, what the reader takes for a size is just right. */
  lemma RightByAccident()
    ensures var f := Message([54, 120, LF], [49], None, 0, [], false); !OneLine(f) && Readable(f)
  {
    var f := Message([54, 120, LF], [49], None, 0, [], false);
    assert Target(f)[2] == LF;
    AccidentText(FrameOf(f));
  }

  lemma AccidentText(t: Bytes)
    requires t == FrameOf(Message([54, 120, LF], [49], None, 0, [], false))
    ensures Announced(t)
  {
    var f := Message([54, 120, LF], [49], None, 0, [], false);
    assert Digits(0) == [48];
    assert Args(f) == [SP, 54, 120, LF, SP, 49];
    assert Head(f) == [77, 83, 71, SP, 54, 120, LF, SP, 49, SP, 48];
    AccidentLine(t);
  }

  lemma AccidentLine(t: Bytes)
    requires t == [77, 83, 71, SP, 54, 120, LF, SP, 49, SP, 48] + CRLF + [] + CRLF
    ensures Announced(t)
  {
    FirstIs(t, LF, 6);
    assert FirstLine(t) == MSG + [SP] + [54];
    LastWordIs(MSG, [54]);
    var d: Bytes := [54];
    assert d[..0] == [];
    assert Value(d) == 6 && Trim(d) == d;
  }

  /** Any part of such a frame that is not all of it makes the reader wait. */
  lemma PartWaits(f: Frame, k: nat)
    requires Readable(f) && k < |FrameOf(f)|
    ensures NextFrame(FrameOf(f)[..k]) == NeedMore
  {
    FrameIsText(f);
    PartOfText(FrameOf(f), Verb(f), k);
  }

  lemma PartOfText(t: Bytes, verb: Bytes, k: nat)
    requires MessageText(t, verb) && Announced(t) && k < |t|
    ensures NextFrame(t[..k]) == NeedMore
  {
    LineEnds(t, verb);
    if k <= First(t, LF) {
      FirstIs(t[..k], LF, k);
    } else {
      LineRead(t, verb, t[..k]);
    }
  }

  function Texts(fs: seq<Frame>): (ts: seq<Bytes>)
    ensures |ts| == |fs| && forall i :: 0 <= i < |fs| ==> ts[i] == FrameOf(fs[i])
  {
    if fs == [] then [] else [FrameOf(fs[0])] + Texts(fs[1..])
  }

  /** The frames, end to end. */
  function Stream(fs: seq<Frame>): Bytes {
    Flatten(Texts(fs))
  }

  lemma StreamCons(fs: seq<Frame>)
    requires fs != []
    ensures Stream(fs) == FrameOf(fs[0]) + Stream(fs[1..])
  {
    assert Texts(fs)[1..] == Texts(fs[1..]);
  }

  /** However many frames of whatever kind, and however much of one more: the reader takes
      them off one by one, each exactly, and keeps the rest for later. */
  lemma {:induction false} DeliveryRoundTrip(fs: seq<Frame>, last: Frame, k: nat)
    requires forall i :: 0 <= i < |fs| ==> Readable(fs[i])
    requires Readable(last) && k < |FrameOf(last)|
    ensures Cut(Stream(fs) + FrameOf(last)[..k]) == Taken(Texts(fs), 0, false, FrameOf(last)[..k])
  {
    var part := FrameOf(last)[..k];
    if fs == [] {
      PartWaits(last, k);
      assert Stream(fs) + part == part;
    } else {
      StreamCons(fs);
      FrameReadBack(fs[0], Stream(fs[1..]) + part);
      DeliveryRoundTrip(fs[1..], last, k);
      CutOne(FrameOf(fs[0]), Stream(fs[1..]), part);
    }
  }

  /** Frames alone, none cut short: all of them are taken off, each exactly, if and only if
      the first line of each ends in the right number. */
  lemma RoundTripIff(fs: seq<Frame>)
    ensures Cut(Stream(fs)) == Taken(Texts(fs), 0, false, []) <==> forall i :: 0 <= i < |fs| ==> Readable(fs[i])
  {
    TextsRead(fs);
    CutIff(Texts(fs));
  }

  lemma {:induction false} TextsRead(fs: seq<Frame>)
    ensures var ts := Texts(fs);
            && (forall i :: 0 <= i < |ts| ==> AnyMessage(ts[i]))
            && ((forall i :: 0 <= i < |fs| ==> Readable(fs[i])) <==> forall i :: 0 <= i < |ts| ==> Announced(ts[i]))
  {
    forall i | 0 <= i < |fs|
      ensures AnyMessage(Texts(fs)[i]) && (Readable(fs[i]) <==> Announced(Texts(fs)[i]))
    {
      OneText(fs[i], Texts(fs)[i]);
    }
  }

  lemma OneText(f: Frame, t: Bytes)
    requires t == FrameOf(f)
    ensures AnyMessage(t) && (Readable(f) <==> Announced(t))
  {
    FrameIsText(f);
  }

  predicate AnyMessage(t: Bytes) { MessageText(t, MSG) || MessageText(t, HMSG) }

  lemma {:induction false} CutIff(ts: seq<Bytes>)
    requires forall i :: 0 <= i < |ts| ==> AnyMessage(ts[i])
    ensures Cut(Flatten(ts)) == Taken(ts, 0, false, []) <==> forall i :: 0 <= i < |ts| ==> Announced(ts[i])
  {
    if ts != [] {
      CutIff(ts[1..]);
      AllOrFirst(ts);
      CutFront(ts[0], Flatten(ts[1..]), ts);
    }
  }

  lemma CutFront(one: Bytes, more: Bytes, ts: seq<Bytes>)
    requires AnyMessage(one) && ts != [] && ts[0] == one
    ensures Cut(one + more) == Taken(ts, 0, false, []) <==> Announced(one) && Cut(more) == Taken(ts[1..], 0, false, [])
  {
    TextReadBack(one, if MessageText(one, MSG) then MSG else HMSG, more);
    if Announced(one) {
      CutFirst(one, more);
      ConsSame(one, Cut(more).messages, ts[1..]);
      assert [one] + ts[1..] == ts;
    } else {
      NotCutSo(one, more, ts);
    }
  }

  lemma AllOrFirst(ts: seq<Bytes>)
    requires ts != []
    ensures (forall i :: 0 <= i < |ts| ==> Announced(ts[i]))
       <==> Announced(ts[0]) && forall i :: 0 <= i < |ts[1..]| ==> Announced(ts[1..][i])
  {
    assert forall i :: 0 < i < |ts| ==> ts[i] == ts[1..][i - 1];
    assert forall i :: 0 <= i < |ts[1..]| ==> ts[1..][i] == ts[i + 1];
  }

  lemma CutFirst(one: Bytes, more: Bytes)
    requires NextFrame(one + more) == Whole(|one|)
    ensures Cut(one + more) == Cut(more).(messages := [one] + Cut(more).messages)
  {
    assert more + [] == more && one + more + [] == one + more;
    CutOne(one, more, []);
  }

  lemma ConsSame(x: Bytes, a: seq<Bytes>, b: seq<Bytes>)
    ensures [x] + a == [x] + b <==> a == b
  {
    if [x] + a == [x] + b {
      assert a == ([x] + a)[1..] && b == ([x] + b)[1..];
    }
  }

  /** What is not read whole at the front does not come off as the first piece. */
  lemma NotCutSo(one: Bytes, more: Bytes, texts: seq<Bytes>)
    requires NextFrame(one + more) != Whole(|one|) && texts != [] && texts[0] == one
    requires var r := NextFrame(one + more); r.Whole? || r == Bad || r == NeedMore
    ensures Cut(one + more).messages != texts
  {
    var src := one + more;
    var r := NextFrame(src);
    if r.Whole? {
      assert Cut(src).messages[0] == src[..r.len];
    }
  }

  // ----------------------------------------------------------------- other lines ---

  lemma Names()
    ensures MSG == Ascii("MSG") && HMSG == Ascii("HMSG") && PING == Ascii("PING") && MINUS_ERR == Ascii("-ERR")
  {
  }

  /** Up to the first space. */
  function Opening(line: Bytes): Bytes { line[..First(line, SP)] }

  /** No verb of a delivery, no PING and no error. */
  predicate Plain(word: Bytes) { word != MSG && word != HMSG && word != PING && word != MINUS_ERR }

  /** What the server says beside deliveries, without its CRLF: PING, or a line the reader steps
      over, such as INFO, +OK and PONG. */
  predicate Passing(line: Bytes) {
    line == PING || (Lacks(line, LF) && Plain(Opening(line)))
  }

  lemma LineFront(line: Bytes, rest: Bytes)
    requires Lacks(line, LF)
    ensures NextFrame(line + CRLF + rest) == Judge(line, |line| + 1, |line + CRLF + rest|)
  {
    FirstAfter(line, rest);
    assert (line + CRLF + rest)[..|line|] == line;
  }

  /** A PING is found, any other line is stepped over to its end, and an error is an error. */
  lemma LineRecognised(line: Bytes, rest: Bytes)
    requires Lacks(line, LF)
    ensures Opening(line) == PING ==> NextFrame(line + CRLF + rest) == PingFound
    ensures Opening(line) == MINUS_ERR ==> NextFrame(line + CRLF + rest) == Bad
    ensures Plain(Opening(line)) ==> NextFrame(line + CRLF + rest) == Skip(|line| + 2)
  {
    LineFront(line, rest);
    assert PING[1] != MINUS_ERR[1] && PING[0] != HMSG[0] && MINUS_ERR[0] != HMSG[0] && |MSG| == 3;
  }

  lemma CutOne(one: Bytes, more: Bytes, part: Bytes)
    requires NextFrame(one + (more + part)) == Whole(|one|)
    ensures Cut(one + more + part) == Cut(more + part).(messages := [one] + Cut(more + part).messages)
  {
    var src := one + (more + part);
    assert src == one + more + part;
    assert src[|one|..] == more + part && src[..|one|] == one;
  }

  /** What the server sends: a delivery or another line. */
  datatype Sent = Delivered(f: Frame) | Line(line: Bytes)

  predicate Orderly(x: Sent) {
    match x
    case Delivered(f) => Readable(f)
    case Line(line) => Passing(line)
  }

  predicate AllOrderly(xs: seq<Sent>) { xs == [] || (Orderly(xs[0]) && AllOrderly(xs[1..])) }

  function SentText(x: Sent): Bytes {
    match x
    case Delivered(f) => FrameOf(f)
    case Line(line) => line + CRLF
  }

  function Sending(xs: seq<Sent>): Bytes {
    if xs == [] then [] else SentText(xs[0]) + Sending(xs[1..])
  }

  function DeliveryOf(x: Sent): seq<Bytes> { if x.Line? then [] else [FrameOf(x.f)] }

  function PingOf(x: Sent): nat { if x == Line(PING) then 1 else 0 }

  function Deliveries(xs: seq<Sent>): seq<Bytes> {
    if xs == [] then [] else DeliveryOf(xs[0]) + Deliveries(xs[1..])
  }

  function Pings(xs: seq<Sent>): nat {
    if xs == [] then 0 else PingOf(xs[0]) + Pings(xs[1..])
  }

  /** These messages and so many PINGs before the rest. */
  function Before(messages: seq<Bytes>, pings: nat, more: Taken): Taken {
    more.(messages := messages + more.messages, pings := pings + more.pings)
  }

  lemma BeforeTwice(a: seq<Bytes>, m: nat, b: seq<Bytes>, n: nat, more: Taken)
    ensures Before(a, m, Before(b, n, more)) == Before(a + b, m + n, more)
  {
    Assoc(a, b, more.messages);
  }

  lemma CutPing(rest: Bytes)
    ensures Cut(PING + CRLF + rest) == Before([], 1, Cut(rest))
  {
    FirstIs(PING, SP, 4);
    assert Opening(PING) == PING;
    LineRecognised(PING, rest);
    assert (PING + CRLF + rest)[6..] == rest;
    assert [] + Cut(rest).messages == Cut(rest).messages;
  }

  lemma CutSkip(line: Bytes, rest: Bytes)
    requires Lacks(line, LF) && Plain(Opening(line))
    ensures Cut(line + CRLF + rest) == Before([], 0, Cut(rest))
  {
    LineRecognised(line, rest);
    assert (line + CRLF + rest)[|line| + 2..] == rest;
    assert [] + Cut(rest).messages == Cut(rest).messages;
  }

  lemma CutSent(x: Sent, rest: Bytes)
    requires Orderly(x)
    ensures Cut(SentText(x) + rest) == Before(DeliveryOf(x), PingOf(x), Cut(rest))
  {
    if x == Line(PING) {
      CutPing(rest);
    } else if x.Line? {
      CutSkip(x.line, rest);
    } else {
      FrameReadBack(x.f, rest);
      CutFirst(FrameOf(x.f), rest);
    }
  }

  /** Deliveries and other lines in any order, and whatever follows: the reader takes off exactly
      the deliveries, one by one, answers each PING, and steps over the rest. */
  lemma {:induction false} MixedRoundTrip(xs: seq<Sent>, tail: Bytes)
    requires AllOrderly(xs)
    ensures Cut(Sending(xs) + tail) == Before(Deliveries(xs), Pings(xs), Cut(tail))
  {
    if xs == [] {
      assert Sending(xs) + tail == tail && [] + Cut(tail).messages == Cut(tail).messages;
    } else {
      MixedRoundTrip(xs[1..], tail);
      SendingFirst(xs, tail);
      OneMoreSent(xs[0], Sending(xs[1..]) + tail, Deliveries(xs[1..]), Pings(xs[1..]), Cut(tail));
    }
  }

  lemma OneMoreSent(x: Sent, rest: Bytes, messages: seq<Bytes>, pings: nat, more: Taken)
    requires Orderly(x) && Cut(rest) == Before(messages, pings, more)
    ensures Cut(SentText(x) + rest) == Before(DeliveryOf(x) + messages, PingOf(x) + pings, more)
  {
    CutSent(x, rest);
    BeforeTwice(DeliveryOf(x), PingOf(x), messages, pings, more);
  }

  lemma SendingFirst(xs: seq<Sent>, tail: Bytes)
    requires xs != []
    ensures Sending(xs) + tail == SentText(xs[0]) + (Sending(xs[1..]) + tail)
  {
    Assoc(SentText(xs[0]), Sending(xs[1..]), tail);
  }

  /** A line feed at the start of a subject, which the parser lets through, and the reader
      takes the frame for an error. */
  lemma LineFeedBreaks(f: Frame, rest: Bytes)
    requires Target(f) != [] && Target(f)[0] == LF
    ensures NextFrame(FrameOf(f) + rest) == Bad
  {
    var src, v := FrameOf(f) + rest, Verb(f);
    VerbThenFeed(f);
    assert src[..|v| + 2] == v + [SP, LF];
    FeedFound(v, src);
  }

  lemma VerbThenFeed(f: Frame)
    requires Target(f) != [] && Target(f)[0] == LF
    ensures |FrameOf(f)| >= |Verb(f)| + 2 && FrameOf(f)[..|Verb(f)| + 2] == Verb(f) + [SP, LF]
  {
    var v, t := Verb(f), Target(f);
    assert Args(f)[..2] == [SP, LF];
    assert Head(f)[..|v| + 2] == v + [SP, LF];
  }

  lemma FeedFound(v: Bytes, src: Bytes)
    requires v == MSG || v == HMSG
    requires |src| >= |v| + 2 && src[..|v| + 2] == v + [SP, LF]
    ensures NextFrame(src) == Bad
  {
    assert forall i :: 0 <= i < |v| + 2 ==> src[i] == src[..|v| + 2][i];
    assert forall i :: 0 <= i < |v| ==> src[i] == v[i];
    assert src[|v|] == SP && src[|v| + 1] == LF;
    assert First(src, LF) == |v| + 1;
    assert src[..|v|] == v;
    assert First(v, SP) == |v|;
    assert v[..|v|] == v && v[|v|..] == [];
    assert LastWord([]) == [] && Trim([]) == [];
  }

  // ------------------------------------------------------------------- its length ---

  /** The room a message asks the arena for. */
  function Need(f: Frame): nat
    requires f.Message?
  {
    48 + |f.subject| + |f.sid| + (if f.reply.Some? then |f.reply.value| else 0) + |Load(f)| + 2 * |CRLF|
  }

  lemma NineDigits(n: nat)
    requires n < 1_000_000_000
    ensures 1 <= |Digits(n)| <= 9
  {
    assert Pow10(9) == 1_000_000_000 by {
      assert Pow10(3) == 1000;
      assert Pow10(6) == 1000 * Pow10(3);
      assert Pow10(9) == 1000 * Pow10(6);
    }
    DigitsLen(n, 9);
  }

  /** A message whose sizes a line could declare fits the room it asks for, and leaves at
      most 41 bytes of it. */
  lemma FrameFits(f: Frame)
    requires f.Message? && |f.body| < 1_000_000_000
    ensures |FrameOf(f)| <= Need(f) <= |FrameOf(f)| + 41
  {
    NineDigits(f.hdr);
    NineDigits(|Load(f)|);
    assert |Head(f)| == |Verb(f)| + 1 + |f.subject| + 1 + |f.sid| + |ReplyPart(f)| + |HeaderPart(f)| + 1 + |Digits(|Load(f)|)|;
    assert |FrameOf(f)| == |Head(f)| + 2 + |Load(f)| + 2;
  }

  /** The length the status frame's own assertion expects is its length only when its size
      has fifteen digits. */
  lemma StatusAssertion(f: Frame)
    requires f.Status?
    ensures |Head(f) + CRLF + Load(f)| == 48 + |f.inbox| + |f.sid| - 8 + HeaderLen(f)
            <==> |Digits(HeaderLen(f))| == 15
  {
    StatusSize(f);
  }
}
