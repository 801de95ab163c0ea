/** Publishing, there and back: the frames a client prints, read by the server's parser. */
module Publishing {
  import opened ByteStrings
  import opened Decimal
  import opened Lines
  import opened Grammar
  import opened Parser
  import opened Cuts

  /** A publish as a client means it; with a header block it goes out as HPUB. */
  datatype Message = Message(subject: Bytes, reply: Option<Bytes>, hdr: Option<Bytes>, payload: Bytes)

  function HeaderLen(m: Message): nat {
    if m.hdr.Some? then |m.hdr.value| else 0
  }

  function Body(m: Message): Bytes {
    if m.hdr.Some? then m.hdr.value + m.payload else m.payload
  }

  /** Each argument after a space. */
  function Spaced(args: seq<Bytes>): (s: Bytes)
    ensures args == [] ==> s == []
    ensures args != [] ==> s != [] && s[0] == SP
  {
    if args == [] then [] else [SP] + args[0] + Spaced(args[1..])
  }

  lemma {:induction false} SpacedJoin(a: seq<Bytes>, b: seq<Bytes>)
    ensures Spaced(a + b) == Spaced(a) + Spaced(b)
  {
    if a == [] {
      assert a + b == b;
    } else {
      SpacedJoin(a[1..], b);
      assert (a + b)[1..] == a[1..] + b;
      Assoc([SP] + a[0], Spaced(a[1..]), Spaced(b));
    }
  }

  lemma SpacedOne(a: Bytes)
    ensures Spaced([a]) == [SP] + a
  {
    assert [a][1..] == [] && Spaced([]) == [];
  }

  lemma SpacedTwo(a: Bytes, b: Bytes)
    ensures Spaced([a, b]) == ([SP] + a) + ([SP] + b)
  {
    SpacedOne(a);
    SpacedOne(b);
    SpacedJoin([a], [b]);
    assert [a] + [b] == [a, b];
  }

  function ArgsOf(m: Message): (args: seq<Bytes>)
    ensures 2 <= |args| <= 4
  {
    [m.subject]
    + (if m.reply.Some? then [m.reply.value] else [])
    + (if m.hdr.Some? then [Digits(HeaderLen(m))] else [])
    + [Digits(|Body(m)|)]
  }

  function ControlLine(m: Message): Bytes {
    (if m.hdr.Some? then HPUB else PUB) + Spaced(ArgsOf(m))
  }

  /** The frame on the wire: control line, CRLF, body, CRLF. */
  function Printed(m: Message): Bytes {
    ControlLine(m) + CRLF + Body(m) + CRLF
  }

  function PrintedAll(ms: seq<Message>): Bytes {
    if ms == [] then [] else Printed(ms[0]) + PrintedAll(ms[1..])
  }

  /** The operations a publish amounts to. */
  function Events(m: Message): seq<Event> {
    Marker(m) + PublishEvent(m)
  }

  function Marker(m: Message): seq<Event> {
    if m.hdr.Some? then [HpubAttempt(Good)] else []
  }

  function PublishEvent(m: Message): seq<Event> {
    [Publish(m.subject, m.reply, HeaderLen(m), |Body(m)|, Body(m), m.hdr.Some?)]
  }

  function EventsOfAll(ms: seq<Message>): seq<Event> {
    if ms == [] then [] else Events(ms[0]) + EventsOfAll(ms[1..])
  }

  predicate NoCrlf(s: Bytes) {
    forall i :: 0 <= i < |s| - 1 ==> !(s[i] == CR && s[i + 1] == LF)
  }

  /** An argument that can be told from its neighbours and does not end the line. */
  predicate Token(a: Bytes) { Word(a) && NoCrlf(a) }

  /** A publish that can be spelt out: its arguments are tokens, and its size has nine digits
      at most. */
  predicate Spelt(m: Message) {
    Token(m.subject) && (m.reply.Some? ==> Token(m.reply.value)) && |Body(m)| < 1_000_000_000
  }

  /** And is within the limits. */
  predicate Fits(m: Message, lim: Limits) {
    Spelt(m) && |ControlLine(m)| <= lim.maxControlLine && |Body(m)| <= lim.maxPayload
  }

  // ------------------------------------------------------------- reading lines ---

  lemma {:induction false} FieldsOfSpaced(args: seq<Bytes>)
    requires forall a :: a in args ==> Word(a)
    ensures Fields(Spaced(args)) == args
  {
    if args != [] {
      assert Word(args[0]);
      FieldFirst(args[0], Spaced(args[1..]));
      FieldsOfSpaced(args[1..]);
    }
  }

  lemma WordFirst(a: Bytes, tail: Bytes)
    requires Word(a) && (tail != [] ==> tail[0] == SP)
    ensures Fields(a + tail) == [a] + Fields(tail)
  {
    var s := a + tail;
    assert |a| < |s| ==> s[|a|] == tail[0];
    TokenLenIs(s, |a|);
    assert s[..|a|] == a && s[|a|..] == tail;
  }

  lemma FieldFirst(a: Bytes, tail: Bytes)
    requires Word(a) && (tail != [] ==> tail[0] == SP)
    ensures Fields([SP] + a + tail) == [a] + Fields(tail)
  {
    WordFirst(a, tail);
    assert ([SP] + a + tail)[1..] == a + tail;
  }

  lemma {:induction false} SpacedNoCrlf(args: seq<Bytes>)
    requires forall a :: a in args ==> Token(a)
    ensures NoCrlf(Spaced(args))
  {
    if args != [] {
      SpacedNoCrlf(args[1..]);
      var s, a, tail := Spaced(args), args[0], Spaced(args[1..]);
      assert Token(args[0]);
      forall i | 0 <= i < |s| - 1
        ensures !(s[i] == CR && s[i + 1] == LF)
      {
        assert s == [SP] + (a + tail);
        if 1 <= i < |a| {
          assert s[i] == a[i - 1] && s[i + 1] == a[i];
        } else if i == |a| {
          assert s[i + 1] == tail[0] == SP;
        } else if i > |a| {
          assert s[i] == tail[i - 1 - |a|] && s[i + 1] == tail[i - |a|];
        }
      }
    }
  }

  lemma ArgsAreTokens(m: Message)
    requires Spelt(m)
    ensures forall a :: a in ArgsOf(m) ==> Token(a)
  {
    DigitsAreToken(|Body(m)|);
    DigitsAreToken(HeaderLen(m));
  }

  lemma DigitsAreToken(n: nat)
    ensures Token(Digits(n))
  {
  }

  /** What a publish declares, whatever the limits. */
  lemma LineDeclares(m: Message)
    requires Spelt(m)
    ensures Declares(ControlLine(m), m.subject, m.reply, HeaderLen(m), |Body(m)|, m.hdr.Some?)
  {
    var line, verb, args := ControlLine(m), PubName(m.hdr.Some?), ArgsOf(m);
    ArgsAreTokens(m);
    VerbLeads(line, verb, if m.hdr.Some? then HPUB else PUB, Spaced(args));
    FieldsOfSpaced(args);
    SizeRoundTrip(|Body(m)|);
    SizeRoundTrip(HeaderLen(m));
    DeclaresArgs(line, m.subject, m.reply, HeaderLen(m), |Body(m)|, m.hdr.Some?);
  }

  lemma VerbLeads(line: Bytes, verb: string, v: Bytes, rest: Bytes)
    requires line == v + rest && InCapitals(verb, v) && rest != [] && rest[0] == SP
    ensures Heard(line, verb) && line[|verb|..] == rest
  {
    assert forall i :: 0 <= i < |v| ==> line[i] == v[i];
    assert line[|v|] == rest[0];
  }

  /** The control line of a publish asks for exactly its body if that is within the limit, and
      is otherwise refused with these words. */
  lemma LineRead(m: Message, lim: Limits)
    requires Spelt(m)
    ensures ParseLine(ControlLine(m), lim)
         == if |Body(m)| <= lim.maxPayload then
              Accept(AwaitBody(m.subject, m.reply, HeaderLen(m), |Body(m)|, m.hdr.Some?))
            else Reject(Fatal("Maximum Payload Violation"))
  {
    LineDeclares(m);
    if |Body(m)| <= lim.maxPayload {
      PublishIff(ControlLine(m), lim, m.subject, m.reply, HeaderLen(m), |Body(m)|, m.hdr.Some?);
    } else {
      OversizeIff(ControlLine(m), lim);
    }
  }

  /** One frame at the front of the stream gives its operations and nothing else is read. */
  lemma FrameRead(m: Message, rest: Bytes, lim: Limits)
    requires Fits(m, lim)
    ensures Parse(OnLine, Printed(m) + rest, lim) == After(Events(m), Parse(OnLine, rest, lim))
  {
    LinePaced(m, rest, lim);
    BodyPaced(m, rest, lim);
    TwoPaces(Printed(m) + rest, Awaiting(m), Body(m) + CRLF + rest, rest, Marker(m), PublishEvent(m), lim);
  }

  lemma TwoPaces(p: Bytes, s: Stand, q: Bytes, rest: Bytes, a: seq<Event>, b: seq<Event>, lim: Limits)
    requires PaceOf(OnLine, p, lim) == Go(a, s, q) && PaceOf(s, q, lim) == Go(b, OnLine, rest)
    ensures Parse(OnLine, p, lim) == After(a + b, Parse(OnLine, rest, lim))
  {
    Assoc(a, b, Parse(OnLine, rest, lim).events);
  }

  function Awaiting(m: Message): Stand {
    OnBody(m.subject, m.reply, HeaderLen(m), |Body(m)|, m.hdr.Some?)
  }

  lemma LinePaced(m: Message, rest: Bytes, lim: Limits)
    requires Fits(m, lim)
    ensures PaceOf(OnLine, Printed(m) + rest, lim) == Go(Marker(m), Awaiting(m), Body(m) + CRLF + rest)
  {
    var line, p := ControlLine(m), Printed(m) + rest;
    LineRead(m, lim);
    LineFound(m, rest);
    assert p == line + CRLF + (Body(m) + CRLF + rest);
    assert p[|line| + 2..] == Body(m) + CRLF + rest && p[..|line|] == line;
  }

  lemma BodyPaced(m: Message, rest: Bytes, lim: Limits)
    ensures PaceOf(Awaiting(m), Body(m) + CRLF + rest, lim) == Go(PublishEvent(m), OnLine, rest)
  {
    var body, q := Body(m), Body(m) + CRLF + rest;
    assert q[..|body|] == body && q[|body| + 2..] == rest && q[|body|] == CR && q[|body| + 1] == LF;
  }

  /** A line that can be followed by its end: no pair of its own, and not begun by a line feed. */
  predicate Lineable(line: Bytes) { NoCrlf(line) && (line != [] ==> line[0] != LF) }

  lemma FindsEnd(line: Bytes, rest: Bytes)
    requires Lineable(line)
    ensures var p := line + CRLF + rest;
            && p != [] && p[0] != LF && FindCrlf(p) == Some(|line|)
            && p[..|line|] == line && p[|line| + 2..] == rest
  {
    var p := line + CRLF + rest;
    assert p[|line|] == CR && p[|line| + 1] == LF;
    forall i | 0 <= i < |line|
      ensures !(p[i] == CR && p[i + 1] == LF)
    {
      assert p[i] == line[i] && (i + 1 < |line| ==> p[i + 1] == line[i + 1]);
    }
    FindCrlfIs(p, |line|);
  }

  lemma LeadsLine(verb: Bytes, rest: Bytes)
    requires verb != [] && verb[0] != LF && (forall i :: 0 <= i < |verb| ==> verb[i] != CR) && NoCrlf(rest)
    ensures Lineable(verb + rest)
  {
    var line := verb + rest;
    forall i | 0 <= i < |line| - 1
      ensures !(line[i] == CR && line[i + 1] == LF)
    {
      if i >= |verb| {
        assert line[i] == rest[i - |verb|] && line[i + 1] == rest[i + 1 - |verb|];
      } else {
        assert line[i] == verb[i];
      }
    }
  }

  lemma LineIsLineable(m: Message)
    requires Spelt(m)
    ensures Lineable(ControlLine(m))
  {
    ArgsAreTokens(m);
    SpacedNoCrlf(ArgsOf(m));
    LeadsLine(if m.hdr.Some? then HPUB else PUB, Spaced(ArgsOf(m)));
  }

  lemma LineFound(m: Message, rest: Bytes)
    requires Spelt(m)
    ensures var p := Printed(m) + rest; p[0] != LF && FindCrlf(p) == Some(|ControlLine(m)|)
  {
    LineIsLineable(m);
    FindsEnd(ControlLine(m), Body(m) + CRLF + rest);
    assert Printed(m) + rest == ControlLine(m) + CRLF + (Body(m) + CRLF + rest);
  }

  lemma {:induction false} FramesRead(ms: seq<Message>, lim: Limits)
    requires forall m :: m in ms ==> Fits(m, lim)
    ensures Parse(OnLine, PrintedAll(ms), lim) == Reading(EventsOfAll(ms), Waiting, OnLine, [])
  {
    if ms != [] {
      FrameRead(ms[0], PrintedAll(ms[1..]), lim);
      FramesRead(ms[1..], lim);
    }
  }

  lemma {:induction false} NothingRead(chunks: seq<Bytes>, lim: Limits)
    requires Flatten(chunks) == []
    ensures Run(AtLine, [], chunks, lim) == Outcome([], Waiting, AtLine, [])
  {
    if chunks != [] {
      var none: Bytes := [];
      assert chunks[0] == [] && none + chunks[0] == none;
      assert Feed(AtLine, [], lim) == Outcome([], Waiting, AtLine, []);
      NothingRead(chunks[1..], lim);
    }
  }

  /** Any publishes, printed one after another and received in any reads, come back as
      exactly those publishes, in order, each HPUB announced by its marker, with nothing
      left over; bodies are counted and not scanned, so a CRLF in one changes nothing. */
  lemma PublishRoundTrip(ms: seq<Message>, chunks: seq<Bytes>, lim: Limits)
    requires forall m :: m in ms ==> Fits(m, lim)
    requires Flatten(chunks) == PrintedAll(ms)
    ensures View(Run(AtLine, [], chunks, lim)) == Reading(EventsOfAll(ms), Waiting, OnLine, [])
  {
    FramesRead(ms, lim);
    var none: Bytes := [];
    if ms == [] {
      NothingRead(chunks, lim);
    } else {
      assert ms[0] in ms;
      assert Held(AtLine) + none + Flatten(chunks) == PrintedAll(ms);
      RunRefines(AtLine, none, chunks, lim);
    }
  }

  /** In one read or two, the bodies too are the ones published. */
  lemma PublishRoundTripExact(ms: seq<Message>, chunks: seq<Bytes>, lim: Limits)
    requires |chunks| <= 2
    requires forall m :: m in ms ==> Fits(m, lim)
    requires Flatten(chunks) == PrintedAll(ms)
    ensures Actuals(Run(AtLine, [], chunks, lim).events) == EventsOfAll(ms)
  {
    PublishRoundTrip(ms, chunks, lim);
    RunPieces(AtLine, [], chunks, lim);
    FewPieces(Run(AtLine, [], chunks, lim).events);
  }

  /** The smallest failure, of any publish with or without reply and headers: a body that
      comes in three reads is handed on with its last part first. */
  lemma ThreeReads(m: Message, a: Bytes, b: Bytes, c: Bytes, lim: Limits)
    requires a != [] && b != [] && c != [] && Body(m) == a + b + c && Fits(m, lim)
    ensures var chunks := [ControlLine(m) + CRLF + a, b, c + CRLF];
            && Flatten(chunks) == Printed(m)
            && Actuals(Run(AtLine, [], chunks, lim).events)
               == Marker(m) + [Publish(m.subject, m.reply, HeaderLen(m), |a + b + c|, c + a + b, m.hdr.Some?)]
  {
    ThreeChunks(ControlLine(m) + CRLF, a, b, c);
    ThreeReadsRun(m, a, b, c, lim);
    ThreePieces(m, a, b, c);
    ActualsAppend([], Announced(m), [Whole(m, [a, b, c])]);
  }

  /** The marker, as the parser notes it. */
  function Announced(m: Message): seq<Traced> {
    if m.hdr.Some? then [Plain(HpubAttempt(Good))] else []
  }

  function Whole(m: Message, pieces: seq<Bytes>): Traced {
    Pieced(m.subject, m.reply, HeaderLen(m), m.hdr.Some?, pieces)
  }

  /** In the body of `m`, with these pieces of it. */
  function Mid(m: Message, pieces: seq<Bytes>): State {
    InBody(m.subject, m.reply, HeaderLen(m), |Body(m)|, m.hdr.Some?, pieces)
  }

  lemma ThreeReadsRun(m: Message, a: Bytes, b: Bytes, c: Bytes, lim: Limits)
    requires a != [] && b != [] && c != [] && Body(m) == a + b + c && Fits(m, lim)
    ensures Run(AtLine, [], [ControlLine(m) + CRLF + a, b, c + CRLF], lim).events
         == Announced(m) + [Whole(m, [a, b, c])]
  {
    ThreeReadsFirst(m, a, b + c, lim);
    ThreeReadsNext(m, a, b, c, lim);
    RunOfThree(ControlLine(m) + CRLF + a, b, c + CRLF, Mid(m, [a]), Mid(m, [a, b]),
               Announced(m), Whole(m, [a, b, c]), lim);
  }

  lemma ThreePieces(m: Message, a: Bytes, b: Bytes, c: Bytes)
    ensures Actuals([Whole(m, [a, b, c])])
         == [Publish(m.subject, m.reply, HeaderLen(m), |a + b + c|, c + a + b, m.hdr.Some?)]
    ensures Actuals(Announced(m)) == Marker(m)
  {
    ThreeAssembled(a, b, c);
  }

  lemma ThreeChunks(h: Bytes, a: Bytes, b: Bytes, c: Bytes)
    ensures Flatten([h + a, b, c + CRLF]) == h + (a + b + c) + CRLF
  {
    FlattenThree(h + a, b, c + CRLF);
    assert h + a + b + (c + CRLF) == h + (a + b + c) + CRLF;
  }

  lemma ThreeAssembled(a: Bytes, b: Bytes, c: Bytes)
    ensures Assembled([a, b, c]) == c + a + b
  {
    assert [a, b, c][..2] == [a] + [b] && [a] == [] + [a];
    FlattenSnoc([], a);
    FlattenSnoc([a], b);
    assert c + (a + b) == c + a + b;
  }

  lemma FlattenThree(x: Bytes, y: Bytes, z: Bytes)
    ensures Flatten([x, y, z]) == x + y + z
  {
    assert [x, y, z] == [] + [x] + [y] + [z];
    FlattenSnoc([], x);
    FlattenSnoc([] + [x], y);
    FlattenSnoc([] + [x] + [y], z);
  }

  lemma ThreeReadsNext(m: Message, a: Bytes, b: Bytes, c: Bytes, lim: Limits)
    requires Body(m) == a + b + c && a != [] && b != [] && c != []
    ensures ValidState(Mid(m, [a])) && ValidState(Mid(m, [a, b]))
    ensures Feed(Mid(m, [a]), b, lim) == Outcome([], Waiting, Mid(m, [a, b]), [])
    ensures Feed(Mid(m, [a, b]), c + CRLF, lim) == Outcome([Whole(m, [a, b, c])], Waiting, AtLine, [])
  {
    FlattenSnoc([], a);
    FlattenSnoc([a], b);
    assert [] + [a] == [a] && [a] + [b] == [a, b] && [a, b] + [c] == [a, b, c];
    assert b[..|b|] == b && b[|b|..] == [];
    assert Taken(Mid(m, [a]), b) == (Mid(m, [a, b]), []);
    var d := c + CRLF;
    assert d[..|c|] == c && d[|c|..] == CRLF && CRLF[2..] == [];
    FlattenSnoc([a, b], c);
    assert Taken(Mid(m, [a, b]), d) == (Mid(m, [a, b, c]), CRLF);
    assert Step(Mid(m, [a, b]), d, lim) == Advance([Whole(m, [a, b, c])], AtLine, []);
    assert Feed(AtLine, [], lim) == Outcome([], Waiting, AtLine, []);
  }

  lemma RunOfThree(x: Bytes, y: Bytes, z: Bytes, s1: State, s2: State, first: seq<Traced>, t: Traced, lim: Limits)
    requires ValidState(s1) && ValidState(s2)
    requires Feed(AtLine, x, lim) == Outcome(first, Waiting, s1, [])
    requires Feed(s1, y, lim) == Outcome([], Waiting, s2, [])
    requires Feed(s2, z, lim) == Outcome([t], Waiting, AtLine, [])
    ensures Run(AtLine, [], [x, y, z], lim).events == first + [t]
  {
    var none: Bytes := [];
    assert none + x == x && none + y == y && none + z == z;
    assert [x, y, z][1..] == [y, z] && [y, z][1..] == [z] && [z][1..] == [];
    assert Run(s2, [], [z], lim) == Prefixed([t], Run(AtLine, [], [], lim));
    assert Run(s1, [], [y, z], lim) == Prefixed([], Run(s2, [], [z], lim));
  }

  lemma ThreeReadsFirst(m: Message, a: Bytes, more: Bytes, lim: Limits)
    requires a != [] && more != [] && Body(m) == a + more && Fits(m, lim)
    ensures Feed(AtLine, ControlLine(m) + CRLF + a, lim) == Outcome(Announced(m), Waiting, Mid(m, [a]), [])
  {
    var st := Mid(m, []);
    ThreeReadsLine(m, a, more, lim);
    assert Flatten([]) == [];
    assert a[..|a|] == a && a[|a|..] == [] && [] + [a] == [a];
    assert Taken(st, a) == (st.(pieces := [a]), []);
    FlattenSnoc([], a);
    assert Step(st, a, lim) == Halt(Outcome([], Waiting, st.(pieces := [a]), []));
    assert Announced(m) + [] == Announced(m);
  }

  lemma ThreeReadsLine(m: Message, a: Bytes, more: Bytes, lim: Limits)
    requires Body(m) == a + more && Fits(m, lim)
    ensures Step(AtLine, ControlLine(m) + CRLF + a, lim) == Advance(Announced(m), Mid(m, []), a)
  {
    var line := ControlLine(m);
    var x := line + CRLF + a;
    LineRead(m, lim);
    LineFound(m, []);
    var p := Printed(m) + [];
    assert p == x + (more + CRLF);
    assert x[|line|] == CR && x[|line| + 1] == LF;
    forall i | 0 <= i < |line|
      ensures !(x[i] == CR && x[i + 1] == LF)
    {
      assert x[i] == p[i] && x[i + 1] == p[i + 1];
    }
    FindCrlfIs(x, |line|);
    assert x[..|line|] == line && x[|line| + 2..] == a && x[0] == p[0];
  }
}
