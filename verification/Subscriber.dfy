/** A delivered frame as its subscriber reads it: the control line, up to its CRLF, taken apart
    by position, and then the bytes it counts. */
module Subscriber {
  import opened ByteStrings
  import opened Decimal
  import opened Grammar
  import opened Delivery
  import Lines
  import P = Publishing

  /** Nothing in it could be taken for a gap between arguments. */
  predicate InWords(f: Frame) {
    && Word(Target(f)) && Word(f.sid)
    && (f.Message? && f.reply.Some? && f.reply.value != [] ==> Word(f.reply.value))
  }

  /** The reply, if it is given and not empty. */
  function ReplyOf(f: Frame): seq<Bytes> {
    if f.Message? && f.reply.Some? && f.reply.value != [] then [f.reply.value] else []
  }

  function HeaderSize(f: Frame): seq<Bytes> {
    if Tagged(f) then [Digits(HeaderLen(f))] else []
  }

  /** The arguments of the control line, in order. */
  function ArgsOf(f: Frame): seq<Bytes> {
    [Target(f), f.sid] + ReplyOf(f) + HeaderSize(f) + [Digits(|Load(f)|)]
  }

  lemma SpacedArgs(a: Bytes, b: Bytes, c: seq<Bytes>, d: seq<Bytes>, e: Bytes)
    ensures P.Spaced([a, b] + c + d + [e]) == [SP] + a + [SP] + b + P.Spaced(c) + P.Spaced(d) + [SP] + e
  {
    P.SpacedTwo(a, b);
    P.SpacedJoin([a, b], c);
    P.SpacedJoin([a, b] + c, d);
    P.SpacedJoin([a, b] + c + d, [e]);
    P.SpacedOne(e);
    Regroup([SP] + a, b, P.Spaced(c) + P.Spaced(d), e);
    Assoc(([SP] + a) + ([SP] + b), P.Spaced(c), P.Spaced(d));
    Assoc([SP] + a + [SP] + b, P.Spaced(c), P.Spaced(d));
  }

  lemma Regroup(x: Bytes, b: Bytes, m: Bytes, e: Bytes)
    ensures x + ([SP] + b) + m + ([SP] + e) == x + [SP] + b + m + [SP] + e
  {
  }

  lemma HeadIsSpaced(f: Frame)
    ensures Head(f) == Verb(f) + P.Spaced(ArgsOf(f))
  {
    OptionsSpaced(f);
    SpacedArgs(Target(f), f.sid, ReplyOf(f), HeaderSize(f), Digits(|Load(f)|));
  }

  lemma OptionsSpaced(f: Frame)
    ensures ReplyPart(f) == P.Spaced(ReplyOf(f)) && HeaderPart(f) == P.Spaced(HeaderSize(f))
  {
    P.SpacedOne(Digits(HeaderLen(f)));
    if ReplyOf(f) != [] {
      P.SpacedOne(f.reply.value);
    }
  }

  lemma {:induction false} FieldsAreWords(s: Bytes)
    ensures forall i :: 0 <= i < |Lines.Fields(s)| ==> Word(Lines.Fields(s)[i])
    decreases |s|
  {
    if s == [] {
    } else if Blank(s[0]) {
      FieldsAreWords(s[1..]);
    } else {
      var n := Lines.TokenLen(s);
      FieldsAreWords(s[n..]);
      assert Word(s[..n]);
    }
  }

  /** All of a list are words. */
  predicate Wordy(args: seq<Bytes>) { forall i :: 0 <= i < |args| ==> Word(args[i]) }

  lemma SpacedIff(verb: Bytes, args: seq<Bytes>)
    requires Word(verb)
    ensures Lines.Fields(verb + P.Spaced(args)) == [verb] + args <==> Wordy(args)
  {
    P.WordFirst(verb, P.Spaced(args));
    FieldsAreWords(P.Spaced(args));
    var got := Lines.Fields(P.Spaced(args));
    if [verb] + got == [verb] + args {
      assert got == ([verb] + got)[1..] && args == ([verb] + args)[1..];
    }
    if Wordy(args) {
      P.FieldsOfSpaced(args);
    }
  }

  lemma ArgsWordy(f: Frame)
    ensures Wordy(ArgsOf(f)) <==> InWords(f)
  {
    var args := ArgsOf(f);
    P.DigitsAreToken(|Load(f)|);
    P.DigitsAreToken(HeaderLen(f));
    assert args[0] == Target(f) && args[1] == f.sid;
    if ReplyOf(f) != [] {
      assert args[2] == f.reply.value;
    }
  }

  /** The control line of a message has these fields, in these places, if and only if subject,
      sid and reply are words: the verb, the subject, the sid, the reply if there is one, for
      HMSG the size of the headers, and the size of what follows. */
  lemma MessageFields(f: Frame)
    requires f.Message?
    ensures var tagged := f.hdr > 0 && f.headers;
            Lines.Fields(Head(f))
            == [Ascii(if tagged then "HMSG" else "MSG"), f.subject, f.sid]
               + (if f.reply.Some? && f.reply.value != [] then [f.reply.value] else [])
               + (if tagged then [Digits(f.hdr)] else [])
               + [Digits(|f.body| - if f.headers then 0 else f.hdr)]
            <==> InWords(f)
  {
    HeadFields(f);
    MessageArgs(f);
  }

  lemma MessageArgs(f: Frame)
    requires f.Message?
    ensures var tagged := f.hdr > 0 && f.headers;
            [Verb(f)] + ArgsOf(f)
            == [Ascii(if tagged then "HMSG" else "MSG"), f.subject, f.sid]
               + (if f.reply.Some? && f.reply.value != [] then [f.reply.value] else [])
               + (if tagged then [Digits(f.hdr)] else [])
               + [Digits(|f.body| - if f.headers then 0 else f.hdr)]
  {
    VerbIs(f);
    assert |Load(f)| == |f.body| - if f.headers then 0 else f.hdr;
    Front(Verb(f), f.subject, f.sid, ReplyOf(f), HeaderSize(f), Digits(|Load(f)|));
  }

  lemma Front(verb: Bytes, a: Bytes, b: Bytes, c: seq<Bytes>, d: seq<Bytes>, e: Bytes)
    ensures [verb] + ([a, b] + c + d + [e]) == [verb, a, b] + c + d + [e]
  {
  }

  lemma HeadFields(f: Frame)
    ensures Lines.Fields(Head(f)) == [Verb(f)] + ArgsOf(f) <==> InWords(f)
  {
    HeadIsSpaced(f);
    SpacedIff(Verb(f), ArgsOf(f));
    ArgsWordy(f);
  }

  /** And of a status frame. */
  lemma StatusFields(f: Frame)
    requires f.Status?
    ensures var size := Digits(32 + |f.published|);
            Lines.Fields(Head(f)) == [Ascii("HMSG"), f.inbox, f.sid, size, size] <==> InWords(f)
  {
    HeadFields(f);
    StatusArgs(f);
  }

  lemma StatusArgs(f: Frame)
    requires f.Status?
    ensures var size := Digits(32 + |f.published|); [Verb(f)] + ArgsOf(f) == [Ascii("HMSG"), f.inbox, f.sid, size, size]
  {
    StatusSize(f);
    VerbIs(f);
    Front(Verb(f), f.inbox, f.sid, [], HeaderSize(f), Digits(|Load(f)|));
  }

  // ------------------------------------------------------------------- there and back ---

  /** What a subscriber learns. */
  datatype Received = Received(subject: Bytes, sid: Bytes, reply: Option<Bytes>, header: Bytes, payload: Bytes)

  function Number(d: Bytes): Option<nat> {
    if d != [] && AllDigits(d) then Some(Value(d)) else None
  }

  /** The frame at the front, its line read by position. */
  function Receive(t: Bytes): Option<Received> {
    match FindCrlf(t)
    case None => None
    case Some(at) => Unpack(Lines.Fields(t[..at]), t[at + 2..])
  }

  function Unpack(fields: seq<Bytes>, rest: Bytes): Option<Received> {
    var n := |fields|;
    if fields == [] then None
    else if fields[0] == Ascii("MSG") && (n == 4 || n == 5) then
      Part(fields[1], fields[2], if n == 5 then Some(fields[3]) else None, Some(0), Number(fields[n - 1]), rest)
    else if fields[0] == Ascii("HMSG") && (n == 5 || n == 6) then
      Part(fields[1], fields[2], if n == 6 then Some(fields[3]) else None, Number(fields[n - 2]), Number(fields[n - 1]), rest)
    else None
  }

  function Part(subject: Bytes, sid: Bytes, reply: Option<Bytes>, hdr: Option<nat>, total: Option<nat>, rest: Bytes): Option<Received> {
    if hdr.Some? && total.Some? && hdr.value <= total.value <= |rest| then
      Some(Received(subject, sid, reply, rest[..hdr.value], rest[hdr.value..total.value]))
    else None
  }

  /** No CRLF pair in what its control line is made of. */
  predicate Unbroken(f: Frame) {
    && P.NoCrlf(Target(f)) && P.NoCrlf(f.sid)
    && (f.Message? && f.reply.Some? ==> P.NoCrlf(f.reply.value))
  }

  lemma HeadLineable(f: Frame)
    requires InWords(f) && Unbroken(f)
    ensures P.Lineable(Head(f))
  {
    P.DigitsAreToken(|Load(f)|);
    P.DigitsAreToken(HeaderLen(f));
    HeadIsSpaced(f);
    P.SpacedNoCrlf(ArgsOf(f));
    P.LeadsLine(Verb(f), P.Spaced(ArgsOf(f)));
  }

  lemma NumberIs(n: nat)
    ensures Number(Digits(n)) == Some(n)
  {
    DigitsValue(n);
  }

  lemma Unpacked(verb: Bytes, a: Bytes, b: Bytes, c: seq<Bytes>, d: seq<Bytes>, e: Bytes, rest: Bytes)
    requires |c| <= 1 && if d == [] then verb == Ascii("MSG") else |d| == 1 && verb == Ascii("HMSG")
    ensures Unpack([verb] + ([a, b] + c + d + [e]), rest)
         == Part(a, b, if c == [] then None else Some(c[0]), if d == [] then Some(0) else Number(d[0]), Number(e), rest)
  {
    assert |Ascii("MSG")| == 3 && |Ascii("HMSG")| == 4;
    Front(verb, a, b, c, d, e);
  }

  /** The header and the payload a frame carries. */
  function Carried(f: Frame): (Bytes, Bytes) {
    if f.Status? then (Load(f), []) else (if f.headers then f.body[..f.hdr] else [], f.body[f.hdr..])
  }

  lemma Sliced(f: Frame)
    ensures var h := if Tagged(f) then HeaderLen(f) else 0;
            h <= |Load(f)| && Load(f)[..h] == Carried(f).0 && Load(f)[h..] == Carried(f).1
  {
    if f.Status? {
      StatusSize(f);
    } else {
      assert !Tagged(f) && f.headers ==> f.body[..f.hdr] == [] && f.body[f.hdr..] == f.body;
    }
  }

  lemma PartIs(a: Bytes, b: Bytes, reply: Option<Bytes>, h: nat, load: Bytes, after: Bytes)
    requires h <= |load|
    ensures Part(a, b, reply, Some(h), Some(|load|), load + after) == Some(Received(a, b, reply, load[..h], load[h..]))
  {
    var rest := load + after;
    assert rest[..h] == load[..h] && rest[h..|load|] == load[h..];
  }

  lemma ReceivedLine(head: Bytes, load: Bytes, after: Bytes)
    requires P.Lineable(head)
    ensures Receive(head + CRLF + load + CRLF + after) == Unpack(Lines.Fields(head), load + (CRLF + after))
  {
    P.FindsEnd(head, load + (CRLF + after));
    Regrouped(head + CRLF, load, CRLF, after);
  }

  lemma Regrouped(a: Bytes, b: Bytes, c: Bytes, d: Bytes)
    ensures a + b + c + d == a + (b + (c + d))
  {
  }

  lemma ReceivedAs(f: Frame, after: Bytes)
    requires InWords(f) && Unbroken(f)
    ensures Receive(FrameOf(f) + after)
         == Some(Received(Target(f), f.sid, if ReplyOf(f) == [] then None else Some(ReplyOf(f)[0]), Carried(f).0, Carried(f).1))
  {
    HeadLineable(f);
    HeadFields(f);
    ReceivedLine(Head(f), Load(f), after);
    UnpackedFrame(f, CRLF + after);
  }

  lemma UnpackedFrame(f: Frame, after: Bytes)
    ensures Unpack([Verb(f)] + ArgsOf(f), Load(f) + after)
         == Some(Received(Target(f), f.sid, if ReplyOf(f) == [] then None else Some(ReplyOf(f)[0]), Carried(f).0, Carried(f).1))
  {
    VerbIs(f);
    Unpacked(Verb(f), Target(f), f.sid, ReplyOf(f), HeaderSize(f), Digits(|Load(f)|), Load(f) + after);
    NumberIs(|Load(f)|);
    NumberIs(HeaderLen(f));
    Sliced(f);
    PartIs(Target(f), f.sid, if ReplyOf(f) == [] then None else Some(ReplyOf(f)[0]),
           if Tagged(f) then HeaderLen(f) else 0, Load(f), after);
  }

  lemma VerbIs(f: Frame)
    ensures Verb(f) == Ascii(if Tagged(f) then "HMSG" else "MSG")
  {
  }

  /** A message, whatever follows it, tells its subscriber its subject, its sid, its reply if it
      has one, and its payload; and its headers, if the subscriber takes headers. */
  lemma MessageReceived(f: Frame, after: Bytes)
    requires f.Message? && InWords(f) && Unbroken(f)
    ensures Receive(FrameOf(f) + after)
         == Some(Received(f.subject, f.sid, if f.reply == Some([]) then None else f.reply,
                          if f.headers then f.body[..f.hdr] else [], f.body[f.hdr..]))
  {
    ReceivedAs(f, after);
  }

  /** A status frame tells of the subject nobody answers at, in a header block and no payload. */
  lemma StatusReceived(f: Frame, after: Bytes)
    requires f.Status? && InWords(f) && Unbroken(f)
    ensures Receive(FrameOf(f) + after)
         == Some(Received(f.inbox, f.sid, None,
                          Ascii("NATS/1.0 503\r\nNats-Subject: ") + f.published + Ascii("\r\n\r\n"), []))
  {
    ReceivedAs(f, after);
    StatusText();
    Assoc(STATUS + f.published, CRLF, CRLF);
  }

  lemma StatusText()
    ensures STATUS == Ascii("NATS/1.0 503\r\nNats-Subject: ") && CRLF + CRLF == Ascii("\r\n\r\n")
  {
  }
}
