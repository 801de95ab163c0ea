/** The grammar of control lines, said without the parser: which lines ask for what, with verbs
    in letters of either case and any blanks between and after the arguments. Every line is
    accounted for, and every answer belongs to exactly the lines said here. */
module Grammar {
  import opened ByteStrings
  import opened Decimal
  import opened Lines

  predicate Letter(b: byte, c: char) {
    b as int == c as int || ('A' <= c <= 'Z' && b as int == c as int + 32)
  }

  /** The line begins with this verb. */
  predicate Begins(line: Bytes, verb: string) {
    |verb| <= |line| && forall i :: 0 <= i < |verb| ==> Letter(line[i], verb[i])
  }

  predicate Blank(b: byte) { b == 32 || b == 9 }

  predicate Blanks(s: Bytes) { forall i :: 0 <= i < |s| ==> Blank(s[i]) }

  predicate Word(w: Bytes) { w != [] && forall i :: 0 <= i < |w| ==> !Blank(w[i]) }

  /** The verb stands alone: it is the whole line, or a blank follows. */
  predicate Heard(line: Bytes, verb: string) {
    Begins(line, verb) && (|line| == |verb| || Blank(line[|verb|]))
  }

  /** After `k` blanks, one at least, the word `w`. */
  predicate WordAt(s: Bytes, k: nat, w: Bytes) {
    0 < k && k + |w| <= |s| && Blanks(s[..k]) && s[k..k + |w|] == w && Word(w)
  }

  /** These words, each after blanks, and perhaps blanks at the end. */
  predicate Lists(s: Bytes, words: seq<Bytes>)
    decreases |words|
  {
    if words == [] then Blanks(s)
    else exists k :: 0 < k <= |s| && WordAt(s, k, words[0]) && Lists(s[k + |words[0]|..], words[1..])
  }

  /** The verb and these arguments. */
  predicate Says(line: Bytes, verb: string, words: seq<Bytes>) {
    Begins(line, verb) && Lists(line[|verb|..], words)
  }

  function Opt(word: Option<Bytes>): seq<Bytes> {
    if word.Some? then [word.value] else []
  }

  // ------------------------------------------------------------------ the arguments ---

  predicate Parted(s: Bytes) { s == [] || Blank(s[0]) }

  lemma {:induction false} FieldsSkip(s: Bytes, k: nat)
    requires k <= |s| && Blanks(s[..k])
    ensures Fields(s) == Fields(s[k..])
  {
    if k == 0 {
      assert s[0..] == s;
    } else {
      assert s[..k][0] == s[0];
      assert forall i :: 0 <= i < k - 1 ==> s[1..][i] == s[..k][i + 1];
      FieldsSkip(s[1..], k - 1);
      assert s[1..][k - 1..] == s[k..];
    }
  }

  lemma FieldsOne(s: Bytes, k: nat, w: Bytes)
    requires WordAt(s, k, w) && Parted(s[k + |w|..])
    ensures Fields(s) == [w] + Fields(s[k + |w|..])
  {
    FieldsSkip(s, k);
    var t := s[k..];
    assert t[..|w|] == w && t[|w|..] == s[k + |w|..];
    assert forall i :: 0 <= i < |w| ==> t[i] == w[i];
    assert |w| < |t| ==> t[|w|] == s[k + |w|..][0];
    TokenLenIs(t, |w|);
  }

  lemma ListsParted(s: Bytes, words: seq<Bytes>)
    requires Lists(s, words)
    ensures Parted(s)
  {
    if words != [] {
      var k :| 0 < k <= |s| && WordAt(s, k, words[0]) && Lists(s[k + |words[0]|..], words[1..]);
      assert s[..k][0] == s[0];
    }
  }

  lemma {:induction false} ListedFields(s: Bytes, words: seq<Bytes>)
    requires Lists(s, words)
    ensures Fields(s) == words
    decreases |words|
  {
    if words == [] {
      assert s[..|s|] == s;
      FieldsSkip(s, |s|);
      assert s[|s|..] == [];
    } else {
      var k :| 0 < k <= |s| && WordAt(s, k, words[0]) && Lists(s[k + |words[0]|..], words[1..]);
      var rest := s[k + |words[0]|..];
      ListsParted(rest, words[1..]);
      ListedFields(rest, words[1..]);
      FieldsOne(s, k, words[0]);
    }
  }

  lemma {:induction false} FieldsListed(s: Bytes)
    requires Parted(s)
    ensures Lists(s, Fields(s))
    decreases |s|
  {
    match ArgAt(s)
    case None =>
      assert s[..|s|] == s && Blanks(s);
      ListedFields(s, []);
    case Some(k) =>
      var n := FirstWord(s, k);
      var w, rest := s[k..k + n], s[k + n..];
      FieldsOne(s, k, w);
      FieldsListed(rest);
      ListsCons(s, k, w, Fields(rest));
  }

  lemma ListsCons(s: Bytes, k: nat, w: Bytes, words: seq<Bytes>)
    requires WordAt(s, k, w) && Lists(s[k + |w|..], words)
    ensures Lists(s, [w] + words)
  {
    var all := [w] + words;
    assert all[0] == w && all[1..] == words;
    assert 0 < k <= |s| && WordAt(s, k, all[0]) && Lists(s[k + |all[0]|..], all[1..]);
  }

  lemma FirstWord(s: Bytes, k: nat) returns (n: nat)
    requires 0 < k < |s| && Blanks(s[..k]) && !Blank(s[k])
    ensures k + n <= |s| && WordAt(s, k, s[k..k + n]) && Parted(s[k + n..])
  {
    var t := s[k..];
    n := TokenLen(t);
    assert t[..n] == s[k..k + n] && t[0] == s[k];
    assert n < |t| ==> t[n] == s[k + n];
  }

  /** What a line's arguments are split into are its words. */
  lemma FieldsIff(s: Bytes, words: seq<Bytes>)
    requires Parted(s)
    ensures Fields(s) == words <==> Lists(s, words)
  {
    FieldsListed(s);
    if Lists(s, words) {
      ListedFields(s, words);
    }
  }

  // ---------------------------------------------------------------------- the verbs ---

  /** No small letter in it. */
  predicate InCapitals(verb: string, bytes: Bytes) {
    |bytes| == |verb| && forall i :: 0 <= i < |verb| ==> bytes[i] as int == verb[i] as int && !(97 <= bytes[i] <= 122)
  }

  lemma FoldsLetter(b: byte, c: char, v: byte)
    requires v as int == c as int && !(97 <= v <= 122)
    ensures Lower(b) == Lower(v) <==> Letter(b, c)
  {
  }

  /** The parser's test for a verb at the front. */
  lemma Folds(line: Bytes, verb: string, bytes: Bytes)
    requires InCapitals(verb, bytes)
    ensures Starts(line, bytes) <==> Begins(line, verb)
  {
    if |verb| <= |line| {
      forall i | 0 <= i < |verb|
        ensures Lower(line[..|bytes|][i]) == Lower(bytes[i]) <==> Letter(line[i], verb[i])
      {
        FoldsLetter(line[i], verb[i], bytes[i]);
      }
    }
  }

  /** And for one that must stand alone. */
  lemma FoldsAlone(line: Bytes, verb: string, bytes: Bytes)
    requires InCapitals(verb, bytes) && forall i :: 0 <= i < |bytes| ==> !IsBlank(bytes[i])
    ensures TokenLen(line) == |verb| && EqIgnore(line[..|verb|], bytes) <==> Heard(line, verb)
  {
    Folds(line, verb, bytes);
    if Heard(line, verb) {
      forall i | 0 <= i < |verb|
        ensures !IsBlank(line[i])
      {
        assert Letter(line[i], verb[i]);
      }
      TokenLenIs(line, |verb|);
    }
  }

  function Name(verb: Verb): string {
    match verb
    case PingVerb => "PING"
    case PongVerb => "PONG"
    case PubVerb => "PUB"
    case HpubVerb => "HPUB"
    case ConnectVerb => "CONNECT"
    case InfoVerb => "INFO"
    case OkVerb => "+OK"
    case ErrVerb => "-ERR"
    case SubVerb => "SUB"
    case UnsubVerb => "UNSUB"
  }

  /** These need no blank after them. */
  predicate IsPrefix(verb: Verb) {
    verb == PingVerb || verb == PongVerb || verb == ConnectVerb || verb == InfoVerb
  }

  /** The line has this verb. */
  predicate Has(line: Bytes, verb: Verb) {
    if IsPrefix(verb) then Begins(line, Name(verb)) else Heard(line, Name(verb))
  }

  /** The parser's test for a verb. */
  predicate Test(line: Bytes, verb: Verb) {
    var v := Spelling(verb);
    if IsPrefix(verb) then Starts(line, v) else TokenLen(line) == |v| && EqIgnore(line[..|v|], v)
  }

  lemma NameIs(verb: Verb)
    ensures InCapitals(Name(verb), Spelling(verb)) && forall i :: 0 <= i < |Spelling(verb)| ==> !IsBlank(Spelling(verb)[i])
  {
  }

  lemma TestIff(line: Bytes, verb: Verb)
    ensures Test(line, verb) <==> Has(line, verb)
  {
    NameIs(verb);
    Folds(line, Name(verb), Spelling(verb));
    FoldsAlone(line, Name(verb), Spelling(verb));
  }

  lemma FirstBytes(line: Bytes, v: Bytes)
    requires Starts(line, v) && |v| >= 2
    ensures Lower(line[0]) == Lower(v[0]) && Lower(line[1]) == Lower(v[1])
  {
    assert line[..|v|][0] == line[0] && line[..|v|][1] == line[1];
  }

  /** The first letter tells most verbs apart, and the second the others. */
  lemma Tested(line: Bytes, verb: Verb)
    requires Test(line, verb)
    ensures VerbOf(line) == Some(verb)
  {
    FirstBytes(line, Spelling(verb));
    if Starts(line, PING) {
      FirstBytes(line, PING);
    }
    if Starts(line, PONG) {
      FirstBytes(line, PONG);
    }
  }

  lemma FoundIsTested(line: Bytes)
    ensures VerbOf(line).Some? ==> Test(line, VerbOf(line).value)
  {
  }

  /** The verb found is the one the line has. */
  lemma VerbIff(line: Bytes, verb: Verb)
    ensures VerbOf(line) == Some(verb) <==> Has(line, verb)
  {
    TestIff(line, verb);
    FoundIsTested(line);
    if Test(line, verb) {
      Tested(line, verb);
    }
  }

  /** The verb an answer can come from. */
  function From(a: Action): Verb {
    match a
    case Emit(Ping) => PingVerb
    case Emit(Pong) => PongVerb
    case Emit(Connect(_)) => ConnectVerb
    case Emit(Info(_)) => InfoVerb
    case Emit(ClientOk) => OkVerb
    case Emit(ClientErr) => ErrVerb
    case Emit(Subscribe(_, _, _)) => SubVerb
    case Emit(Unsubscribe(_, _)) => UnsubVerb
    case Emit(HpubAttempt(_)) => HpubVerb
    case Emit(Publish(_, _, _, _, _, _)) => PubVerb
    case AwaitBody(_, _, _, _, hpub) => if hpub then HpubVerb else PubVerb
  }

  lemma AcceptedFrom(verb: Verb, rest: Bytes, lim: Limits)
    ensures var r := Operation(verb, rest, lim); r.Accept? ==> From(r.action) == verb
  {
  }

  /** A line is answered as its verb answers the rest of it. */
  lemma Answered(line: Bytes, verb: Verb, lim: Limits)
    requires Has(line, verb)
    ensures ParseLine(line, lim) == Operation(verb, line[|Name(verb)|..], lim)
  {
    VerbIff(line, verb);
    NameIs(verb);
  }

  lemma Unanswered(line: Bytes, lim: Limits)
    requires forall verb :: !Has(line, verb)
    ensures ParseLine(line, lim) == Reject(Fatal(UNKNOWN_OP))
  {
    var found := VerbOf(line);
    if found.Some? {
      VerbIff(line, found.value);
    }
  }

  /** An answer is given to exactly the lines that have its verb and a rest it is the answer to. */
  lemma ByVerb(line: Bytes, lim: Limits, verb: Verb, a: Action)
    requires From(a) == verb
    ensures ParseLine(line, lim) == Accept(a)
       <==> Has(line, verb) && Operation(verb, line[|Name(verb)|..], lim) == Accept(a)
  {
    if Has(line, verb) {
      Answered(line, verb, lim);
    } else if other :| Has(line, other) {
      Answered(line, other, lim);
      AcceptedFrom(other, line[|Name(other)|..], lim);
    } else {
      Unanswered(line, lim);
    }
  }

  // ---------------------------------------------------------------- what lines ask for ---

  /** Of a verb that stands alone, the words of its line are its arguments. */
  lemma Worded(line: Bytes, verb: string, words: seq<Bytes>)
    ensures Says(line, verb, words) ==> Heard(line, verb)
    ensures Heard(line, verb) ==> (Says(line, verb, words) <==> Fields(line[|verb|..]) == words)
  {
    if Begins(line, verb) {
      var rest := line[|verb|..];
      assert rest != [] ==> rest[0] == line[|verb|];
      if Heard(line, verb) {
        FieldsIff(rest, words);
      } else if Lists(rest, words) {
        ListsParted(rest, words);
      }
    }
  }

  /** A line subscribes with this subject, queue and sid if and only if it says SUB and these,
      in this order. */
  lemma SubscribeIff(line: Bytes, lim: Limits, subject: Bytes, queue: Option<Bytes>, sid: Bytes)
    ensures ParseLine(line, lim) == Accept(Emit(Subscribe(subject, queue, sid)))
       <==> Says(line, "SUB", [subject] + Opt(queue) + [sid])
  {
    ByVerb(line, lim, SubVerb, Emit(Subscribe(subject, queue, sid)));
    Worded(line, "SUB", [subject] + Opt(queue) + [sid]);
    if Heard(line, "SUB") {
      SubWords(line[3..], subject, queue, sid);
    }
  }

  lemma SubWords(rest: Bytes, subject: Bytes, queue: Option<Bytes>, sid: Bytes)
    ensures SubLine(rest) == Accept(Emit(Subscribe(subject, queue, sid)))
       <==> Fields(rest) == [subject] + Opt(queue) + [sid]
  {
    var args := Fields(rest);
    assert |args| == 2 ==> args == [args[0], args[1]];
    assert |args| == 3 ==> args == [args[0], args[1], args[2]];
  }

  /** UNSUB and a sid, and perhaps a limit, -1 if there is none or it is no size. */
  lemma UnsubscribeIff(line: Bytes, lim: Limits, sid: Bytes, max: int)
    ensures ParseLine(line, lim) == Accept(Emit(Unsubscribe(sid, max)))
       <==> || (Says(line, "UNSUB", [sid]) && max == -1)
            || exists w :: Says(line, "UNSUB", [sid, w]) && max == ParseSize(w)
  {
    ByVerb(line, lim, UnsubVerb, Emit(Unsubscribe(sid, max)));
    Worded(line, "UNSUB", [sid]);
    forall w
      ensures Says(line, "UNSUB", [sid, w]) <==> Heard(line, "UNSUB") && Fields(line[5..]) == [sid, w]
    {
      Worded(line, "UNSUB", [sid, w]);
    }
    if Heard(line, "UNSUB") {
      UnsubWords(line[5..], sid, max);
    }
  }

  lemma UnsubWords(rest: Bytes, sid: Bytes, max: int)
    ensures UnsubLine(rest) == Accept(Emit(Unsubscribe(sid, max)))
       <==> (Fields(rest) == [sid] && max == -1) || exists w :: Fields(rest) == [sid, w] && max == ParseSize(w)
  {
    var args := Fields(rest);
    assert |args| == 1 ==> args == [args[0]];
    assert |args| == 2 ==> args == [args[0], args[1]];
  }

  /** Blanks, perhaps, and then all of `arg`. */
  predicate Trails(s: Bytes, arg: Bytes) {
    var k := |s| - |arg|;
    k >= 0 && arg != [] && !Blank(arg[0]) && Blanks(s[..k]) && s[k..] == arg
  }

  lemma ArgFirst(s: Bytes, k: nat)
    requires k < |s| && !Blank(s[k]) && Blanks(s[..k])
    ensures ArgAt(s) == Some(k)
  {
    assert forall i :: 0 <= i < k ==> IsBlank(s[..k][i]) && s[..k][i] == s[i];
  }

  lemma ArgTrails(s: Bytes, arg: Bytes)
    ensures Trails(s, arg) <==> ArgAt(s).Some? && s[ArgAt(s).value..] == arg
    ensures Blanks(s) <==> ArgAt(s).None?
  {
    var k := |s| - |arg|;
    if Trails(s, arg) {
      assert s[k] == arg[0];
      ArgFirst(s, k);
    }
    if ArgAt(s).Some? {
      assert Blanks(s[..ArgAt(s).value]);
    }
  }

  /** CONNECT and INFO take the rest of the line, blanks in it included. */
  lemma ConnectIff(line: Bytes, lim: Limits, json: Bytes)
    ensures ParseLine(line, lim) == Accept(Emit(Connect(json))) <==> Begins(line, "CONNECT") && Trails(line[7..], json)
  {
    ByVerb(line, lim, ConnectVerb, Emit(Connect(json)));
    if Begins(line, "CONNECT") {
      ArgTrails(line[7..], json);
    }
  }

  lemma InfoIff(line: Bytes, lim: Limits, json: Bytes)
    ensures ParseLine(line, lim) == Accept(Emit(Info(json))) <==> Begins(line, "INFO") && Trails(line[4..], json)
  {
    ByVerb(line, lim, InfoVerb, Emit(Info(json)));
    if Begins(line, "INFO") {
      ArgTrails(line[4..], json);
    }
  }

  /** Whatever follows PING and PONG is no matter; what follows +OK and -ERR is parted from it
      by a blank, and something must follow -ERR. */
  lemma PingIff(line: Bytes, lim: Limits)
    ensures ParseLine(line, lim) == Accept(Emit(Ping)) <==> Begins(line, "PING")
    ensures ParseLine(line, lim) == Accept(Emit(Pong)) <==> Begins(line, "PONG")
  {
    ByVerb(line, lim, PingVerb, Emit(Ping));
    ByVerb(line, lim, PongVerb, Emit(Pong));
  }

  lemma AckIff(line: Bytes, lim: Limits)
    ensures ParseLine(line, lim) == Accept(Emit(ClientOk)) <==> Heard(line, "+OK")
    ensures ParseLine(line, lim) == Accept(Emit(ClientErr)) <==> Heard(line, "-ERR") && |line| > 4
  {
    ByVerb(line, lim, OkVerb, Emit(ClientOk));
    ByVerb(line, lim, ErrVerb, Emit(ClientErr));
  }

  // ---------------------------------------------------------------------- publishing ---

  /** The line of a publish: subject, perhaps a reply, for HPUB the size of the headers, and
      the size of it all. */
  ghost predicate Declares(line: Bytes, subject: Bytes, reply: Option<Bytes>, hdr: int, need: int, hpub: bool) {
    if hpub then
      exists h, t :: Says(line, "HPUB", [subject] + Opt(reply) + [h, t]) && ParseSize(h) == hdr && ParseSize(t) == need
    else
      hdr == 0 && exists t :: Says(line, "PUB", [subject] + Opt(reply) + [t]) && ParseSize(t) == need
  }

  datatype Header = Header(subject: Bytes, reply: Option<Bytes>, hdr: int, need: int)

  /** The arguments of a publish by position. */
  function Read(args: seq<Bytes>, hpub: bool): Option<Header> {
    var n := if hpub then |args| - 1 else |args|;
    if n != 2 && n != 3 then None else
    Some(Header(args[0], if n == 3 then Some(args[1]) else None,
                if hpub then ParseSize(args[|args| - 2]) else 0, ParseSize(args[|args| - 1])))
  }

  function PubName(hpub: bool): string { if hpub then "HPUB" else "PUB" }

  lemma DeclaresArgs(line: Bytes, subject: Bytes, reply: Option<Bytes>, hdr: int, need: int, hpub: bool)
    ensures var verb := PubName(hpub);
            Declares(line, subject, reply, hdr, need, hpub)
            <==> Heard(line, verb) && Read(Fields(line[|verb|..]), hpub) == Some(Header(subject, reply, hdr, need))
  {
    var verb := PubName(hpub);
    if Heard(line, verb) {
      var args := Fields(line[|verb|..]);
      var n := |args|;
      forall words
        ensures Says(line, verb, words) <==> args == words
      {
        Worded(line, verb, words);
      }
      if Read(args, hpub) == Some(Header(subject, reply, hdr, need)) {
        var front := [subject] + Opt(reply);
        assert args == front + if hpub then [args[n - 2], args[n - 1]] else [args[n - 1]];
      }
    } else {
      forall words
        ensures !Says(line, verb, words)
      {
        Worded(line, verb, words);
      }
    }
  }

  /** Sizes that a body can have. */
  predicate InOrder(h: Option<Header>) { h.Some? && 0 <= h.value.hdr <= h.value.need }

  lemma PubRead(rest: Bytes, hpub: bool, lim: Limits)
    ensures var h := Read(Fields(rest), hpub);
            PubLine(rest, hpub, lim)
            == if rest == [] then Reject(Fatal(UNKNOWN_OP))
               else if !InOrder(h) then (if hpub then Accept(Emit(HpubAttempt(BadArgs))) else Reject(Silent))
               else if h.value.need > lim.maxPayload then Reject(Fatal(MAX_PAYLOAD))
               else Accept(AwaitBody(h.value.subject, h.value.reply, h.value.hdr, h.value.need, hpub))
  {
  }

  /** A body is awaited if and only if the line declares it, with no more headers than body and
      no more body than the limit. */
  lemma PublishIff(line: Bytes, lim: Limits, subject: Bytes, reply: Option<Bytes>, hdr: nat, need: nat, hpub: bool)
    ensures ParseLine(line, lim) == Accept(AwaitBody(subject, reply, hdr, need, hpub))
       <==> Declares(line, subject, reply, hdr, need, hpub) && hdr <= need <= lim.maxPayload
  {
    ByVerb(line, lim, if hpub then HpubVerb else PubVerb, AwaitBody(subject, reply, hdr, need, hpub));
    DeclaresArgs(line, subject, reply, hdr, need, hpub);
    if Heard(line, PubName(hpub)) {
      PubRead(line[|PubName(hpub)|..], hpub, lim);
      assert Fields([]) == [];
    }
  }

  // ------------------------------------------------------------------------- refusals ---

  ghost predicate WellFormed(line: Bytes, hpub: bool) {
    exists subject, reply, hdr: nat, need: nat :: Declares(line, subject, reply, hdr, need, hpub) && hdr <= need
  }

  lemma FormedIff(line: Bytes, hpub: bool)
    requires Heard(line, PubName(hpub))
    ensures WellFormed(line, hpub) <==> InOrder(Read(Fields(line[|PubName(hpub)|..]), hpub))
  {
    var h := Read(Fields(line[|PubName(hpub)|..]), hpub);
    if InOrder(h) {
      DeclaresArgs(line, h.value.subject, h.value.reply, h.value.hdr, h.value.need, hpub);
    }
    if subject, reply, hdr: nat, need: nat :| Declares(line, subject, reply, hdr, need, hpub) && hdr <= need {
      DeclaresArgs(line, subject, reply, hdr, need, hpub);
    }
  }

  lemma Refused(line: Bytes, lim: Limits, e: ProtoError)
    ensures ParseLine(line, lim) == Reject(e)
       <==> || (exists verb :: Has(line, verb) && Operation(verb, line[|Name(verb)|..], lim) == Reject(e))
            || (e == Fatal(UNKNOWN_OP) && forall verb :: !Has(line, verb))
  {
    if verb :| Has(line, verb) {
      forall other | Has(line, other)
        ensures ParseLine(line, lim) == Operation(other, line[|Name(other)|..], lim)
      {
        Answered(line, other, lim);
      }
      assert Has(line, verb);
    } else {
      Unanswered(line, lim);
    }
  }

  /** A publish whose declared size is over the limit. */
  ghost predicate Oversize(line: Bytes, limit: nat) {
    exists subject, reply, hdr: nat, need: nat, hpub ::
      Declares(line, subject, reply, hdr, need, hpub) && hdr <= need && need > limit
  }

  /** It is refused at once, with these words. */
  lemma OversizeIff(line: Bytes, lim: Limits)
    ensures ParseLine(line, lim) == Reject(Fatal("Maximum Payload Violation")) <==> Oversize(line, lim.maxPayload)
  {
    Refused(line, lim, Fatal(MAX_PAYLOAD));
    if verb :| Has(line, verb) && Operation(verb, line[|Name(verb)|..], lim) == Reject(Fatal(MAX_PAYLOAD)) {
      RefusedIsOversize(line, verb, lim);
    }
    if subject, reply, hdr: nat, need: nat, hpub :|
         Declares(line, subject, reply, hdr, need, hpub) && hdr <= need && need > lim.maxPayload {
      Oversized(line, lim, subject, reply, hdr, need, hpub);
    }
  }

  lemma RefusedIsOversize(line: Bytes, verb: Verb, lim: Limits)
    requires Has(line, verb) && Operation(verb, line[|Name(verb)|..], lim) == Reject(Fatal(MAX_PAYLOAD))
    ensures Oversize(line, lim.maxPayload)
  {
    OversizeVerb(verb, line[|Name(verb)|..], lim);
    var hpub := verb == HpubVerb;
    var h := Read(Fields(line[|PubName(hpub)|..]), hpub).value;
    DeclaresArgs(line, h.subject, h.reply, h.hdr, h.need, hpub);
  }

  lemma OversizeVerb(verb: Verb, rest: Bytes, lim: Limits)
    ensures var h := Read(Fields(rest), verb == HpubVerb);
            Operation(verb, rest, lim) == Reject(Fatal(MAX_PAYLOAD))
            <==> (verb == PubVerb || verb == HpubVerb) && rest != [] && InOrder(h) && h.value.need > lim.maxPayload
  {
    PubRead(rest, verb == HpubVerb, lim);
  }

  lemma Oversized(line: Bytes, lim: Limits, subject: Bytes, reply: Option<Bytes>, hdr: nat, need: nat, hpub: bool)
    requires Declares(line, subject, reply, hdr, need, hpub) && hdr <= need && need > lim.maxPayload
    ensures ParseLine(line, lim) == Reject(Fatal("Maximum Payload Violation"))
  {
    var verb := if hpub then HpubVerb else PubVerb;
    DeclaresArgs(line, subject, reply, hdr, need, hpub);
    OversizeVerb(verb, line[|Name(verb)|..], lim);
    assert Fields([]) == [];
    Answered(line, verb, lim);
  }

  /** An HPUB whose arguments are no publish is left to the connection to answer. */
  lemma BadHpubIff(line: Bytes, lim: Limits, outcome: HpubOutcome)
    ensures ParseLine(line, lim) == Accept(Emit(HpubAttempt(outcome)))
       <==> outcome == BadArgs && Heard(line, "HPUB") && |line| > 4 && !WellFormed(line, true)
  {
    ByVerb(line, lim, HpubVerb, Emit(HpubAttempt(outcome)));
    if Heard(line, "HPUB") {
      FormedIff(line, true);
      PubRead(line[4..], true, lim);
    }
  }

  /** Lines that close the connection without a word: CONNECT and INFO with nothing after them,
      PUB with arguments that are no publish, SUB and UNSUB with too few or too many. */
  ghost predicate Mute(line: Bytes) {
    || (Begins(line, "CONNECT") && Blanks(line[7..]))
    || (Begins(line, "INFO") && Blanks(line[4..]))
    || (Heard(line, "PUB") && |line| > 3 && !WellFormed(line, false))
    || (|line| > 3 && exists words :: Says(line, "SUB", words) && |words| != 2 && |words| != 3)
    || (|line| > 5 && exists words :: Says(line, "UNSUB", words) && |words| != 1 && |words| != 2)
  }

  predicate MuteVerb(verb: Verb, rest: Bytes) {
    match verb
    case ConnectVerb => Blanks(rest)
    case InfoVerb => Blanks(rest)
    case PubVerb => rest != [] && !InOrder(Read(Fields(rest), false))
    case SubVerb => rest != [] && |Fields(rest)| != 2 && |Fields(rest)| != 3
    case UnsubVerb => rest != [] && |Fields(rest)| != 1 && |Fields(rest)| != 2
    case _ => false
  }

  lemma SilentVerb(verb: Verb, rest: Bytes, lim: Limits)
    ensures Operation(verb, rest, lim) == Reject(Silent) <==> MuteVerb(verb, rest)
  {
    ArgTrails(rest, []);
    PubRead(rest, verb == HpubVerb, lim);
  }

  lemma CountIs(line: Bytes, verb: string, m: nat, n: nat)
    ensures (exists words :: Says(line, verb, words) && |words| != m && |words| != n)
       <==> Heard(line, verb) && |Fields(line[|verb|..])| != m && |Fields(line[|verb|..])| != n
  {
    if Heard(line, verb) {
      Worded(line, verb, Fields(line[|verb|..]));
    }
    if words :| Says(line, verb, words) && |words| != m && |words| != n {
      Worded(line, verb, words);
    }
  }

  lemma MuteIs(line: Bytes)
    ensures Mute(line) <==> exists verb :: Has(line, verb) && MuteVerb(verb, line[|Name(verb)|..])
  {
    if Mute(line) {
      var verb := MuteHas(line);
    }
    if verb :| Has(line, verb) && MuteVerb(verb, line[|Name(verb)|..]) {
      HasMute(line, verb);
    }
  }

  lemma MuteHas(line: Bytes) returns (verb: Verb)
    requires Mute(line)
    ensures Has(line, verb) && MuteVerb(verb, line[|Name(verb)|..])
  {
    if Begins(line, "CONNECT") && Blanks(line[7..]) {
      verb := ConnectVerb;
    } else if Begins(line, "INFO") && Blanks(line[4..]) {
      verb := InfoVerb;
    } else if Heard(line, "PUB") && |line| > 3 && !WellFormed(line, false) {
      FormedIff(line, false);
      verb := PubVerb;
    } else {
      CountIs(line, "SUB", 2, 3);
      CountIs(line, "UNSUB", 1, 2);
      verb := if |line| > 3 && exists words :: Says(line, "SUB", words) && |words| != 2 && |words| != 3 then SubVerb else UnsubVerb;
    }
  }

  lemma HasMute(line: Bytes, verb: Verb)
    requires Has(line, verb) && MuteVerb(verb, line[|Name(verb)|..])
    ensures Mute(line)
  {
    match verb
    case PubVerb => FormedIff(line, false);
    case SubVerb => CountIs(line, "SUB", 2, 3);
    case UnsubVerb => CountIs(line, "UNSUB", 1, 2);
    case _ =>
  }

  lemma SilentIff(line: Bytes, lim: Limits)
    ensures ParseLine(line, lim) == Reject(Silent) <==> Mute(line)
  {
    Refused(line, lim, Silent);
    MuteIs(line);
    forall verb | Has(line, verb)
      ensures Operation(verb, line[|Name(verb)|..], lim) == Reject(Silent) <==> MuteVerb(verb, line[|Name(verb)|..])
    {
      SilentVerb(verb, line[|Name(verb)|..], lim);
    }
  }

  /** A verb that needs arguments, and not even a blank after it. */
  predicate Bare(line: Bytes) {
    || (|line| == 3 && (Begins(line, "PUB") || Begins(line, "SUB")))
    || (|line| == 4 && (Begins(line, "HPUB") || Begins(line, "-ERR")))
    || (|line| == 5 && Begins(line, "UNSUB"))
  }

  predicate NeedsMore(verb: Verb) {
    verb == PubVerb || verb == HpubVerb || verb == SubVerb || verb == UnsubVerb || verb == ErrVerb
  }

  lemma UnknownVerb(verb: Verb, rest: Bytes, lim: Limits)
    ensures Operation(verb, rest, lim) == Reject(Fatal(UNKNOWN_OP)) <==> NeedsMore(verb) && rest == []
  {
    PubRead(rest, verb == HpubVerb, lim);
  }

  lemma BareIs(line: Bytes)
    ensures Bare(line) <==> exists verb :: Has(line, verb) && NeedsMore(verb) && line[|Name(verb)|..] == []
  {
    if Bare(line) {
      var verb := if |line| == 5 then UnsubVerb
                  else if |line| == 4 then (if Begins(line, "HPUB") then HpubVerb else ErrVerb)
                  else if Begins(line, "PUB") then PubVerb else SubVerb;
      assert Has(line, verb);
    }
  }

  /** No verb of the protocol, or one that needs arguments without any. */
  lemma UnknownIff(line: Bytes, lim: Limits)
    ensures ParseLine(line, lim) == Reject(Fatal("Unknown Protocol Operation"))
       <==> Bare(line) || forall verb :: !Has(line, verb)
  {
    Refused(line, lim, Fatal(UNKNOWN_OP));
    BareIs(line);
    forall verb | Has(line, verb)
      ensures Operation(verb, line[|Name(verb)|..], lim) == Reject(Fatal(UNKNOWN_OP))
         <==> NeedsMore(verb) && line[|Name(verb)|..] == []
    {
      UnknownVerb(verb, line[|Name(verb)|..], lim);
    }
  }
}
