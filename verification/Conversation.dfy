/** Whole conversations: any operations a client can send, spelt in any way the grammar admits
    and received in any reads, and how a conversation ends that goes wrong. */
module Conversation {
  import opened ByteStrings
  import opened Decimal
  import opened Lines
  import opened Grammar
  import opened Parser
  import opened Cuts
  import opened Publishing

  /** The line says this. */
  ghost predicate Asks(line: Bytes, e: Event) {
    match e
    case Ping => Begins(line, "PING")
    case Pong => Begins(line, "PONG")
    case Connect(json) => Begins(line, "CONNECT") && Trails(line[7..], json)
    case Info(json) => Begins(line, "INFO") && Trails(line[4..], json)
    case ClientOk => Heard(line, "+OK")
    case ClientErr => Heard(line, "-ERR") && |line| > 4
    case Subscribe(subject, queue, sid) => Says(line, "SUB", [subject] + Opt(queue) + [sid])
    case Unsubscribe(sid, max) =>
      (Says(line, "UNSUB", [sid]) && max == -1) || exists w :: Says(line, "UNSUB", [sid, w]) && max == ParseSize(w)
    case _ => false
  }

  /** One operation: a line, or the line of a publish and its body. */
  datatype Item =
    | Command(line: Bytes, event: Event)
    | Post(line: Bytes, subject: Bytes, reply: Option<Bytes>, hdr: nat, body: Bytes, hpub: bool)

  ghost predicate Proper(item: Item, lim: Limits) {
    && NoCrlf(item.line) && |item.line| <= lim.maxControlLine
    && match item
       case Command(line, event) => Asks(line, event)
       case Post(line, subject, reply, hdr, body, hpub) =>
         Declares(line, subject, reply, hdr, |body|, hpub) && hdr <= |body| <= lim.maxPayload
  }

  function TextOf(item: Item): Bytes {
    item.line + CRLF + if item.Command? then [] else item.body + CRLF
  }

  function EventsFor(item: Item): seq<Event> {
    match item
    case Command(_, event) => [event]
    case Post(_, subject, reply, hdr, body, hpub) =>
      Heralded(hpub) + [Publish(subject, reply, hdr, |body|, body, hpub)]
  }

  /** An HPUB is announced before its body. */
  function Heralded(hpub: bool): seq<Event> { if hpub then [HpubAttempt(Good)] else [] }

  function Text(items: seq<Item>): Bytes {
    if items == [] then [] else TextOf(items[0]) + Text(items[1..])
  }

  function Told(items: seq<Item>): seq<Event> {
    if items == [] then [] else EventsFor(items[0]) + Told(items[1..])
  }

  // ----------------------------------------------------------------------- lines ---

  lemma AskedIsParsed(line: Bytes, e: Event, lim: Limits)
    requires Asks(line, e)
    ensures ParseLine(line, lim) == Accept(Emit(e))
  {
    match e
    case Ping => PingIff(line, lim);
    case Pong => PingIff(line, lim);
    case Connect(json) => ConnectIff(line, lim, json);
    case Info(json) => InfoIff(line, lim, json);
    case ClientOk => AckIff(line, lim);
    case ClientErr => AckIff(line, lim);
    case Subscribe(subject, queue, sid) => SubscribeIff(line, lim, subject, queue, sid);
    case Unsubscribe(sid, max) => UnsubscribeIff(line, lim, sid, max);
  }

  /** A line whose end is there: too long, it is refused whatever it says; and otherwise what
      the parser makes of it decides. */
  lemma LineEnds(line: Bytes, rest: Bytes, lim: Limits)
    requires Lineable(line)
    ensures var r := PaceOf(OnLine, line + CRLF + rest, lim);
            if |line| > lim.maxControlLine then
              r == Stop(Reading([], Failed(Fatal("maximum control line exceeded")), OnLine, line + CRLF + rest))
            else match ParseLine(line, lim)
                 case Reject(error) => r == Stop(Reading([], Failed(error), OnLine, rest))
                 case Accept(Emit(e)) =>
                   r == if e == HpubAttempt(BadArgs) then Stop(Reading([e], Closing, OnLine, rest)) else Go([e], OnLine, rest)
                 case Accept(AwaitBody(subject, reply, hdr, need, hpub)) =>
                   r == Go(Heralded(hpub), OnBody(subject, reply, hdr, need, hpub), rest)
  {
    FindsEnd(line, rest);
  }

  lemma LineWaits(src: Bytes, lim: Limits)
    requires Lineable(src)
    ensures Parse(OnLine, src, lim)
         == Reading([], if |src| <= 16 * lim.maxControlLine then Waiting else Failed(Fatal("maximum control line exceeded")), OnLine, src)
  {
    assert FindCrlf(src).None?;
  }

  /** A body and what is where its end must be. */
  lemma BodyEnds(subject: Bytes, reply: Option<Bytes>, hdr: nat, hpub: bool, body: Bytes, after: Bytes, lim: Limits)
    ensures var s := OnBody(subject, reply, hdr, |body|, hpub);
            var r := PaceOf(s, body + after, lim);
            if after == [] || after == [CR] then r == Stop(Reading([], Waiting, s, body + after))
            else if after[0] == CR && after[1] == LF then
              r == Go([Publish(subject, reply, hdr, |body|, body, hpub)], OnLine, after[2..])
            else if hpub then
              r == Stop(Reading([HpubAttempt(BadFrame("Unknown Protocol Operation"))], Closing, s, body + after))
            else
              r == Stop(Reading([], Failed(Fatal("Unknown Protocol Operation")), s, body + after))
  {
    TakenSlices(body, after);
  }

  // --------------------------------------------------------------------- operations ---

  lemma AcceptedStarts(line: Bytes, lim: Limits)
    requires ParseLine(line, lim).Accept? && NoCrlf(line)
    ensures Lineable(line)
  {
  }

  lemma CommandRead(line: Bytes, event: Event, tail: Bytes, lim: Limits)
    requires NoCrlf(line) && |line| <= lim.maxControlLine && Asks(line, event)
    ensures Parse(OnLine, line + CRLF + tail, lim) == After([event], Parse(OnLine, tail, lim))
  {
    AskedIsParsed(line, event, lim);
    AcceptedStarts(line, lim);
    LineEnds(line, tail, lim);
  }

  lemma PostRead(post: Item, tail: Bytes, lim: Limits)
    requires post.Post? && Proper(post, lim)
    ensures Parse(OnLine, post.line + CRLF + Remainder(post, tail), lim) == After(EventsFor(post), Parse(OnLine, tail, lim))
  {
    var Post(line, subject, reply, hdr, body, hpub) := post;
    var rest := body + (CRLF + tail);
    PublishIff(line, lim, subject, reply, hdr, |body|, hpub);
    AcceptedStarts(line, lim);
    LineEnds(line, rest, lim);
    BodyEnds(subject, reply, hdr, hpub, body, CRLF + tail, lim);
    assert (CRLF + tail)[2..] == tail;
    TwoPaces(line + CRLF + rest, OnBody(subject, reply, hdr, |body|, hpub), rest, tail, Heralded(hpub),
             [Publish(subject, reply, hdr, |body|, body, hpub)], lim);
  }

  /** What follows the line of an operation. */
  function Remainder(item: Item, tail: Bytes): Bytes {
    if item.Command? then tail else item.body + (CRLF + tail)
  }

  lemma TextThen(item: Item, tail: Bytes)
    ensures TextOf(item) + tail == item.line + CRLF + Remainder(item, tail)
  {
  }

  lemma ItemRead(item: Item, tail: Bytes, lim: Limits)
    requires Proper(item, lim)
    ensures Parse(OnLine, TextOf(item) + tail, lim) == After(EventsFor(item), Parse(OnLine, tail, lim))
  {
    TextThen(item, tail);
    if item.Command? {
      CommandRead(item.line, item.event, tail, lim);
    } else {
      PostRead(item, tail, lim);
    }
  }

  /** However a client spells them, operations are read as what they say, one after another, up
      to whatever comes after them. */
  lemma {:induction false} OperationsRead(items: seq<Item>, tail: Bytes, lim: Limits)
    requires forall i :: 0 <= i < |items| ==> Proper(items[i], lim)
    ensures Parse(OnLine, Text(items) + tail, lim) == After(Told(items), Parse(OnLine, tail, lim))
  {
    if items == [] {
      assert Text(items) + tail == tail;
    } else {
      ItemRead(items[0], Text(items[1..]) + tail, lim);
      OperationsRead(items[1..], tail, lim);
      Assoc(TextOf(items[0]), Text(items[1..]), tail);
      AfterTwice(EventsFor(items[0]), Told(items[1..]), Parse(OnLine, tail, lim));
    }
  }

  lemma AfterTwice(a: seq<Event>, b: seq<Event>, r: Reading)
    ensures After(a, After(b, r)) == After(a + b, r)
  {
    Assoc(a, b, r.events);
  }

  /** Received in any reads, a conversation and whatever ends it: the events of its operations,
      in order, and then the ending. */
  lemma ConversationRead(items: seq<Item>, tail: Bytes, chunks: seq<Bytes>, lim: Limits)
    requires lim.maxControlLine >= 1 && forall i :: 0 <= i < |items| ==> Proper(items[i], lim)
    requires Flatten(chunks) == Text(items) + tail
    ensures var r, end := View(Run(AtLine, [], chunks, lim)), Parse(OnLine, tail, lim);
            && r.events == Told(items) + end.events && r.end == end.end && r.stand == end.stand
            && (r.end == Waiting ==> r.pending == end.pending)
  {
    var none: Bytes := [];
    OperationsRead(items, tail, lim);
    assert none + none == none && none + Flatten(chunks) == Flatten(chunks);
    RunRefines(AtLine, [], chunks, lim);
  }

  // ------------------------------------------------------------------------ endings ---

  /** The reads give these events, bodies in wire order, and end so. */
  predicate Comes(chunks: seq<Bytes>, lim: Limits, events: seq<Event>, end: End) {
    var o := Run(AtLine, [], chunks, lim);
    Intendeds(o.events) == events && o.end == end
  }

  /** Operations received in any reads, and then what comes of the rest. */
  lemma ComesTo(items: seq<Item>, tail: Bytes, chunks: seq<Bytes>, lim: Limits, last: seq<Event>, end: End)
    requires lim.maxControlLine >= 1 && forall i :: 0 <= i < |items| ==> Proper(items[i], lim)
    requires Flatten(chunks) == Text(items) + tail
    requires Parse(OnLine, tail, lim).events == last && Parse(OnLine, tail, lim).end == end
    ensures Comes(chunks, lim, Told(items) + last, end)
  {
    ConversationRead(items, tail, chunks, lim);
  }

  /** How the connection is to be closed over a line, if it is. */
  ghost function Complaint(line: Bytes, lim: Limits): Option<ProtoError> {
    if |line| > lim.maxControlLine then Some(Fatal("maximum control line exceeded"))
    else if Oversize(line, lim.maxPayload) then Some(Fatal("Maximum Payload Violation"))
    else if Mute(line) then Some(Silent)
    else if Bare(line) || forall verb :: !Has(line, verb) then Some(Fatal("Unknown Protocol Operation"))
    else None
  }

  lemma ComplaintEnds(line: Bytes, rest: Bytes, lim: Limits)
    requires Lineable(line) && Complaint(line, lim).Some?
    ensures var r := Parse(OnLine, line + CRLF + rest, lim); r.events == [] && r.end == Failed(Complaint(line, lim).value)
  {
    LineEnds(line, rest, lim);
    OversizeIff(line, lim);
    SilentIff(line, lim);
    UnknownIff(line, lim);
  }

  /** Any operations in any reads, and then a line there is something against: what was said
      before it is told, and then the reads fail, with just that complaint. */
  lemma LineFails(items: seq<Item>, line: Bytes, rest: Bytes, chunks: seq<Bytes>, lim: Limits)
    requires lim.maxControlLine >= 1 && forall i :: 0 <= i < |items| ==> Proper(items[i], lim)
    requires Lineable(line) && Complaint(line, lim).Some? && Flatten(chunks) == Text(items) + (line + CRLF + rest)
    ensures Comes(chunks, lim, Told(items), Failed(Complaint(line, lim).value))
  {
    ComplaintEnds(line, rest, lim);
    ComesTo(items, line + CRLF + rest, chunks, lim, [], Failed(Complaint(line, lim).value));
    assert Told(items) + [] == Told(items);
  }

  /** An HPUB that is no publish ends the batch, for the connection to decide. */
  lemma HpubFails(items: seq<Item>, line: Bytes, rest: Bytes, chunks: seq<Bytes>, lim: Limits)
    requires lim.maxControlLine >= 1 && forall i :: 0 <= i < |items| ==> Proper(items[i], lim)
    requires Lineable(line) && 4 < |line| <= lim.maxControlLine && Heard(line, "HPUB") && !WellFormed(line, true)
    requires Flatten(chunks) == Text(items) + (line + CRLF + rest)
    ensures Comes(chunks, lim, Told(items) + [HpubAttempt(BadArgs)], Closing)
  {
    LineEnds(line, rest, lim);
    BadHpubIff(line, lim, BadArgs);
    ComesTo(items, line + CRLF + rest, chunks, lim, [HpubAttempt(BadArgs)], Closing);
  }

  /** What is where the end of a body must be does not begin as an end does. */
  predicate NoEnd(after: Bytes) {
    after != [] && (after[0] != CR || (|after| >= 2 && after[1] != LF))
  }

  lemma PostEnds(post: Item, after: Bytes, lim: Limits)
    requires post.Post? && Proper(post, lim) && NoEnd(after)
    ensures var r := Parse(OnLine, post.line + CRLF + (post.body + after), lim);
            if post.hpub then r.events == [HpubAttempt(Good), HpubAttempt(BadFrame("Unknown Protocol Operation"))] && r.end == Closing
            else r.events == [] && r.end == Failed(Fatal("Unknown Protocol Operation"))
  {
    var Post(line, subject, reply, hdr, body, hpub) := post;
    PublishIff(line, lim, subject, reply, hdr, |body|, hpub);
    AcceptedStarts(line, lim);
    LineEnds(line, body + after, lim);
    BodyEnds(subject, reply, hdr, hpub, body, after, lim);
  }

  /** A body that does not end where its line said: a PUB fails at once, an HPUB is left to the
      connection. */
  lemma BodyFails(items: seq<Item>, post: Item, after: Bytes, chunks: seq<Bytes>, lim: Limits)
    requires lim.maxControlLine >= 1 && forall i :: 0 <= i < |items| ==> Proper(items[i], lim)
    requires post.Post? && Proper(post, lim) && NoEnd(after)
    requires Flatten(chunks) == Text(items) + (post.line + CRLF + (post.body + after))
    ensures post.hpub ==>
              Comes(chunks, lim, Told(items) + [HpubAttempt(Good), HpubAttempt(BadFrame("Unknown Protocol Operation"))], Closing)
    ensures !post.hpub ==> Comes(chunks, lim, Told(items), Failed(Fatal("Unknown Protocol Operation")))
  {
    PostEnds(post, after, lim);
    var tail := post.line + CRLF + (post.body + after);
    if post.hpub {
      ComesTo(items, tail, chunks, lim, [HpubAttempt(Good), HpubAttempt(BadFrame("Unknown Protocol Operation"))], Closing);
    } else {
      ComesTo(items, tail, chunks, lim, [], Failed(Fatal("Unknown Protocol Operation")));
      assert Told(items) + [] == Told(items);
    }
  }

  /** A line without an end: it is waited for, up to sixteen times the limit. */
  lemma EndlessLine(items: seq<Item>, part: Bytes, chunks: seq<Bytes>, lim: Limits)
    requires lim.maxControlLine >= 1 && forall i :: 0 <= i < |items| ==> Proper(items[i], lim)
    requires Lineable(part) && Flatten(chunks) == Text(items) + part
    ensures Comes(chunks, lim, Told(items), if |part| <= 16 * lim.maxControlLine then Waiting
                                            else Failed(Fatal("maximum control line exceeded")))
  {
    LineWaits(part, lim);
    ComesTo(items, part, chunks, lim, [], Parse(OnLine, part, lim).end);
    assert Told(items) + [] == Told(items);
  }

  /** A line feed where a line begins. */
  lemma LineFeedFails(items: seq<Item>, rest: Bytes, chunks: seq<Bytes>, lim: Limits)
    requires lim.maxControlLine >= 1 && forall i :: 0 <= i < |items| ==> Proper(items[i], lim)
    requires Flatten(chunks) == Text(items) + ([LF] + rest)
    ensures Comes(chunks, lim, Told(items), Failed(Fatal("Unknown Protocol Operation")))
  {
    ComesTo(items, [LF] + rest, chunks, lim, [], Failed(Fatal("Unknown Protocol Operation")));
    assert Told(items) + [] == Told(items);
  }
}
