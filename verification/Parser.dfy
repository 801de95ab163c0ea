/** The resumable parser: a two-state machine over a byte stream cut anywhere.

    `Feed` is what one call does. It keeps, for a body that spans several calls, the
    pieces it came in, because the order in which the server puts them back together
    depends on how many there were. */
module Parser {
  import opened ByteStrings
  import opened Lines

  datatype State =
    | AtLine
    | InBody(subject: Bytes, reply: Option<Bytes>, hdr: nat, need: nat, hpub: bool, pieces: seq<Bytes>)

  /** An event, a publish being described by the pieces its body arrived in. */
  datatype Traced =
    | Plain(event: Event)
    | Pieced(subject: Bytes, reply: Option<Bytes>, hdr: nat, hpub: bool, pieces: seq<Bytes>)

  /** Why a call returned: out of bytes, an HPUB the connection will close on, an error. */
  datatype End = Waiting | Closing | Failed(error: ProtoError)

  datatype Outcome = Outcome(events: seq<Traced>, end: End, state: State, rest: Bytes)

  datatype Stride =
    | Advance(events: seq<Traced>, state: State, rest: Bytes)
    | Halt(outcome: Outcome)

  /** Body bytes already taken out of the stream. */
  function Held(st: State): Bytes {
    if st.AtLine? then [] else Flatten(st.pieces)
  }

  /** No piece is empty, and no more was taken than the line declared. */
  predicate ValidState(st: State) {
    st.InBody? ==> |Held(st)| <= st.need && forall p :: p in st.pieces ==> p != []
  }

  /** The body as the server reassembles it: with an odd number of pieces, three or
      more, the last one ends up in front. */
  function Assembled(pieces: seq<Bytes>): Bytes {
    if |pieces| % 2 == 1 then pieces[|pieces| - 1] + Flatten(pieces[..|pieces| - 1]) else Flatten(pieces)
  }

  function PublishOf(t: Traced, body: Bytes): Event
    requires t.Pieced?
  {
    Publish(t.subject, t.reply, t.hdr, |body|, body, t.hpub)
  }

  /** The event the server hands on. */
  function Actual(t: Traced): Event {
    if t.Plain? then t.event else PublishOf(t, Assembled(t.pieces))
  }

  /** The event with its body in wire order. */
  function Intended(t: Traced): Event {
    if t.Plain? then t.event else PublishOf(t, Flatten(t.pieces))
  }

  function Actuals(ts: seq<Traced>): (es: seq<Event>)
    ensures |es| == |ts| && forall i :: 0 <= i < |ts| ==> es[i] == Actual(ts[i])
  {
    if ts == [] then [] else [Actual(ts[0])] + Actuals(ts[1..])
  }

  lemma ActualsAppend(batch: seq<Event>, a: seq<Traced>, b: seq<Traced>)
    ensures batch + Actuals(a + b) == batch + Actuals(a) + Actuals(b)
  {
    assert Actuals(a + b) == Actuals(a) + Actuals(b);
  }

  function Intendeds(ts: seq<Traced>): (es: seq<Event>)
    ensures |es| == |ts| && forall i :: 0 <= i < |ts| ==> es[i] == Intended(ts[i])
  {
    if ts == [] then [] else [Intended(ts[0])] + Intendeds(ts[1..])
  }

  /** A body that does not end where its line said. */
  function FrameError(st: State, src: Bytes): Outcome
    requires st.InBody?
  {
    if st.hpub then Outcome([Plain(HpubAttempt(BadFrame(UNKNOWN_OP)))], Closing, st, src)
    else Outcome([], Failed(Fatal(UNKNOWN_OP)), st, src)
  }

  function LineStep(src: Bytes, lim: Limits): Stride {
    if src != [] && src[0] == LF then Halt(Outcome([], Failed(Fatal(UNKNOWN_OP)), AtLine, src)) else
    match FindCrlf(src)
    case None =>
      Halt(Outcome([], if |src| > lim.maxControlLine * 16 then Failed(Fatal(MAX_CONTROL_LINE)) else Waiting,
                   AtLine, src))
    case Some(at) =>
      if at > lim.maxControlLine then Halt(Outcome([], Failed(Fatal(MAX_CONTROL_LINE)), AtLine, src)) else
      var rest := src[at + 2..];
      match ParseLine(src[..at], lim)
      case Reject(error) => Halt(Outcome([], Failed(error), AtLine, rest))
      case Accept(Emit(ev)) =>
        if ev == HpubAttempt(BadArgs) then Halt(Outcome([Plain(ev)], Closing, AtLine, rest))
        else Advance([Plain(ev)], AtLine, rest)
      case Accept(AwaitBody(subject, reply, hdr, need, hpub)) =>
        Advance(if hpub then [Plain(HpubAttempt(Good))] else [],
                InBody(subject, reply, hdr, need, hpub, []), rest)
  }

  /** The state once the body bytes available have been taken from `src`. */
  function Taken(st: State, src: Bytes): (r: (State, Bytes))
    requires st.InBody? && ValidState(st)
    ensures r.0.InBody? && r.0 == st.(pieces := r.0.pieces) && ValidState(r.0)
    ensures Held(st) + src == Held(r.0) + r.1
    ensures |Held(r.0)| == st.need || r.1 == []
  {
    var room := st.need - |Held(st)|;
    var take := if room <= |src| then room else |src|;
    if take > 0 then
      FlattenSnoc(st.pieces, src[..take]);
      (st.(pieces := st.pieces + [src[..take]]), src[take..])
    else (st, src)
  }

  function BodyStep(st: State, src: Bytes): Stride
    requires st.InBody? && ValidState(st)
  {
    var (st', src') := Taken(st, src);
    Settle(st', src')
  }

  /** With all the body bytes there are taken: is the terminator where it must be? */
  function Settle(st: State, src: Bytes): Stride
    requires st.InBody? && ValidState(st)
  {
    if |Held(st)| < st.need || src == [] then Halt(Outcome([], Waiting, st, src))
    else if src[0] != CR then Halt(FrameError(st, src))
    else if |src| == 1 then Halt(Outcome([], Waiting, st, src))
    else if src[1] != LF then Halt(FrameError(st, src))
    else Advance([Pieced(st.subject, st.reply, st.hdr, st.hpub, st.pieces)], AtLine, src[2..])
  }

  function Step(st: State, src: Bytes, lim: Limits): (r: Stride)
    requires ValidState(st)
    ensures r.Advance? ==> |r.rest| < |src| && ValidState(r.state)
    ensures r.Halt? ==> ValidState(r.outcome.state)
  {
    if st.AtLine? then LineStep(src, lim) else BodyStep(st, src)
  }

  /** One call of the parser on the buffer `src`. */
  function Feed(st: State, src: Bytes, lim: Limits): (r: Outcome)
    requires ValidState(st)
    ensures ValidState(r.state)
    decreases |src|
  {
    match Step(st, src, lim)
    case Halt(o) => o
    case Advance(events, st', src') =>
      Prefixed(events, Feed(st', src', lim))
  }

  function Prefixed(events: seq<Traced>, o: Outcome): Outcome {
    o.(events := events + o.events)
  }

  /** One turn of the loop, after the events `seen`. */
  lemma FeedUnfolds(st: State, src: Bytes, lim: Limits, seen: seq<Traced>)
    requires ValidState(st)
    ensures match Step(st, src, lim)
            case Halt(o) => Feed(st, src, lim) == o
            case Advance(events, st', src') =>
              Prefixed(seen, Feed(st, src, lim)) == Prefixed(seen + events, Feed(st', src', lim))
  {
    var s := Step(st, src, lim);
    if s.Advance? {
      PrefixedTwice(seen, s.events, Feed(s.state, s.rest, lim));
    }
  }

  lemma PrefixedTwice(a: seq<Traced>, b: seq<Traced>, o: Outcome)
    ensures Prefixed(a, Prefixed(b, o)) == Prefixed(a + b, o)
  {
    assert a + (b + o.events) == (a + b) + o.events;
  }

  /** Reads appended one after another to the buffer the parser keeps, until one closes
      the connection. */
  function Run(st: State, buf: Bytes, chunks: seq<Bytes>, lim: Limits): (r: Outcome)
    requires ValidState(st)
    ensures ValidState(r.state)
    decreases |chunks|
  {
    if chunks == [] then Outcome([], Waiting, st, buf) else
    var o := Feed(st, buf + chunks[0], lim);
    if o.end != Waiting then o else
    Prefixed(o.events, Run(o.state, o.rest, chunks[1..], lim))
  }

  // ------------------------------------------------------------- the objects ---

  /** The pieces of a body, held the way the server holds them: a lone first piece, and
      a list that every second piece moves it to. */
  class Parts {
    var first: Option<Bytes>
    var rest: seq<Bytes>
    var got: nat
    ghost var pieces: seq<Bytes>

    ghost predicate Valid()
      reads this
    {
      && got == |Flatten(pieces)|
      && if |pieces| % 2 == 1 then
           first == Some(pieces[|pieces| - 1]) && rest == pieces[..|pieces| - 1]
         else
           first == None && rest == pieces
    }

    constructor ()
      ensures Valid() && pieces == []
    {
      first, rest, got, pieces := None, [], 0, [];
    }

    method Push(b: Bytes)
      requires Valid()
      modifies this
      ensures Valid() && pieces == old(pieces) + [b]
    {
      FlattenSnoc(pieces, b);
      got := got + |b|;
      pieces := pieces + [b];
      match first {
        case None =>
          first := Some(b);
        case Some(f) =>
          first := None;
          rest := rest + [f] + [b];
      }
    }

    method TakeBody() returns (body: Bytes)
      requires Valid()
      modifies this
      ensures body == Assembled(old(pieces))
    {
      var f, r := first, rest;
      first, rest := None, [];
      if f.Some? && r == [] {
        body := f.value;
      } else if f.None? && r == [] {
        body := [];
      } else {
        body := if f.Some? then f.value else [];
        ghost var head := body;
        for i := 0 to |r|
          invariant body == head + Flatten(r[..i])
        {
          FlattenSnoc(r[..i], r[i]);
          assert r[..i + 1] == r[..i] + [r[i]];
          body := body + r[i];
        }
        assert r[..|r|] == r;
      }
    }
  }

  datatype Waits =
    | ForLine
    | ForBody(subject: Bytes, reply: Option<Bytes>, hdr: nat, need: nat, hpub: bool)

  datatype FeedEnd = Fed | Broke(error: ProtoError)

  function EndOf(o: Outcome): FeedEnd {
    if o.end.Failed? then Broke(o.end.error) else Fed
  }

  class Machine {
    var waits: Waits
    var parts: Parts

    constructor ()
      ensures Valid() && Abstract() == AtLine && fresh(parts)
    {
      waits := ForLine;
      parts := new Parts();
    }

    ghost predicate Valid()
      reads this, parts
    {
      parts.Valid() && ValidState(Abstract())
    }

    ghost function Abstract(): State
      reads this, parts
    {
      match waits
      case ForLine => AtLine
      case ForBody(subject, reply, hdr, need, hpub) => InBody(subject, reply, hdr, need, hpub, parts.pieces)
    }

    /** The machine did what the stride `s` says, with `batch` the events before it. */
    ghost predicate Did(s: Stride, batch: seq<Event>, rest: Bytes, out: seq<Event>, more: bool, end: FeedEnd)
      reads this, parts
    {
      match s
      case Advance(events, st, r) =>
        more && Abstract() == st && rest == r && out == batch + Actuals(events) && end == Fed
      case Halt(o) =>
        !more && Abstract() == o.state && rest == o.rest && out == batch + Actuals(o.events) && end == EndOf(o)
    }

    /** One turn of the loop at the start of a control line. */
    method LineTurn(src: Bytes, lim: Limits, batch: seq<Event>)
      returns (rest: Bytes, out: seq<Event>, more: bool, end: FeedEnd)
      requires Valid() && waits == ForLine
      modifies this
      ensures Valid() && (parts == old(parts) || fresh(parts))
      ensures Did(Step(AtLine, src, lim), batch, rest, out, more, end)
    {
      rest, out, more, end := src, batch, false, Fed;
      if rest != [] && rest[0] == LF {
        end := Broke(Fatal(UNKNOWN_OP));
        return;
      }
      match FindCrlf(rest) {
        case None =>
          // Still no line end: guard against an unbounded line.
          if |rest| > lim.maxControlLine * 16 {
            end := Broke(Fatal(MAX_CONTROL_LINE));
          }
        case Some(at) =>
          if at > lim.maxControlLine {
            end := Broke(Fatal(MAX_CONTROL_LINE));
            return;
          }
          var line := rest[..at];
          rest := rest[at + 2..];
          match ParseLine(line, lim) {
            case Reject(error) =>
              end := Broke(error);
            case Accept(Emit(ev)) =>
              out := out + [ev];
              more := ev != HpubAttempt(BadArgs);
            case Accept(AwaitBody(subject, reply, hdr, need, hpub)) =>
              if hpub {
                out := out + [HpubAttempt(Good)];
              }
              waits := ForBody(subject, reply, hdr, need, hpub);
              parts := new Parts();
              more := true;
          }
      }
    }

    /** Takes the body bytes there are off the front of `src`. */
    method Take(src: Bytes) returns (rest: Bytes)
      requires Valid() && waits.ForBody?
      modifies parts
      ensures Valid() && (Abstract(), rest) == Taken(old(Abstract()), src)
    {
      var room := waits.need - parts.got;
      var take := if room <= |src| then room else |src|;
      rest := src;
      if take > 0 {
        parts.Push(rest[..take]);
        rest := rest[take..];
      }
      assert (Abstract(), rest) == Taken(old(Abstract()), src);
    }

    /** One turn of the loop inside a body: take what is there, then look for the
        terminator in the slot where it must be. */
    method BodyTurn(src: Bytes, batch: seq<Event>)
      returns (rest: Bytes, out: seq<Event>, more: bool, end: FeedEnd)
      requires Valid() && waits.ForBody?
      modifies this, parts
      ensures Valid() && (parts == old(parts) || fresh(parts))
      ensures Did(BodyStep(old(Abstract()), src), batch, rest, out, more, end)
    {
      out, more, end := batch, false, Fed;
      var ForBody(subject, reply, hdr, need, hpub) := waits;
      rest := Take(src);
      if parts.got < need || rest == [] || rest == [CR] {
        return;
      }
      if rest[0] != CR || rest[1] != LF {
        if hpub {
          out := out + [HpubAttempt(BadFrame(UNKNOWN_OP))];
        } else {
          end := Broke(Fatal(UNKNOWN_OP));
        }
        return;
      }
      rest := rest[2..];
      var body := parts.TakeBody();
      out := out + [Publish(subject, reply, hdr, |body|, body, hpub)];
      waits := ForLine;
      parts := new Parts();
      more := true;
    }

    /** One turn of the loop, in either state. */
    method Turn(src: Bytes, lim: Limits, batch: seq<Event>)
      returns (rest: Bytes, out: seq<Event>, more: bool, end: FeedEnd)
      requires Valid()
      modifies this, parts
      ensures Valid() && (parts == old(parts) || fresh(parts))
      ensures Did(Step(old(Abstract()), src, lim), batch, rest, out, more, end)
    {
      if waits == ForLine {
        rest, out, more, end := LineTurn(src, lim, batch);
      } else {
        rest, out, more, end := BodyTurn(src, batch);
      }
    }

    /** One call of the parser: events are appended to the caller's batch, whatever could
        not be used yet is returned, and the machine is left in the state `Feed` says. */
    method FeedInto(src: Bytes, lim: Limits, batch: seq<Event>)
      returns (rest: Bytes, out: seq<Event>, end: FeedEnd)
      requires Valid()
      modifies this, parts
      ensures Valid() && (parts == old(parts) || fresh(parts))
      ensures Did(Halt(Feed(old(Abstract()), src, lim)), batch, rest, out, false, end)
    {
      rest, out, end := src, batch, Fed;
      var more := true;
      ghost var whole := Feed(Abstract(), src, lim);
      ghost var seen: seq<Traced> := [];
      while more
        invariant Valid() && (parts == old(parts) || fresh(parts))
        invariant more ==> whole == Prefixed(seen, Feed(Abstract(), rest, lim)) && out == batch + Actuals(seen)
        invariant !more ==> Did(Halt(whole), batch, rest, out, false, end)
        decreases if more then |rest| + 1 else 0
      {
        ghost var here := Step(Abstract(), rest, lim);
        FeedUnfolds(Abstract(), rest, lim, seen);
        rest, out, more, end := Turn(rest, lim, out);
        ghost var events := if more then here.events else here.outcome.events;
        ActualsAppend(batch, seen, events);
        seen := seen + events;
      }
    }
  }
}
