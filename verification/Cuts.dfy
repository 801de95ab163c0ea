/** Cut invariance: what the parser makes of a stream does not depend on where the
    reads cut it, except for the order in which a body's pieces are put together.

    `Parse` is the reference: a parser that waits until a body is wholly in the buffer.
    The server's parser refines it, and `Parse` is invariant under cuts. */
module Cuts {
  import opened ByteStrings
  import opened Lines
  import opened Parser

  /** Where the reference parser stands: no bytes are ever taken out of the stream early. */
  datatype Stand =
    | OnLine
    | OnBody(subject: Bytes, reply: Option<Bytes>, hdr: nat, need: nat, hpub: bool)

  datatype Reading = Reading(events: seq<Event>, end: End, stand: Stand, pending: Bytes)

  datatype Pace =
    | Go(events: seq<Event>, stand: Stand, pending: Bytes)
    | Stop(reading: Reading)

  function LinePace(p: Bytes, lim: Limits): Pace {
    if p != [] && p[0] == LF then Stop(Reading([], Failed(Fatal(UNKNOWN_OP)), OnLine, p)) else
    match FindCrlf(p)
    case None =>
      Stop(Reading([], if |p| > lim.maxControlLine * 16 then Failed(Fatal(MAX_CONTROL_LINE)) else Waiting, OnLine, p))
    case Some(at) =>
      if at > lim.maxControlLine then Stop(Reading([], Failed(Fatal(MAX_CONTROL_LINE)), OnLine, p)) else
      var rest := p[at + 2..];
      match ParseLine(p[..at], lim)
      case Reject(error) => Stop(Reading([], Failed(error), OnLine, rest))
      case Accept(Emit(ev)) =>
        if ev == HpubAttempt(BadArgs) then Stop(Reading([ev], Closing, OnLine, rest)) else Go([ev], OnLine, rest)
      case Accept(AwaitBody(subject, reply, hdr, need, hpub)) =>
        Go(if hpub then [HpubAttempt(Good)] else [], OnBody(subject, reply, hdr, need, hpub), rest)
  }

  function BodyPace(s: Stand, p: Bytes): Pace
    requires s.OnBody?
  {
    if |p| <= s.need then Stop(Reading([], Waiting, s, p))
    else if p[s.need] != CR then Stop(Desync(s, p))
    else if |p| == s.need + 1 then Stop(Reading([], Waiting, s, p))
    else if p[s.need + 1] != LF then Stop(Desync(s, p))
    else Go([Publish(s.subject, s.reply, s.hdr, s.need, p[..s.need], s.hpub)], OnLine, p[s.need + 2..])
  }

  function Desync(s: Stand, p: Bytes): Reading
    requires s.OnBody?
  {
    if s.hpub then Reading([HpubAttempt(BadFrame(UNKNOWN_OP))], Closing, s, p)
    else Reading([], Failed(Fatal(UNKNOWN_OP)), s, p)
  }

  function PaceOf(s: Stand, p: Bytes, lim: Limits): (r: Pace)
    ensures r.Go? ==> |r.pending| < |p|
  {
    if s.OnLine? then LinePace(p, lim) else BodyPace(s, p)
  }

  function Parse(s: Stand, p: Bytes, lim: Limits): Reading
    decreases |p|
  {
    match PaceOf(s, p, lim)
    case Stop(r) => r
    case Go(events, s', p') => After(events, Parse(s', p', lim))
  }

  function After(events: seq<Event>, r: Reading): Reading {
    r.(events := events + r.events)
  }

  // -------------------------------------------------- the server refines Parse ---

  function StandOf(st: State): Stand {
    if st.AtLine? then OnLine else OnBody(st.subject, st.reply, st.hdr, st.need, st.hpub)
  }

  /** What an outcome says once the pieces of bodies are read in wire order: the held
      pieces are stream bytes like the rest. */
  function View(o: Outcome): Reading {
    Reading(Intendeds(o.events), o.end, StandOf(o.state), Held(o.state) + o.rest)
  }

  function PaceView(s: Stride): Pace {
    match s
    case Advance(events, st, rest) => Go(Intendeds(events), StandOf(st), Held(st) + rest)
    case Halt(o) => Stop(View(o))
  }

  lemma StepRefines(st: State, src: Bytes, lim: Limits)
    requires ValidState(st)
    ensures PaceView(Step(st, src, lim)) == PaceOf(StandOf(st), Held(st) + src, lim)
  {
    if st.AtLine? {
      assert Held(st) + src == src;
      LineRefines(src, lim);
    } else {
      BodyRefines(st, src);
    }
  }

  lemma LineRefines(src: Bytes, lim: Limits)
    ensures PaceView(LineStep(src, lim)) == LinePace(src, lim)
  {
    var s, p := LineStep(src, lim), LinePace(src, lim);
    match s
    case Advance(events, st, rest) =>
      assert Intendeds(events) == p.events;
      assert Held(st) + rest == rest;
    case Halt(o) =>
      assert Intendeds(o.events) == p.reading.events;
      assert Held(o.state) + o.rest == o.rest;
  }

  lemma BodyRefines(st: State, src: Bytes)
    requires st.InBody? && ValidState(st)
    ensures PaceView(BodyStep(st, src)) == BodyPace(StandOf(st), Held(st) + src)
  {
    var (st', src') := Taken(st, src);
    SettleRefines(st', src');
  }

  lemma SettleRefines(st: State, src: Bytes)
    requires st.InBody? && ValidState(st) && (|Held(st)| == st.need || src == [])
    ensures PaceView(Settle(st, src)) == BodyPace(StandOf(st), Held(st) + src)
  {
    var h := Held(st);
    TakenSlices(h, src);
    if |h| < st.need || src == [] || src == [CR] {
      assert Settle(st, src) == Halt(Outcome([], Waiting, st, src));
    } else if src[0] == CR && src[1] == LF {
      var t := Pieced(st.subject, st.reply, st.hdr, st.hpub, st.pieces);
      assert Settle(st, src) == Advance([t], AtLine, src[2..]);
      assert Intendeds([t]) == [PublishOf(t, h)];
      assert Held(AtLine) + src[2..] == src[2..];
    } else {
      assert Settle(st, src) == Halt(FrameError(st, src));
      var bad := HpubAttempt(BadFrame(UNKNOWN_OP));
      assert Intendeds([Plain(bad)]) == [bad];
    }
  }

  lemma TakenSlices(h: Bytes, t: Bytes)
    ensures var p := h + t; p[..|h|] == h && p[|h|..] == t
    ensures |t| >= 1 ==> (h + t)[|h|] == t[0]
    ensures |t| >= 2 ==> (h + t)[|h| + 1] == t[1] && (h + t)[|h| + 2..] == t[2..]
  {
  }

  lemma IntendedsAppend(a: seq<Traced>, b: seq<Traced>)
    ensures Intendeds(a + b) == Intendeds(a) + Intendeds(b)
  {
  }

  /** One call of the server's parser is `Parse` of the bytes held and the bytes given. */
  lemma {:induction false} FeedRefines(st: State, src: Bytes, lim: Limits)
    requires ValidState(st)
    ensures View(Feed(st, src, lim)) == Parse(StandOf(st), Held(st) + src, lim)
    decreases |src|
  {
    StepRefines(st, src, lim);
    var s := Step(st, src, lim);
    if s.Advance? {
      FeedRefines(s.state, s.rest, lim);
      IntendedsAppend(s.events, Feed(s.state, s.rest, lim).events);
    }
  }

  // ------------------------------------------------------ Parse ignores cuts ---

  /** What more bytes do to a pace that has been decided. */
  function Longer(g: Pace, y: Bytes): Pace {
    match g
    case Go(events, s, p) => Go(events, s, p + y)
    case Stop(r) => Stop(r.(pending := r.pending + y))
  }

  lemma CrlfStable(x: Bytes, y: Bytes)
    ensures FindCrlf(x).Some? ==> FindCrlf(x + y) == FindCrlf(x)
    ensures FindCrlf(x).None? && FindCrlf(x + y).Some? ==> FindCrlf(x + y).value >= |x| - 1
  {
    var r := FindCrlf(x);
    if r.Some? {
      forall i | 0 <= i < r.value
        ensures !((x + y)[i] == CR && (x + y)[i + 1] == LF)
      {
        assert (x + y)[i] == x[i] && (x + y)[i + 1] == x[i + 1];
      }
      FindCrlfIs(x + y, r.value);
    } else {
      forall i | 0 <= i < |x| - 1
        ensures !((x + y)[i] == CR && (x + y)[i + 1] == LF)
      {
        assert (x + y)[i] == x[i] && (x + y)[i + 1] == x[i + 1];
      }
    }
  }

  /** Under a limit of no bytes at all, a carriage return alone is too long a line, and with
      its line feed an empty one. */
  predicate Severs(s: Stand, x: Bytes, y: Bytes, lim: Limits) {
    lim.maxControlLine == 0 && s.OnLine? && x == [CR] && y != [] && y[0] == LF
  }

  /** A pace that needed no more bytes is the same with more bytes, but for that: this is
      where an overlong line, whole or not, must be refused with the same words. */
  lemma PaceStable(s: Stand, x: Bytes, y: Bytes, lim: Limits)
    requires var g := PaceOf(s, x, lim); g.Go? || g.reading.end != Waiting
    ensures PaceOf(s, x + y, lim) == Longer(PaceOf(s, x, lim), y) <==> !Severs(s, x, y, lim)
  {
    if Severs(s, x, y, lim) {
      SeveredLine(y, lim);
    } else if s.OnLine? {
      LineStable(x, y, lim);
    } else {
      var n := s.need;
      assert |x| > n;
      assert (x + y)[n] == x[n];
      if |x| > n + 1 {
        assert (x + y)[n + 1] == x[n + 1];
        assert (x + y)[..n] == x[..n];
        assert (x + y)[n + 2..] == x[n + 2..] + y;
      }
    }
  }

  lemma LineStable(x: Bytes, y: Bytes, lim: Limits)
    requires var g := LinePace(x, lim); g.Go? || g.reading.end != Waiting
    requires !Severs(OnLine, x, y, lim)
    ensures LinePace(x + y, lim) == Longer(LinePace(x, lim), y)
  {
    if x != [] {
      assert (x + y)[0] == x[0];
    }
    CrlfStable(x, y);
    match FindCrlf(x)
    case None =>
      assert |x| == 1 ==> x == [x[0]] && (y != [] ==> (x + y)[1] == y[0]);
    case Some(at) =>
      assert (x + y)[..at] == x[..at];
      assert (x + y)[at + 2..] == x[at + 2..] + y;
  }

  lemma SeveredLine(y: Bytes, lim: Limits)
    requires lim.maxControlLine == 0 && y != [] && y[0] == LF
    ensures LinePace([CR], lim) == Stop(Reading([], Failed(Fatal(MAX_CONTROL_LINE)), OnLine, [CR]))
    ensures LinePace([CR] + y, lim) == Stop(Reading([], Failed(Fatal(UNKNOWN_OP)), OnLine, y[1..]))
  {
    var p := [CR] + y;
    assert p[0] == CR && p[1] == LF;
    FindCrlfIs(p, 0);
    assert p[2..] == y[1..] && p[..0] == [];
  }

  /** A wait keeps every byte it was given. */
  lemma WaitKeeps(s: Stand, x: Bytes, lim: Limits)
    requires var g := PaceOf(s, x, lim); g.Stop? && g.reading.end == Waiting
    ensures PaceOf(s, x, lim).reading == Reading([], Waiting, s, x)
  {
  }

  /** The cut between `x` and `y` comes to fall so, once what precedes is read. */
  predicate Severed(s: Stand, x: Bytes, y: Bytes, lim: Limits)
    decreases |x|
  {
    match PaceOf(s, x, lim)
    case Go(_, s', x') => Severed(s', x', y, lim)
    case Stop(_) => Severs(s, x, y, lim)
  }

  /** Reading `x` and then `y`; an ending is final. */
  function ReadOn(s: Stand, x: Bytes, y: Bytes, lim: Limits): Reading {
    var r := Parse(s, x, lim);
    if r.end == Waiting then After(r.events, Parse(r.stand, r.pending + y, lim)) else r.(pending := r.pending + y)
  }

  /** Reading `x` and then `y` is reading `x + y`, except exactly when the limit is no bytes
      and the cut severs a CRLF that ends an empty line. */
  lemma ParseSplit(s: Stand, x: Bytes, y: Bytes, lim: Limits)
    ensures Parse(s, x + y, lim) == ReadOn(s, x, y, lim) <==> !Severed(s, x, y, lim)
  {
    if Severed(s, x, y, lim) {
      SeveredEnds(s, x, y, lim);
    } else {
      ReadsOn(s, x, y, lim);
    }
  }

  lemma {:induction false} SeveredEnds(s: Stand, x: Bytes, y: Bytes, lim: Limits)
    requires Severed(s, x, y, lim)
    ensures Parse(s, x, lim).end == Failed(Fatal(MAX_CONTROL_LINE))
    ensures Parse(s, x + y, lim).end == Failed(Fatal(UNKNOWN_OP))
    decreases |x|
  {
    var g := PaceOf(s, x, lim);
    if g.Go? {
      PaceStable(s, x, y, lim);
      SeveredEnds(g.stand, g.pending, y, lim);
    } else {
      SeveredLine(y, lim);
    }
  }

  lemma {:induction false} ReadsOn(s: Stand, x: Bytes, y: Bytes, lim: Limits)
    requires !Severed(s, x, y, lim)
    ensures Parse(s, x + y, lim) == ReadOn(s, x, y, lim)
    decreases |x|
  {
    var g := PaceOf(s, x, lim);
    if g.Go? {
      PaceStable(s, x, y, lim);
      ReadsOn(g.stand, g.pending, y, lim);
      var r := Parse(g.stand, g.pending, lim);
      if r.end == Waiting {
        var z := Parse(r.stand, r.pending + y, lim);
        assert g.events + (r.events + z.events) == (g.events + r.events) + z.events;
      }
    } else if g.reading.end == Waiting {
      WaitKeeps(s, x, lim);
      var z := Parse(s, x + y, lim);
      assert [] + z.events == z.events;
    } else {
      PaceStable(s, x, y, lim);
    }
  }

  lemma {:induction false} NeverSevered(s: Stand, x: Bytes, y: Bytes, lim: Limits)
    requires lim.maxControlLine >= 1
    ensures !Severed(s, x, y, lim)
    decreases |x|
  {
    var g := PaceOf(s, x, lim);
    if g.Go? {
      NeverSevered(g.stand, g.pending, y, lim);
    }
  }

  // ------------------------------------------------------------ cut invariance ---

  /** Chunk after chunk, the server reads what the reference reads of the whole. */
  lemma {:induction false} RunRefines(st: State, buf: Bytes, chunks: seq<Bytes>, lim: Limits)
    requires lim.maxControlLine >= 1 && ValidState(st)
    requires Parse(StandOf(st), Held(st) + buf, lim) == Reading([], Waiting, StandOf(st), Held(st) + buf)
    ensures var r := View(Run(st, buf, chunks, lim));
            var w := Parse(StandOf(st), Held(st) + buf + Flatten(chunks), lim);
            r.events == w.events && r.end == w.end && r.stand == w.stand
            && (r.end == Waiting ==> r.pending == w.pending)
    decreases |chunks|
  {
    var x := Held(st) + buf;
    if chunks == [] {
      assert x + Flatten(chunks) == x;
    } else {
      var c, tail := chunks[0], Flatten(chunks[1..]);
      var o := Feed(st, buf + c, lim);
      Assoc(Held(st), buf, c);
      Assoc(x, c, tail);
      FeedRefines(st, buf + c, lim);
      NeverSevered(StandOf(st), x + c, tail, lim);
      ReadsOn(StandOf(st), x + c, tail, lim);
      if o.end == Waiting {
        ParseWaits(StandOf(st), x + c, lim);
        RunRefines(o.state, o.rest, chunks[1..], lim);
        IntendedsAppend(o.events, Run(o.state, o.rest, chunks[1..], lim).events);
      }
    }
  }

  /** Where the reference waits, it would wait again. */
  lemma {:induction false} ParseWaits(s: Stand, x: Bytes, lim: Limits)
    requires Parse(s, x, lim).end == Waiting
    ensures var r := Parse(s, x, lim); Parse(r.stand, r.pending, lim) == Reading([], Waiting, r.stand, r.pending)
    decreases |x|
  {
    var g := PaceOf(s, x, lim);
    if g.Go? {
      ParseWaits(g.stand, g.pending, lim);
    } else {
      WaitKeeps(s, x, lim);
    }
  }

  /** Cut so, the stream gives the events, the error and the leftover it gives in one read,
      bodies being read in wire order. */
  predicate SameReading(chunks: seq<Bytes>, lim: Limits) {
    var cut, whole := View(Run(AtLine, [], chunks, lim)), View(Feed(AtLine, Flatten(chunks), lim));
    && cut.events == whole.events && cut.end == whole.end && cut.stand == whole.stand
    && (cut.end == Waiting ==> cut.pending == whole.pending)
  }

  /** The first bytes that come are a carriage return, and its line feed comes later. */
  predicate BreaksCrlf(chunks: seq<Bytes>) {
    FirstRead(chunks) == [CR] && |Flatten(chunks)| >= 2 && Flatten(chunks)[1] == LF
  }

  /** The first read that is not empty. */
  function FirstRead(chunks: seq<Bytes>): Bytes {
    if chunks == [] then [] else if chunks[0] != [] then chunks[0] else FirstRead(chunks[1..])
  }

  /** However a stream is cut, it reads as it does whole; but if the limit of a control line
      is no bytes at all, exactly when its first CRLF is not cut off after one byte. */
  lemma CutInvariance(chunks: seq<Bytes>, lim: Limits)
    ensures SameReading(chunks, lim) <==> lim.maxControlLine >= 1 || !BreaksCrlf(chunks)
  {
    if lim.maxControlLine >= 1 {
      LimitedCuts(chunks, lim);
    } else {
      UnlimitedCuts(chunks, lim);
    }
  }

  /** Cuts never matter if and only if the limit allows a byte. */
  lemma CutsNeverMatterIff(lim: Limits)
    ensures (forall chunks :: SameReading(chunks, lim)) <==> lim.maxControlLine >= 1
  {
    var chunks := [[CR], [LF]];
    assert chunks[1..] == [[LF]] && [[LF]][1..] == [];
    assert Flatten(chunks) == [CR, LF] by {
      assert Flatten([[LF]]) == [LF] + Flatten([]);
    }
    CutInvariance(chunks, lim);
    forall other: seq<Bytes> | lim.maxControlLine >= 1
      ensures SameReading(other, lim)
    {
      CutInvariance(other, lim);
    }
  }

  lemma LimitedCuts(chunks: seq<Bytes>, lim: Limits)
    requires lim.maxControlLine >= 1
    ensures SameReading(chunks, lim)
  {
    var none: Bytes := [];
    assert none + none == none && none + Flatten(chunks) == Flatten(chunks);
    RunRefines(AtLine, [], chunks, lim);
    FeedRefines(AtLine, Flatten(chunks), lim);
  }

  /** Under a limit of no bytes the first bytes decide: an empty line is no operation, and
      any other is too long. */
  lemma EmptyLimit(src: Bytes, lim: Limits)
    requires lim.maxControlLine == 0
    ensures var o := Feed(AtLine, src, lim);
            && o.events == [] && o.state == AtLine && (src == [] ==> o.rest == [])
            && o.end == if src == [] then Waiting
                        else if src[0] == LF || (|src| >= 2 && src[0] == CR && src[1] == LF) then Failed(Fatal(UNKNOWN_OP))
                        else Failed(Fatal(MAX_CONTROL_LINE))
  {
    if |src| >= 2 && src[0] == CR && src[1] == LF {
      FindCrlfIs(src, 0);
      assert src[..0] == [];
    } else if FindCrlf(src).Some? {
      assert FindCrlf(src).value > 0;
    }
  }

  lemma {:induction false} FirstReadDecides(chunks: seq<Bytes>, lim: Limits)
    requires lim.maxControlLine == 0
    ensures var o, first := Run(AtLine, [], chunks, lim), Feed(AtLine, FirstRead(chunks), lim);
            o.events == [] && o.end == first.end && o.state == AtLine && (o.end == Waiting ==> o.rest == [])
    ensures FirstRead(chunks) <= Flatten(chunks) && (FirstRead(chunks) == [] ==> Flatten(chunks) == [])
  {
    EmptyLimit(FirstRead(chunks), lim);
    if chunks != [] {
      var none: Bytes := [];
      assert none + chunks[0] == chunks[0];
      EmptyLimit(chunks[0], lim);
      FirstReadDecides(chunks[1..], lim);
      assert none + Flatten(chunks[1..]) == Flatten(chunks[1..]);
    }
  }

  lemma UnlimitedCuts(chunks: seq<Bytes>, lim: Limits)
    requires lim.maxControlLine == 0
    ensures SameReading(chunks, lim) <==> !BreaksCrlf(chunks)
    ensures Run(AtLine, [], chunks, lim).events == [] == Feed(AtLine, Flatten(chunks), lim).events
  {
    FirstReadDecides(chunks, lim);
    EmptyLimit(FirstRead(chunks), lim);
    EmptyLimit(Flatten(chunks), lim);
    var first, whole := FirstRead(chunks), Flatten(chunks);
    assert first == whole[..|first|];
  }

  /** Whatever the limit, the events are those of the stream whole. */
  lemma SameEvents(chunks: seq<Bytes>, lim: Limits)
    ensures Intendeds(Run(AtLine, [], chunks, lim).events) == Intendeds(Feed(AtLine, Flatten(chunks), lim).events)
  {
    if lim.maxControlLine >= 1 {
      LimitedCuts(chunks, lim);
    } else {
      UnlimitedCuts(chunks, lim);
    }
  }

  // -------------------------------------------------------- the order of pieces ---

  /** No publish of `ts` came in more than `n` pieces. */
  predicate AtMost(ts: seq<Traced>, n: nat) {
    forall i :: 0 <= i < |ts| && ts[i].Pieced? ==> |ts[i].pieces| <= n
  }

  function PieceCount(st: State): nat {
    if st.AtLine? then 0 else |st.pieces|
  }

  /** A call adds at most one piece to the body it finds begun, and gives any other body
      one piece at most. */
  lemma {:induction false} FeedPieces(st: State, src: Bytes, lim: Limits)
    requires ValidState(st)
    ensures AtMost(Feed(st, src, lim).events, PieceCount(st) + 1)
    ensures PieceCount(Feed(st, src, lim).state) <= PieceCount(st) + 1
    decreases |src|
  {
    var s := Step(st, src, lim);
    if s.Advance? {
      if st.AtLine? && s.state.InBody? {
        BodyBegins(s.state, s.rest, lim);
      } else {
        FeedPieces(s.state, s.rest, lim);
      }
    }
  }

  /** A body begun in this call has one piece at most when the call ends. */
  lemma {:induction false} BodyBegins(st: State, src: Bytes, lim: Limits)
    requires st.InBody? && ValidState(st) && st.pieces == []
    ensures AtMost(Feed(st, src, lim).events, 1) && PieceCount(Feed(st, src, lim).state) <= 1
    decreases |src|
  {
    var s := Step(st, src, lim);
    if s.Advance? {
      FeedPieces(s.state, s.rest, lim);
    }
  }

  lemma {:induction false} RunPieces(st: State, buf: Bytes, chunks: seq<Bytes>, lim: Limits)
    requires ValidState(st)
    ensures AtMost(Run(st, buf, chunks, lim).events, PieceCount(st) + |chunks|)
    decreases |chunks|
  {
    if chunks != [] {
      FeedPieces(st, buf + chunks[0], lim);
      var o := Feed(st, buf + chunks[0], lim);
      RunPieces(o.state, o.rest, chunks[1..], lim);
    }
  }

  /** One piece, or an even number of them, comes back in wire order. With three, five,
      ... pieces, the last one is moved to the front of the others. */
  lemma AssembledOrder(pieces: seq<Bytes>)
    ensures |pieces| <= 1 || |pieces| % 2 == 0 ==> Assembled(pieces) == Flatten(pieces)
    ensures |pieces| % 2 == 1 ==>
              var last := pieces[|pieces| - 1];
              var front := Flatten(pieces[..|pieces| - 1]);
              Flatten(pieces) == front + last && Assembled(pieces) == last + front
    ensures |Assembled(pieces)| == |Flatten(pieces)|
  {
    if |pieces| % 2 == 1 {
      var n := |pieces| - 1;
      assert pieces == pieces[..n] + [pieces[n]];
      FlattenSnoc(pieces[..n], pieces[n]);
    }
  }

  /** The body comes back in wire order, whatever its bytes, exactly for one piece or an
      even number of pieces: sizes alone decide. */
  lemma OrderKeptIff(sizes: seq<nat>)
    requires forall i :: 0 <= i < |sizes| ==> sizes[i] > 0
    ensures (forall pieces: seq<Bytes> :: Sized(pieces, sizes) ==> Assembled(pieces) == Flatten(pieces))
       <==> (|sizes| <= 1 || |sizes| % 2 == 0)
  {
    if |sizes| <= 1 || |sizes| % 2 == 0 {
      forall pieces: seq<Bytes> | Sized(pieces, sizes)
        ensures Assembled(pieces) == Flatten(pieces)
      {
        AssembledOrder(pieces);
      }
    } else {
      var n := |sizes| - 1;
      var bad := seq(n, i requires 0 <= i < n => seq(sizes[i], _ => 0 as byte)) + [seq(sizes[n], _ => 1 as byte)];
      AssembledOrder(bad);
      assert Flatten(bad)[0] == bad[0][0] == 0;
      assert Assembled(bad)[0] == bad[n][0] == 1;
      assert Sized(bad, sizes) && Assembled(bad) != Flatten(bad);
    }
  }

  predicate Sized(pieces: seq<Bytes>, sizes: seq<nat>) {
    |pieces| == |sizes| && forall i :: 0 <= i < |sizes| ==> |pieces[i]| == sizes[i]
  }

  /** How an event handed on compares with `w`, the same event of the uncut stream: equal
      if the body came in one piece or an even number of pieces, and otherwise equal but
      for the body, which is rotated by the length of its last piece. */
  predicate Compares(t: Traced, w: Event) {
    if t.Plain? || |t.pieces| <= 1 || |t.pieces| % 2 == 0 then Actual(t) == w else
    var k := |Flatten(t.pieces[..|t.pieces| - 1])|;
    w.Publish? && k <= |w.body| && Actual(t) == w.(body := w.body[k..] + w.body[..k])
  }

  lemma ComparesIntended(t: Traced)
    ensures Compares(t, Intended(t))
  {
    if t.Pieced? {
      AssembledOrder(t.pieces);
      if |t.pieces| % 2 == 1 {
        Rotated(Flatten(t.pieces[..|t.pieces| - 1]), t.pieces[|t.pieces| - 1]);
      }
    }
  }

  /** Event by event, what a cut stream hands on against what the whole does. */
  lemma CutBodies(chunks: seq<Bytes>, lim: Limits)
    ensures var cut := Run(AtLine, [], chunks, lim).events;
            var whole := Actuals(Feed(AtLine, Flatten(chunks), lim).events);
            |cut| == |whole| && forall i :: 0 <= i < |cut| ==> Compares(cut[i], whole[i])
  {
    var cut, whole := Run(AtLine, [], chunks, lim).events, Feed(AtLine, Flatten(chunks), lim).events;
    SameEvents(chunks, lim);
    FeedPieces(AtLine, Flatten(chunks), lim);
    FewPieces(whole);
    AllCompare(cut);
  }

  lemma AllCompare(ts: seq<Traced>)
    ensures forall i :: 0 <= i < |ts| ==> Compares(ts[i], Intendeds(ts)[i])
  {
    forall i | 0 <= i < |ts|
      ensures Compares(ts[i], Intendeds(ts)[i])
    {
      ComparesIntended(ts[i]);
    }
  }

  lemma Rotated(front: Bytes, last: Bytes)
    ensures var body := front + last; body[|front|..] + body[..|front|] == last + front
  {
  }

  /** The events the parser makes of a stream that came in at most two reads are those it
      makes of the stream in one read, bodies included. */
  lemma TwoReads(x: Bytes, y: Bytes, lim: Limits)
    ensures Actuals(Run(AtLine, [], [x, y], lim).events) == Actuals(Feed(AtLine, x + y, lim).events)
  {
    var cut, whole := Run(AtLine, [], [x, y], lim).events, Feed(AtLine, x + y, lim).events;
    assert Flatten([x, y]) == x + y by {
      assert [x, y][1..] == [y];
      assert Flatten([y]) == y;
    }
    SameEvents([x, y], lim);
    RunPieces(AtLine, [], [x, y], lim);
    FeedPieces(AtLine, x + y, lim);
    FewPieces(cut);
    FewPieces(whole);
  }

  lemma {:induction false} FewPieces(ts: seq<Traced>)
    requires AtMost(ts, 2)
    ensures Actuals(ts) == Intendeds(ts)
  {
    if ts != [] {
      PiecesInOrder(ts[0]);
      FewPieces(ts[1..]);
    }
  }

  lemma PiecesInOrder(t: Traced)
    requires t.Pieced? ==> |t.pieces| <= 1 || |t.pieces| % 2 == 0
    ensures Actual(t) == Intended(t)
  {
    if t.Pieced? {
      AssembledOrder(t.pieces);
    }
  }
}
