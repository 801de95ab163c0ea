/** What the parser lets in is what the frame builder can lay down: the sizes a control line
    can declare bound every body that reaches a delivery. */
module Intake {
  import opened ByteStrings
  import opened Decimal
  import opened Lines
  import opened Parser
  import opened Cuts

  const LIMIT: nat := 1_000_000_000

  lemma {:induction false} ValueBelow(d: Bytes)
    requires AllDigits(d)
    ensures Value(d) < Pow10(|d|)
  {
    if d != [] {
      ValueBelow(d[..|d| - 1]);
    }
  }

  lemma {:induction false} Pow10Grows(a: nat, b: nat)
    requires a <= b
    ensures Pow10(a) <= Pow10(b)
  {
    if a < b {
      Pow10Grows(a, b - 1);
    }
  }

  lemma SizeBelow(d: Bytes)
    ensures ParseSize(d) < LIMIT
  {
    if 1 <= |d| <= 9 && AllDigits(d) {
      ValueBelow(d);
      Pow10Grows(|d|, 9);
      assert Pow10(9) == LIMIT by {
        assert Pow10(3) == 1000;
        assert Pow10(6) == 1000 * Pow10(3);
        assert Pow10(9) == 1000 * Pow10(6);
      }
    }
  }

  /** What is awaited was declared: no more header than body, nine digits of it, and no more of
      it than the limit. */
  predicate Declared(hdr: nat, need: nat, lim: Limits) { hdr <= need < LIMIT && need <= lim.maxPayload }

  lemma PubDeclares(rest: Bytes, hpub: bool, lim: Limits)
    ensures match PubLine(rest, hpub, lim)
            case Accept(AwaitBody(_, _, hdr, need, _)) => Declared(hdr, need, lim)
            case _ => true
  {
    var args := Fields(rest);
    if |args| >= 2 {
      SizeBelow(args[|args| - 1]);
    }
  }

  lemma LineDeclares(line: Bytes, lim: Limits)
    ensures match ParseLine(line, lim)
            case Accept(AwaitBody(_, _, hdr, need, _)) => Declared(hdr, need, lim)
            case _ => true
  {
    if line != [] {
      PubDeclares(line[TokenLen(line)..], false, lim);
      PubDeclares(line[TokenLen(line)..], true, lim);
    }
  }

  predicate StateOk(st: State, lim: Limits) {
    st.InBody? ==> Declared(st.hdr, st.need, lim)
  }

  /** A body as long as its line declared. */
  predicate EventOk(t: Traced, lim: Limits) {
    if t.Plain? then !t.event.Publish? else Declared(t.hdr, |Flatten(t.pieces)|, lim)
  }

  predicate AllOk(ts: seq<Traced>, lim: Limits) {
    forall i :: 0 <= i < |ts| ==> EventOk(ts[i], lim)
  }

  lemma LineEmits(line: Bytes, lim: Limits)
    ensures match ParseLine(line, lim)
            case Accept(Emit(ev)) => !ev.Publish?
            case _ => true
  {
  }

  lemma LineStepOk(src: Bytes, lim: Limits)
    ensures match LineStep(src, lim)
            case Advance(events, st, _) => AllOk(events, lim) && StateOk(st, lim)
            case Halt(o) => AllOk(o.events, lim) && StateOk(o.state, lim)
  {
    var at := FindCrlf(src);
    if at.Some? {
      LineDeclares(src[..at.value], lim);
      LineEmits(src[..at.value], lim);
    }
  }

  lemma StepOk(st: State, src: Bytes, lim: Limits)
    requires ValidState(st) && StateOk(st, lim)
    ensures match Step(st, src, lim)
            case Advance(events, st', _) => AllOk(events, lim) && StateOk(st', lim)
            case Halt(o) => AllOk(o.events, lim) && StateOk(o.state, lim)
  {
    if st.AtLine? {
      LineStepOk(src, lim);
    }
  }

  lemma {:induction false} FeedOk(st: State, src: Bytes, lim: Limits)
    requires ValidState(st) && StateOk(st, lim)
    ensures AllOk(Feed(st, src, lim).events, lim) && StateOk(Feed(st, src, lim).state, lim)
    decreases |src|
  {
    StepOk(st, src, lim);
    var s := Step(st, src, lim);
    if s.Advance? {
      FeedOk(s.state, s.rest, lim);
    }
  }

  lemma {:induction false} RunOk(st: State, buf: Bytes, chunks: seq<Bytes>, lim: Limits)
    requires ValidState(st) && StateOk(st, lim)
    ensures AllOk(Run(st, buf, chunks, lim).events, lim)
    decreases |chunks|
  {
    if chunks != [] {
      FeedOk(st, buf + chunks[0], lim);
      var o := Feed(st, buf + chunks[0], lim);
      if o.end == Waiting {
        RunOk(o.state, o.rest, chunks[1..], lim);
      }
    }
  }

  predicate Deliverable(e: Event, lim: Limits) {
    e.Publish? ==> e.hdr <= e.total == |e.body| < LIMIT && e.total <= lim.maxPayload
  }

  /** Every publish, from any bytes cut anywhere, under any limits, is one the frame builder
      takes: headers no longer than the body, and a body within the limit and below a thousand
      million bytes. */
  lemma EveryPublishFits(chunks: seq<Bytes>, lim: Limits)
    ensures var events := Actuals(Run(AtLine, [], chunks, lim).events);
            forall i :: 0 <= i < |events| ==> Deliverable(events[i], lim)
  {
    var ts := Run(AtLine, [], chunks, lim).events;
    RunOk(AtLine, [], chunks, lim);
    forall i | 0 <= i < |ts|
      ensures Deliverable(Actual(ts[i]), lim)
    {
      assert EventOk(ts[i], lim);
      if ts[i].Pieced? {
        AssembledOrder(ts[i].pieces);
      }
    }
  }

  /** A subject may begin with a line feed: only a pair ends a line. */
  lemma LineFeedGetsIn(lim: Limits)
    ensures ParseLine([80, 85, 66, SP, LF, SP, 48], lim) == Accept(AwaitBody([LF], None, 0, 0, false))
  {
    var line: Bytes := [80, 85, 66, SP, LF, SP, 48];
    TokenLenIs(line, 3);
    assert line[3..] == [SP, LF, SP, 48] && line[..3] == PUB;
    TwoFields();
    assert Value([48]) == 0 by { assert [48 as byte][..0] == []; }
  }

  lemma TwoFields()
    ensures Fields([SP, LF, SP, 48]) == [[LF], [48]]
  {
    var a: Bytes, b: Bytes, c: Bytes := [LF, SP, 48], [SP, 48], [48];
    assert [SP, LF, SP, 48][1..] == a && a[1..] == b && b[1..] == c && c[1..] == [];
    TokenLenIs(a, 1);
    TokenLenIs(c, 1);
    assert a[..1] == [LF] && c[..1] == c;
    assert Fields(c) == [c] + Fields([]);
    assert Fields(b) == Fields(c);
    assert Fields(a) == [[LF]] + Fields(b);
  }
}
