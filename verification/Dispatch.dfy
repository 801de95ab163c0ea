/** What a connection acts on. It parses a whole read before it acts on any of it, and when a
    read fails it acts on nothing of that read: where the reads cut a bad stream decides how
    much of it is acted on, and nothing else. */
module Dispatch {
  import opened ByteStrings
  import opened Lines
  import opened Parser
  import opened Cuts

  /** The outcomes of the reads of a connection, up to the first that ends it. */
  function Outcomes(st: State, buf: Bytes, chunks: seq<Bytes>, lim: Limits): seq<Outcome>
    requires ValidState(st)
    decreases |chunks|
  {
    if chunks == [] then [] else
    var o := Feed(st, buf + chunks[0], lim);
    [o] + if o.end == Waiting then Outcomes(o.state, o.rest, chunks[1..], lim) else []
  }

  function EventsOf(os: seq<Outcome>): seq<Traced> {
    if os == [] then [] else os[0].events + EventsOf(os[1..])
  }

  function LastEnd(os: seq<Outcome>): End {
    if os == [] then Waiting else os[|os| - 1].end
  }

  /** How many of the reads are acted on: all but one that fails. */
  function Kept(os: seq<Outcome>): (k: nat)
    ensures k <= |os|
  {
    if LastEnd(os).Failed? then |os| - 1 else |os|
  }

  /** What a connection acts on, bodies in wire order. */
  function ActedOn(chunks: seq<Bytes>, lim: Limits): seq<Event> {
    var os := Outcomes(AtLine, [], chunks, lim);
    Intendeds(EventsOf(os[..Kept(os)]))
  }

  /** The events parsed in the read that fails, which are thrown away. */
  function LeftUndone(chunks: seq<Bytes>, lim: Limits): seq<Event> {
    var os := Outcomes(AtLine, [], chunks, lim);
    Intendeds(EventsOf(os[Kept(os)..]))
  }

  /** How many reads are acted on. */
  function GoodReads(chunks: seq<Bytes>, lim: Limits): nat {
    Kept(Outcomes(AtLine, [], chunks, lim))
  }

  /** No failure of the parser is of the kind that is said and kept: a read that fails is the
      last one. */
  lemma {:induction false} FailureCloses(st: State, src: Bytes, lim: Limits)
    requires ValidState(st)
    ensures var o := Feed(st, src, lim); o.end.Failed? ==> !o.end.error.Soft?
    decreases |src|
  {
    var s := Step(st, src, lim);
    if s.Advance? {
      FailureCloses(s.state, s.rest, lim);
    } else if st.AtLine? && FindCrlf(src).Some? {
      LineNeverSoft(src[..FindCrlf(src).value], lim);
    }
  }

  lemma LineNeverSoft(line: Bytes, lim: Limits)
    ensures var r := ParseLine(line, lim); r.Reject? ==> !r.error.Soft?
  {
  }

  lemma {:induction false} EventsSplit(os: seq<Outcome>, k: nat)
    requires k <= |os|
    ensures EventsOf(os) == EventsOf(os[..k]) + EventsOf(os[k..])
  {
    if k == 0 {
      assert os[..0] == [] && os[0..] == os;
    } else {
      EventsSplit(os[1..], k - 1);
      assert os[..k][1..] == os[1..][..k - 1] && os[k..] == os[1..][k - 1..];
      Assoc(os[0].events, EventsOf(os[1..][..k - 1]), EventsOf(os[k..]));
    }
  }

  /** A run is its reads, one after another. */
  lemma {:induction false} RunIsReads(st: State, buf: Bytes, chunks: seq<Bytes>, lim: Limits)
    requires ValidState(st)
    ensures var os, o := Outcomes(st, buf, chunks, lim), Run(st, buf, chunks, lim);
            o.events == EventsOf(os) && o.end == LastEnd(os)
    decreases |chunks|
  {
    if chunks != [] {
      var o := Feed(st, buf + chunks[0], lim);
      if o.end == Waiting {
        RunIsReads(o.state, o.rest, chunks[1..], lim);
        ReadFirst(o, Outcomes(o.state, o.rest, chunks[1..], lim));
      } else {
        ReadFirst(o, []);
        assert [o] + [] == [o];
      }
    }
  }

  lemma ReadFirst(o: Outcome, os: seq<Outcome>)
    ensures EventsOf([o] + os) == o.events + EventsOf(os)
    ensures LastEnd([o] + os) == if os == [] then o.end else LastEnd(os)
  {
    assert ([o] + os)[1..] == os;
  }

  lemma {:induction false} OutcomesEnd(st: State, buf: Bytes, chunks: seq<Bytes>, lim: Limits)
    requires ValidState(st)
    ensures var os := Outcomes(st, buf, chunks, lim);
            |os| <= |chunks| && (|os| < |chunks| ==> LastEnd(os) != Waiting)
    decreases |chunks|
  {
    if chunks != [] {
      var o := Feed(st, buf + chunks[0], lim);
      if o.end == Waiting {
        OutcomesEnd(o.state, o.rest, chunks[1..], lim);
        ReadFirst(o, Outcomes(o.state, o.rest, chunks[1..], lim));
      } else {
        assert Outcomes(st, buf, chunks, lim) == [o];
      }
    }
  }

  function Up(os: seq<Outcome>, k: nat): seq<Outcome> {
    if k <= |os| then os[..k] else os
  }

  lemma UpCons(o: Outcome, os: seq<Outcome>, k: nat)
    requires k > 0
    ensures Up([o] + os, k) == [o] + Up(os, k - 1)
  {
  }

  lemma TakeCons<T>(xs: seq<T>, k: nat)
    requires 0 < k <= |xs|
    ensures xs[..k] != [] && xs[..k][0] == xs[0] && xs[..k][1..] == xs[1..][..k - 1]
  {
  }

  /** Fewer reads have fewer outcomes, and the same. */
  lemma {:induction false} OutcomesOfFirst(st: State, buf: Bytes, chunks: seq<Bytes>, k: nat, lim: Limits)
    requires ValidState(st) && k <= |chunks|
    ensures Outcomes(st, buf, chunks[..k], lim) == Up(Outcomes(st, buf, chunks, lim), k)
    decreases |chunks|
  {
    if k > 0 {
      TakeCons(chunks, k);
      var o := Feed(st, buf + chunks[0], lim);
      if o.end == Waiting {
        OutcomesOfFirst(o.state, o.rest, chunks[1..], k - 1, lim);
        UpCons(o, Outcomes(o.state, o.rest, chunks[1..], lim), k);
      } else {
        UpCons(o, [], k);
      }
    }
  }

  /** However a stream is cut, what is acted on and then what is thrown away are the events of
      the stream whole; and nothing is thrown away of a stream that does not fail. */
  lemma ActsOnPrefix(chunks: seq<Bytes>, lim: Limits)
    ensures ActedOn(chunks, lim) + LeftUndone(chunks, lim) == Intendeds(Feed(AtLine, Flatten(chunks), lim).events)
    ensures !Run(AtLine, [], chunks, lim).end.Failed? ==> LeftUndone(chunks, lim) == []
  {
    var os := Outcomes(AtLine, [], chunks, lim);
    RunIsReads(AtLine, [], chunks, lim);
    EventsSplit(os, Kept(os));
    IntendedsAppend(EventsOf(os[..Kept(os)]), EventsOf(os[Kept(os)..]));
    SameEvents(chunks, lim);
  }

  /** In one read it is all or nothing. */
  lemma OneRead(whole: Bytes, lim: Limits)
    ensures var o := Feed(AtLine, whole, lim);
            ActedOn([whole], lim) == if o.end.Failed? then [] else Intendeds(o.events)
  {
    var none: Bytes := [];
    assert none + whole == whole && [whole][1..] == [];
    var o := Feed(AtLine, whole, lim);
    assert Outcomes(AtLine, [], [whole], lim) == [o];
    LoneOutcome(o);
  }

  lemma LoneOutcome(o: Outcome)
    ensures EventsOf([o][..Kept([o])]) == if o.end.Failed? then [] else o.events
  {
    ReadFirst(o, []);
    assert [o] + [] == [o] && [o][..1] == [o];
  }

  /** A stream that does not fail whole does not fail cut. */
  lemma SameFailure(chunks: seq<Bytes>, lim: Limits)
    ensures Run(AtLine, [], chunks, lim).end.Failed? <==> Feed(AtLine, Flatten(chunks), lim).end.Failed?
  {
    if lim.maxControlLine >= 1 {
      LimitedCuts(chunks, lim);
    } else {
      FirstReadDecides(chunks, lim);
      EmptyLimit(FirstRead(chunks), lim);
      EmptyLimit(Flatten(chunks), lim);
    }
  }

  lemma SameClosing(chunks: seq<Bytes>, lim: Limits)
    ensures Run(AtLine, [], chunks, lim).end == Closing <==> Feed(AtLine, Flatten(chunks), lim).end == Closing
  {
    if lim.maxControlLine >= 1 {
      LimitedCuts(chunks, lim);
    } else {
      FirstReadDecides(chunks, lim);
      EmptyLimit(FirstRead(chunks), lim);
      EmptyLimit(Flatten(chunks), lim);
    }
  }

  /** What a connection acts on is decided by the bytes of the reads it acts on, however they
      were cut: it is the events of those bytes in one read. They are the reads up to the
      first with which the bytes so far, in one read, fail, or that closes the connection. */
  lemma ActsOnGoodReads(chunks: seq<Bytes>, lim: Limits)
    ensures var k := GoodReads(chunks, lim);
            && k <= |chunks|
            && var good := Feed(AtLine, Flatten(chunks[..k]), lim);
               && ActedOn(chunks, lim) == Intendeds(good.events) && !good.end.Failed?
               && (k < |chunks| ==> good.end == Closing || Feed(AtLine, Flatten(chunks[..k + 1]), lim).end.Failed?)
  {
    GoodRuns(chunks, lim);
    var k := GoodReads(chunks, lim);
    SameEvents(chunks[..k], lim);
    SameFailure(chunks[..k], lim);
    SameClosing(chunks[..k], lim);
    if k < |chunks| {
      SameFailure(chunks[..k + 1], lim);
    }
  }

  lemma GoodRuns(chunks: seq<Bytes>, lim: Limits)
    ensures var os := Outcomes(AtLine, [], chunks, lim);
            var k := Kept(os);
            && k <= |chunks|
            && var good := Run(AtLine, [], chunks[..k], lim);
               && good.events == EventsOf(os[..k]) && !good.end.Failed?
               && (k < |chunks| ==> good.end == Closing || Run(AtLine, [], chunks[..k + 1], lim).end.Failed?)
  {
    var os := Outcomes(AtLine, [], chunks, lim);
    var k := Kept(os);
    OutcomesEnd(AtLine, [], chunks, lim);
    OutcomesOfFirst(AtLine, [], chunks, k, lim);
    RunIsReads(AtLine, [], chunks[..k], lim);
    AllButLastWait(AtLine, [], chunks, lim);
    if k < |os| {
      OutcomesOfFirst(AtLine, [], chunks, k + 1, lim);
      RunIsReads(AtLine, [], chunks[..k + 1], lim);
      assert os[..k + 1] == os;
    } else {
      assert os[..k] == os;
    }
  }

  predicate AllWaited(os: seq<Outcome>) {
    forall i :: 0 <= i < |os| - 1 ==> os[i].end == Waiting
  }

  lemma WaitedCons(o: Outcome, os: seq<Outcome>)
    requires AllWaited(os) && (os != [] ==> o.end == Waiting)
    ensures AllWaited([o] + os)
  {
    var all := [o] + os;
    assert forall i :: 0 < i < |all| ==> all[i] == os[i - 1];
  }

  /** Only the last read can end a connection. */
  lemma {:induction false} AllButLastWait(st: State, buf: Bytes, chunks: seq<Bytes>, lim: Limits)
    requires ValidState(st)
    ensures AllWaited(Outcomes(st, buf, chunks, lim))
    decreases |chunks|
  {
    if chunks != [] {
      var o := Feed(st, buf + chunks[0], lim);
      if o.end == Waiting {
        AllButLastWait(o.state, o.rest, chunks[1..], lim);
        WaitedCons(o, Outcomes(o.state, o.rest, chunks[1..], lim));
      } else {
        WaitedCons(o, []);
      }
    }
  }

  /** What is acted on of a stream in one read is a prefix of what is acted on of any cut of
      it. They are the same if and only if the stream does not fail, or the bytes before the
      read that fails hold no event. */
  lemma WholeActsOnLeast(chunks: seq<Bytes>, lim: Limits)
    ensures var k, once := GoodReads(chunks, lim), ActedOn([Flatten(chunks)], lim);
            && k <= |chunks| && once <= ActedOn(chunks, lim)
            && (once == ActedOn(chunks, lim)
                <==> !Feed(AtLine, Flatten(chunks), lim).end.Failed? || Feed(AtLine, Flatten(chunks[..k]), lim).events == [])
  {
    OneRead(Flatten(chunks), lim);
    ActsOnPrefix(chunks, lim);
    ActsOnGoodReads(chunks, lim);
    var o := Feed(AtLine, Flatten(chunks), lim);
    if !o.end.Failed? {
      SameFailure(chunks, lim);
      assert ActedOn(chunks, lim) + [] == ActedOn(chunks, lim);
    }
  }

  /** Of two cuts of one stream, one acts on a prefix of what the other acts on. */
  lemma CutsAreNested(a: seq<Bytes>, b: seq<Bytes>, lim: Limits)
    requires Flatten(a) == Flatten(b)
    ensures ActedOn(a, lim) <= ActedOn(b, lim) || ActedOn(b, lim) <= ActedOn(a, lim)
  {
    ActsOnPrefix(a, lim);
    ActsOnPrefix(b, lim);
    var all := Intendeds(Feed(AtLine, Flatten(a), lim).events);
    assert ActedOn(a, lim) == all[..|ActedOn(a, lim)|] && ActedOn(b, lim) == all[..|ActedOn(b, lim)|];
  }

  /** A PING, and then a bad line: in two reads the PING is acted on, in one it is not. */
  lemma PingThenRubbish(lim: Limits)
    requires lim.maxControlLine >= 4
    ensures ActedOn([PING + CRLF, [LF]], lim) == [Ping] && ActedOn([PING + CRLF + [LF]], lim) == []
  {
    var ping := PING + CRLF;
    assert ping + [] == ping;
    PingRead([], lim);
    PingRead([LF], lim);
    BadRead(lim);
    OneRead(ping + [LF], lim);
    TwoActs(ping, [LF], lim);
    assert Intendeds([Plain(Ping)]) == [Ping];
  }

  lemma TwoActs(x: Bytes, y: Bytes, lim: Limits)
    requires Feed(AtLine, x, lim) == Outcome([Plain(Ping)], Waiting, AtLine, []) && Feed(AtLine, y, lim).end.Failed?
    ensures ActedOn([x, y], lim) == Intendeds([Plain(Ping)])
  {
    var none: Bytes := [];
    assert none + x == x && none + y == y && [x, y][1..] == [y] && [y][1..] == [];
    var o, bad := Feed(AtLine, x, lim), Feed(AtLine, y, lim);
    assert Outcomes(AtLine, [], [y], lim) == [bad];
    assert Outcomes(AtLine, [], [x, y], lim) == [o, bad];
    ReadFirst(o, []);
    assert [o, bad][..1] == [o] + [];
  }

  lemma BadRead(lim: Limits)
    ensures Feed(AtLine, [LF], lim) == Outcome([], Failed(Fatal(UNKNOWN_OP)), AtLine, [LF])
    ensures Feed(AtLine, [], lim) == Outcome([], Waiting, AtLine, [])
  {
  }

  lemma PingRead(rest: Bytes, lim: Limits)
    requires lim.maxControlLine >= 4
    ensures Feed(AtLine, PING + CRLF + rest, lim) == Prefixed([Plain(Ping)], Feed(AtLine, rest, lim))
  {
    var src := PING + CRLF + rest;
    assert src[..4] == PING && src[4] == CR && src[5] == LF && src[6..] == rest;
    assert forall i :: 0 <= i < 4 ==> src[i] == PING[i];
    FindCrlfIs(src, 4);
    assert Starts(src[..4], PING);
    assert Step(AtLine, src, lim) == Advance([Plain(Ping)], AtLine, rest);
  }
}
