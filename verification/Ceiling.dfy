/** The memory ceiling in terms of the hard mark: what a queue accounts for and what the
    arena's layout pins, put together. */
module Ceiling {
  import opened ByteStrings
  import opened Decimal
  import opened Outbox
  import opened OutboxOrder
  import R = Retention

  // ------------------------------------------------------------- bytes come and go ---

  /** The bytes the writer has put behind it in a run. */
  function Written(run: seq<Action>): nat {
    if run == [] then 0 else (if run[0].Write? then run[0].n else 0) + Written(run[1..])
  }

  /** Everything accepted was written, is held by the writer, or is queued. */
  predicate Conserved(s: State, w: nat) {
    Size(s.log) == w + s.held + Size(s.queue)
  }

  lemma ConservedStep(s: State, a: Action, w: nat)
    requires Conserved(s, w) && Enabled(s, a)
    ensures Conserved(Next(s, a), w + if a.Write? then a.n else 0)
  {
    QueueStep(s, a);
    HeldStep(s, a);
    if a.Settle? || a.ReaderSettle? {
      SizeSnoc(s.log, Gained(s, a));
      SizeSnoc(s.queue, Gained(s, a));
    }
  }

  lemma HeldStep(s: State, a: Action)
    requires Enabled(s, a)
    ensures Next(s, a).held == s.held + (if a == Receive then |s.queue[0].text| else 0) - (if a.Write? then a.n else 0)
  {
  }

  lemma {:induction false} ConservedRun(s: State, run: seq<Action>, w: nat)
    requires Conserved(s, w) && IsRun(s, run)
    ensures Conserved(After(s, run), w + Written(run))
    decreases |run|
  {
    if run != [] {
      ConservedStep(s, run[0], w);
      ConservedRun(Next(s, run[0]), run[1..], w + if run[0].Write? then run[0].n else 0);
    }
  }

  // ------------------------------------------------------------ what is still needed ---

  /** How many frames lie within the first `d` bytes. */
  function Done(log: seq<Frame>, d: nat): (k: nat)
    ensures k <= |log|
  {
    if log == [] || |log[0].text| > d then 0 else 1 + Done(log[1..], d - |log[0].text|)
  }

  /** The frames that do not are the bytes after those, and part of one frame more. */
  lemma {:induction false} DoneIs(log: seq<Frame>, d: nat)
    requires d <= Size(log)
    ensures var k := Done(log, d);
            && (k == |log| ==> d == Size(log))
            && (k < |log| ==> Size(log[k..]) <= Size(log) - d + |log[k].text|)
  {
    if log != [] {
      if |log[0].text| <= d {
        var k := Done(log[1..], d - |log[0].text|);
        DoneIs(log[1..], d - |log[0].text|);
        assert log[1..][k..] == log[k + 1..];
      } else {
        assert log[0..] == log;
      }
    }
  }

  /** The frames built in the arena: the deliveries. Control lines have buffers of their own. */
  function Deliveries(log: seq<Frame>): seq<nat> {
    if log == [] then [] else (if log[0].from.FromPublisher? then [|log[0].text|] else []) + Deliveries(log[1..])
  }

  lemma {:induction false} DeliveriesSplit(log: seq<Frame>, k: nat)
    requires k <= |log|
    ensures Deliveries(log) == Deliveries(log[..k]) + Deliveries(log[k..])
  {
    if k == 0 {
      assert log[..0] == [] && log[0..] == log;
    } else {
      DeliveriesSplit(log[1..], k - 1);
      assert log[..k][1..] == log[1..][..k - 1] && log[k..] == log[1..][k - 1..];
      Assoc(if log[0].from.FromPublisher? then [|log[0].text|] else [], Deliveries(log[1..][..k - 1]), Deliveries(log[k..]));
    }
  }

  lemma {:induction false} DeliveriesBelow(log: seq<Frame>)
    ensures R.Sum(Deliveries(log)) <= Size(log)
  {
    if log != [] {
      DeliveriesBelow(log[1..]);
      assert R.Sum([|log[0].text|] + Deliveries(log[1..])) == |log[0].text| + R.Sum(Deliveries(log[1..])) by {
        assert ([|log[0].text|] + Deliveries(log[1..]))[1..] == Deliveries(log[1..]);
      }
      assert [] + Deliveries(log[1..]) == Deliveries(log[1..]);
    }
  }

  // -------------------------------------------------------------------- the ceiling ---

  /** The arena was asked for these deliveries and no others. */
  predicate AskedFor(asks: seq<R.Request>, lens: seq<nat>) {
    |asks| == |lens| && forall i :: 0 <= i < |asks| ==> asks[i].len == lens[i] && R.Modest(asks[i])
  }

  lemma {:induction false} LayoutUsed(asks: seq<R.Request>, lens: seq<nat>)
    requires AskedFor(asks, lens)
    ensures R.Used(R.Layout(asks)) == lens
  {
    if asks != [] {
      var n := |asks| - 1;
      LayoutUsed(asks[..n], lens[..n]);
      PlaceUsed(R.Layout(asks[..n]), asks[n]);
    }
  }

  lemma PlaceUsed(slabs: seq<R.Slab>, r: R.Request)
    ensures R.Used(R.Place(slabs, r.need, r.len)) == R.Used(slabs) + [r.len]
  {
    var room := R.Opened(slabs, r.need);
    if room != slabs {
      var s := R.Slab(R.Max(r.need, R.CHUNK), []);
      R.HomeOpened(slabs, s, 0);
      assert R.Used(slabs) + s.used == R.Used(slabs);
    }
    R.HomeFilled(room, r.len, 0);
  }

  /** The chunks the deliveries from the m-th on lie in, with `bytes` of them at most. */
  predicate AtMostTwice(slabs: seq<R.Slab>, m: nat, bytes: nat) {
    var j := R.Home(slabs, m);
    && j <= |slabs|
    && var n := |slabs| - j;
       && R.Pinned(slabs[j..]) <= 2 * bytes + 2 * R.CHUNK + R.SLACK * n
       && (n - 2) * (R.CHUNK - R.SLACK) <= 2 * bytes
  }

  lemma PinsAtMost(asks: seq<R.Request>, lens: seq<nat>, m: nat, bytes: nat)
    requires AskedFor(asks, lens) && m < |lens| && R.Sum(lens[m..]) <= bytes
    ensures AtMostTwice(R.Layout(asks), m, bytes)
  {
    LayoutUsed(asks, lens);
    R.AllRetained(asks);
    PinnedSuffix(R.Layout(asks), m, bytes);
  }

  lemma PinnedSuffix(slabs: seq<R.Slab>, m: nat, bytes: nat)
    requires R.AllPin(slabs) && m < |R.Used(slabs)| && R.Sum(R.Used(slabs)[m..]) <= bytes
    ensures AtMostTwice(slabs, m, bytes)
  {
    R.SuffixIsLive(slabs, m);
    assert R.PinsTwice(slabs, R.Home(slabs, m), R.Spot(slabs, m));
  }

  /** Of these frames `w` bytes are written: the deliveries not yet written whole lie in chunks
      of at most twice the hard mark and the frame being written, two chunks, and 41 bytes a
      chunk. */
  predicate Ceiled(log: seq<Frame>, w: nat, hard: nat, asks: seq<R.Request>) {
    var k := Done(log, w);
    var m := |Deliveries(log[..k])|;
    if k == |log| then m == |asks| else m < |asks| ==> AtMostTwice(R.Layout(asks), m, hard + |log[k].text|)
  }

  lemma CeilingOf(log: seq<Frame>, w: nat, hard: nat, asks: seq<R.Request>)
    requires w <= Size(log) <= w + hard && AskedFor(asks, Deliveries(log))
    ensures Ceiled(log, w, hard, asks)
  {
    var k := Done(log, w);
    if k == |log| {
      assert log[..k] == log;
    } else {
      RestWithin(log, w, hard);
      CeilingAt(log, k, hard + |log[k].text|, asks);
    }
  }

  lemma RestWithin(log: seq<Frame>, w: nat, hard: nat)
    requires w <= Size(log) <= w + hard && Done(log, w) < |log|
    ensures var k := Done(log, w); Size(log[k..]) <= hard + |log[k].text|
  {
    DoneIs(log, w);
  }

  lemma CeilingAt(log: seq<Frame>, k: nat, bytes: nat, asks: seq<R.Request>)
    requires k <= |log| && Size(log[k..]) <= bytes && AskedFor(asks, Deliveries(log))
    ensures var m := |Deliveries(log[..k])|; m < |asks| ==> AtMostTwice(R.Layout(asks), m, bytes)
  {
    RestBelow(log, k);
    var m := |Deliveries(log[..k])|;
    if m < |asks| {
      PinsAtMost(asks, Deliveries(log), m, bytes);
    }
  }

  lemma RestBelow(log: seq<Frame>, k: nat)
    requires k <= |log|
    ensures var m := |Deliveries(log[..k])|;
            m <= |Deliveries(log)| && R.Sum(Deliveries(log)[m..]) <= Size(log[k..])
  {
    DeliveriesSplit(log, k);
    DeliveriesBelow(log[k..]);
    var m := |Deliveries(log[..k])|;
    assert Deliveries(log)[m..] == Deliveries(log[k..]);
  }

  /** Over every run, while the queue lives, with all deliveries accepted so far laid down in
      the arena. */
  lemma MemoryCeiling(hard: nat, n: nat, run: seq<Action>, asks: seq<R.Request>)
    requires hard < U64 && IsRun(Init(hard, n), run) && !Gone(After(Init(hard, n), run))
    requires AskedFor(asks, Deliveries(After(Init(hard, n), run).log))
    ensures Ceiled(After(Init(hard, n), run).log, Written(run), hard, asks)
  {
    UnwrittenWithin(hard, n, run);
    CeilingOf(After(Init(hard, n), run).log, Written(run), hard, asks);
  }

  lemma UnwrittenWithin(hard: nat, n: nat, run: seq<Action>)
    requires hard < U64 && IsRun(Init(hard, n), run) && !Gone(After(Init(hard, n), run))
    ensures Written(run) <= Size(After(Init(hard, n), run).log) <= Written(run) + hard
  {
    Accounting(hard, n, run);
    ConservedRun(Init(hard, n), run, 0);
    HardStays(Init(hard, n), run);
  }

  lemma {:induction false} HardStays(s: State, run: seq<Action>)
    requires IsRun(s, run)
    ensures After(s, run).hard == s.hard
    decreases |run|
  {
    if run != [] {
      HardStays(Next(s, run[0]), run[1..]);
    }
  }
}
