/** From the queue to the wire: the outbox and the writer as one step system. What the writer
    gathers is what it receives from the queue, and what the socket takes is what is drained. */
module EndToEnd {
  import opened ByteStrings
  import Q = Outbox
  import opened OutboxOrder
  import W = Writer

  /** `batch` is what has been received of the batch being gathered. */
  datatype State = State(q: Q.State, w: W.State, batch: seq<Bytes>)

  function Init(hard: nat, n: nat): State {
    State(Q.Init(hard, n), W.Start, [])
  }

  datatype Step =
    | Other(a: Q.Action)      // publishers, reader, close, and the parts of a drain
    | Receive                 // one more frame for the batch
    | Start                   // the batch is complete
    | Attempt(x: W.Attempt)   // one write call, and the drain it leads to
    | Leave

  /** The bytes a write call leads the writer to drain: those taken, or, if it gives up,
      all it holds. */
  function Drains(s: State, x: W.Attempt): Option<nat> {
    match x
    case Took(n) => Some(if n == 0 then s.q.held else n)
    case Broken => Some(s.q.held)
    case _ => None
  }

  predicate Enabled(s: State, step: Step) {
    match step
    case Other(a) => Q.Enabled(s.q, a) && !a.Receive? && !a.Write? && !a.WriterLeaves?
    case Receive => Q.Enabled(s.q, Q.Receive) && s.w.owed == 0 && !s.w.stopped
    case Start => s.q.writer == Q.Working && s.batch != [] && W.Enabled(s.w, W.Gather(s.batch))
    case Attempt(x) =>
      && s.q.writer == Q.Working && s.batch == [] && W.Enabled(s.w, W.Try(x))
      && (Drains(s, x).Some? ==> Q.Enabled(s.q, Q.Write(Drains(s, x).value)))
    case Leave => Q.Enabled(s.q, Q.WriterLeaves) && s.batch == []
  }

  /** What a step is to the queue, if anything. */
  function QueueSide(s: State, step: Step): seq<Q.Action> {
    match step
    case Other(a) => [a]
    case Receive => [Q.Receive]
    case Start => []
    case Attempt(x) => if Drains(s, x).Some? then [Q.Write(Drains(s, x).value)] else []
    case Leave => [Q.WriterLeaves]
  }

  /** What a step is to the writer, if anything. */
  function WriterSide(s: State, step: Step): seq<W.Action> {
    match step
    case Start => [W.Gather(s.batch)]
    case Attempt(x) => [W.Try(x)]
    case _ => []
  }

  function Next(s: State, step: Step): State
    requires Enabled(s, step)
  {
    match step
    case Other(a) => s.(q := Q.Next(s.q, a))
    case Receive => s.(q := Q.Next(s.q, Q.Receive), batch := s.batch + [s.q.queue[0].text])
    case Start => s.(w := W.Next(s.w, W.Gather(s.batch)), batch := [])
    case Attempt(x) =>
      s.(w := W.Next(s.w, W.Try(x)),
         q := if Drains(s, x).Some? then Q.Next(s.q, Q.Write(Drains(s, x).value)) else s.q)
    case Leave => s.(q := Q.Next(s.q, Q.WriterLeaves))
  }

  predicate IsRun(s: State, run: seq<Step>)
    decreases |run|
  {
    run == [] || (Enabled(s, run[0]) && IsRun(Next(s, run[0]), run[1..]))
  }

  function After(s: State, run: seq<Step>): State
    requires IsRun(s, run)
    decreases |run|
  {
    if run == [] then s else After(Next(s, run[0]), run[1..])
  }

  function QueueRun(s: State, run: seq<Step>): seq<Q.Action>
    requires IsRun(s, run)
    decreases |run|
  {
    if run == [] then [] else QueueSide(s, run[0]) + QueueRun(Next(s, run[0]), run[1..])
  }

  function WriterRun(s: State, run: seq<Step>): seq<W.Action>
    requires IsRun(s, run)
    decreases |run|
  {
    if run == [] then [] else WriterSide(s, run[0]) + WriterRun(Next(s, run[0]), run[1..])
  }

  // ---------------------------------------------------------------------- two sides ---

  /** Seen from the queue, a run is a run of the queue. */
  lemma {:induction false} QueueSees(s: State, run: seq<Step>)
    requires IsRun(s, run)
    ensures Q.IsRun(s.q, QueueRun(s, run)) && Q.After(s.q, QueueRun(s, run)) == After(s, run).q
    decreases |run|
  {
    if run != [] {
      var s' := Next(s, run[0]);
      QueueSees(s', run[1..]);
      var side, rest := QueueSide(s, run[0]), QueueRun(s', run[1..]);
      if side == [] {
        assert side + rest == rest;
      } else {
        assert (side + rest)[0] == side[0] && (side + rest)[1..] == rest;
      }
    }
  }

  /** Seen from the writer, a run is a run of the writer. */
  lemma {:induction false} WriterSees(s: State, run: seq<Step>)
    requires IsRun(s, run)
    ensures W.IsRun(s.w, WriterRun(s, run)) && W.After(s.w, WriterRun(s, run)) == After(s, run).w
    decreases |run|
  {
    if run != [] {
      var s' := Next(s, run[0]);
      WriterSees(s', run[1..]);
      var side, rest := WriterSide(s, run[0]), WriterRun(s', run[1..]);
      if side == [] {
        assert side + rest == rest;
      } else {
        assert (side + rest)[0] == side[0] && (side + rest)[1..] == rest;
      }
    }
  }

  // -------------------------------------------------------------------- one account ---

  /** The bytes of frames, end to end. */
  function Flat(fs: seq<Q.Frame>): Bytes {
    if fs == [] then [] else fs[0].text + Flat(fs[1..])
  }

  lemma {:induction false} FlatSnoc(fs: seq<Q.Frame>, f: Q.Frame)
    ensures Flat(fs + [f]) == Flat(fs) + f.text
  {
    if fs == [] {
      assert fs + [f] == [f] && [f][1..] == [];
    } else {
      assert (fs + [f])[1..] == fs[1..] + [f];
      FlatSnoc(fs[1..], f);
      Assoc(fs[0].text, Flat(fs[1..]), f.text);
    }
  }

  /** Everything accepted was handed to the writer's batches, or is in the batch being
      gathered, or is queued. */
  predicate HandedOn(s: State) {
    Flat(s.q.log) == s.w.got + Flatten(s.batch) + Flat(s.q.queue)
  }

  /** What the queue counts as held by the writer is what the writer has and owes; a writer that
      gave up has put back all it held. */
  predicate SameCount(s: State) {
    && (s.batch != [] ==> s.w.owed == 0)
    && s.q.held == if s.w.stopped then 0 else |Flatten(s.batch)| + s.w.owed
  }

  predicate Inv(s: State) { W.Inv(s.w) && HandedOn(s) && SameCount(s) }

  lemma HandedGrows(s: State, q: Q.State, f: Q.Frame)
    requires HandedOn(s) && q.log == s.q.log + [f] && q.queue == s.q.queue + [f]
    ensures HandedOn(s.(q := q))
  {
    FlatSnoc(s.q.log, f);
    FlatSnoc(s.q.queue, f);
    Assoc(s.w.got + Flatten(s.batch), Flat(s.q.queue), f.text);
  }

  lemma OtherStep(s: State, a: Q.Action)
    requires Inv(s) && Enabled(s, Other(a))
    ensures Inv(Next(s, Other(a)))
  {
    QueueStep(s.q, a);
    HeldStays(s.q, a);
    if Q.Next(s.q, a).log != s.q.log {
      HandedGrows(s, Q.Next(s.q, a), Gained(s.q, a));
    }
  }

  lemma HeldStays(q: Q.State, a: Q.Action)
    requires Q.Enabled(q, a) && !a.Receive? && !a.Write?
    ensures Q.Next(q, a).held == q.held
  {
  }

  lemma ReceiveStep(s: State)
    requires Inv(s) && Enabled(s, Receive)
    ensures Inv(Next(s, Receive))
  {
    var f := s.q.queue[0];
    FlattenSnoc(s.batch, f.text);
    Assoc(s.w.got, Flatten(s.batch), f.text);
    Assoc(s.w.got + Flatten(s.batch), f.text, Flat(s.q.queue[1..]));
  }

  lemma StartStep(s: State)
    requires Inv(s) && Enabled(s, Start)
    ensures Inv(Next(s, Start))
  {
    W.InvStep(s.w, W.Gather(s.batch));
    assert s.w.got + Flatten(s.batch) + [] == s.w.got + Flatten(s.batch);
  }

  /** The socket takes no more than is owed, so the drain never takes more than is held. */
  lemma AttemptStep(s: State, x: W.Attempt)
    requires Inv(s) && s.q.writer == Q.Working && s.batch == [] && W.Enabled(s.w, W.Try(x))
    ensures Enabled(s, Attempt(x)) && Inv(Next(s, Attempt(x)))
  {
    W.InvStep(s.w, W.Try(x));
    assert |Flatten(s.w.parts)| <= s.w.owed;
    assert s.q.held == s.w.owed;
  }

  lemma InvStep(s: State, step: Step)
    requires Inv(s) && Enabled(s, step)
    ensures Inv(Next(s, step))
  {
    match step
    case Other(a) => OtherStep(s, a);
    case Receive => ReceiveStep(s);
    case Start => StartStep(s);
    case Attempt(x) => AttemptStep(s, x);
    case Leave =>
  }

  lemma {:induction false} InvRun(s: State, run: seq<Step>)
    requires Inv(s) && IsRun(s, run)
    ensures Inv(After(s, run))
    decreases |run|
  {
    if run != [] {
      InvStep(s, run[0]);
      InvRun(Next(s, run[0]), run[1..]);
    }
  }

  /** No write of a lone buffer was short or abandoned. */
  predicate NoMishap(s: State, run: seq<Step>)
    requires IsRun(s, run)
  {
    WriterSees(s, run);
    W.NoMishap(s.w, WriterRun(s, run))
  }

  /** The frames accepted in a run: each the one its source published under its number in
      this run, and the numbers of a source increasing. */
  predicate AsPublished(run: seq<Q.Action>, n: nat, log: seq<Q.Frame>) {
    && (forall i :: 0 <= i < |log| ==> FromRun(run, n, log[i]))
    && (forall i, j :: 0 <= i < j < |log| && log[i].from == log[j].from ==> log[i].no < log[j].no)
  }

  /** Every interleaving of publishers, reader, close and writer, and every outcome of every
      write: the frames accepted are those published, each source's in its order; bytes on
      the wire, in the writer, being gathered and queued are, end to end, the bytes accepted,
      if and only if no write of a lone buffer was short or abandoned; and then the wire is a
      prefix of the frames in queue order. */
  lemma WireFollowsPublishOrder(hard: nat, n: nat, run: seq<Step>)
    requires IsRun(Init(hard, n), run)
    ensures var s0 := Init(hard, n); var s := After(s0, run);
            && AsPublished(QueueRun(s0, run), n, s.q.log)
            && (s.w.wire + Flatten(s.w.parts) + Flatten(s.batch) + Flat(s.q.queue) == Flat(s.q.log)
                <==> NoMishap(s0, run))
            && (NoMishap(s0, run) ==> s.w.wire <= Flat(s.q.log))
  {
    var s0 := Init(hard, n);
    var s := After(s0, run);
    QueueSees(s0, run);
    WriterSees(s0, run);
    PublishOrder(hard, n, QueueRun(s0, run));
    W.WriterPreserves(WriterRun(s0, run));
    InvRun(s0, run);
    Cancel(s.w.wire + Flatten(s.w.parts), s.w.got, Flatten(s.batch), Flat(s.q.queue));
    if NoMishap(s0, run) {
      assert s.w.wire <= s.w.got <= Flat(s.q.log);
    }
  }

  lemma Cancel(a: Bytes, b: Bytes, c: Bytes, d: Bytes)
    ensures a + c + d == b + c + d <==> a == b
  {
    if a + c + d == b + c + d {
      assert (a + c + d)[..|a|] == a && (b + c + d)[..|b|] == b;
    }
  }

  /** Whatever happened, a writer that owes nothing has put all it was handed on the wire to
      the byte; with nothing gathered or queued that is all that was ever accepted. */
  lemma DoneIsDelivered(hard: nat, n: nat, run: seq<Step>)
    requires IsRun(Init(hard, n), run)
    requires var s := After(Init(hard, n), run); s.w.owed == 0 && s.batch == [] && s.q.queue == []
    ensures var s := After(Init(hard, n), run); s.w.wire == Flat(s.q.log) && NoMishap(Init(hard, n), run)
  {
    var s0 := Init(hard, n);
    WriterSees(s0, run);
    W.FinishedIsWritten(WriterRun(s0, run));
    InvRun(s0, run);
    var s := After(s0, run);
    assert s.w.got + Flatten(s.batch) + Flat(s.q.queue) == s.w.got;
  }

  /** While the writer works, what the queue counts as held is what was gathered and what is
      owed, so every outcome the socket can give is a step; once it has given up, nothing. */
  lemma NeverBlocked(hard: nat, n: nat, run: seq<Step>, x: W.Attempt)
    requires IsRun(Init(hard, n), run)
    ensures var s := After(Init(hard, n), run);
            && s.q.held == (if s.w.stopped then 0 else |Flatten(s.batch)| + s.w.owed)
            && (s.q.writer == Q.Working && s.batch == [] && W.Enabled(s.w, W.Try(x)) ==> Enabled(s, Attempt(x)))
  {
    InvRun(Init(hard, n), run);
    var s := After(Init(hard, n), run);
    if s.q.writer == Q.Working && s.batch == [] && W.Enabled(s.w, W.Try(x)) {
      AttemptStep(s, x);
    }
  }
}
