/** The writer: frames gathered into batches, batches written in as many short writes as
    the socket takes, and what of them is on the wire. */
module Writer {
  import opened ByteStrings

  const MAX_BATCH_BYTES: nat := 256 * 1024
  const MAX_BATCH_PARTS: nat := 1000

  /** `parts` are the buffers still held and `owed` the byte count the loop runs down.
      `got` is everything ever received from the queue, `wire` everything written. */
  datatype State = State(parts: seq<Bytes>, owed: nat, wire: Bytes, got: Bytes, stopped: bool)

  const Start := State([], 0, [], [], false)

  /** What one write attempt comes to: the socket takes `n` bytes, the call is interrupted
      and retried, it is abandoned for a wake-up that is no hard close, or it fails. */
  datatype Attempt = Took(n: nat) | Interrupted | Cancelled | Broken

  datatype Action = Gather(frames: seq<Bytes>) | Try(attempt: Attempt)

  /** The buffers without their first `n` bytes; nothing is left of fewer. */
  function Consumed(parts: seq<Bytes>, n: nat): seq<Bytes> {
    if n == 0 || parts == [] then parts
    else if |parts[0]| <= n then Consumed(parts[1..], n - |parts[0]|)
    else [parts[0][n..]] + parts[1..]
  }

  function NonEmpty(parts: seq<Bytes>): seq<Bytes> {
    if parts == [] then [] else (if parts[0] == [] then [] else [parts[0]]) + NonEmpty(parts[1..])
  }

  /** A thousand buffers, or 256 KiB. */
  predicate FullBatch(frames: seq<Bytes>) { |NonEmpty(frames)| >= 1000 || |Flatten(frames)| >= 262144 }

  /** The socket can take at most what it is offered. */
  predicate Enabled(s: State, a: Action) {
    && !s.stopped
    && match a
       case Gather(frames) => s.owed == 0
       case Try(attempt) => s.owed > 0 && (attempt.Took? ==> attempt.n <= |Flatten(s.parts)|)
  }

  /** A lone buffer the socket took only `n` bytes of: it is put back without them, and
      then loses as many again to `Consumed`. */
  function Tried(s: State, attempt: Attempt): (s': State)
    requires Enabled(s, Try(attempt))
    ensures s'.stopped <==> attempt == Broken || attempt == Took(0)
  {
    match attempt
    case Took(n) =>
      if n == 0 then s.(stopped := true) else
      var offered := Flatten(s.parts);
      var left := if |s.parts| == 1 then (if n < |s.parts[0]| then [s.parts[0][n..]] else []) else s.parts;
      s.(parts := Consumed(left, n), owed := if n <= s.owed then s.owed - n else 0, wire := s.wire + offered[..n])
    case Interrupted => s
    case Cancelled => if |s.parts| == 1 then s.(parts := []) else s
    case Broken => s.(stopped := true)
  }

  function Next(s: State, a: Action): State
    requires Enabled(s, a)
  {
    match a
    case Gather(frames) =>
      State(NonEmpty(frames), |Flatten(frames)|, s.wire, s.got + Flatten(frames), false)
    case Try(attempt) => Tried(s, attempt)
  }

  predicate IsRun(s: State, run: seq<Action>)
    decreases |run|
  {
    run == [] || (Enabled(s, run[0]) && IsRun(Next(s, run[0]), run[1..]))
  }

  function After(s: State, run: seq<Action>): State
    requires IsRun(s, run)
    decreases |run|
  {
    if run == [] then s else After(Next(s, run[0]), run[1..])
  }

  /** An attempt on a lone buffer that is short, or abandoned. */
  predicate Mishap(s: State, a: Action) {
    && a.Try? && |s.parts| == 1
    && (a.attempt == Cancelled || (a.attempt.Took? && 0 < a.attempt.n < |s.parts[0]|))
  }

  predicate NoMishap(s: State, run: seq<Action>)
    requires IsRun(s, run)
    decreases |run|
  {
    run == [] || (!Mishap(s, run[0]) && NoMishap(Next(s, run[0]), run[1..]))
  }

  // --------------------------------------------------------------- preservation ---

  lemma {:induction false} ConsumedDrops(parts: seq<Bytes>, n: nat)
    requires n <= |Flatten(parts)|
    ensures Flatten(Consumed(parts, n)) == Flatten(parts)[n..]
  {
    if n == 0 || parts == [] {
    } else if |parts[0]| <= n {
      ConsumedDrops(parts[1..], n - |parts[0]|);
    } else {
      var rest := [parts[0][n..]] + parts[1..];
      assert rest[1..] == parts[1..];
    }
  }

  lemma {:induction false} ConsumedShort(parts: seq<Bytes>, n: nat)
    requires n >= |Flatten(parts)|
    ensures Flatten(Consumed(parts, n)) == []
  {
    if n != 0 && parts != [] {
      ConsumedShort(parts[1..], n - |parts[0]|);
    }
  }

  /** No buffer is empty. */
  predicate Full(parts: seq<Bytes>) {
    forall i :: 0 <= i < |parts| ==> parts[i] != []
  }

  lemma {:induction false} ConsumedFull(parts: seq<Bytes>, n: nat)
    requires Full(parts)
    ensures Full(Consumed(parts, n))
  {
    if n != 0 && parts != [] && |parts[0]| <= n {
      ConsumedFull(parts[1..], n - |parts[0]|);
    }
  }

  lemma {:induction false} NonEmptySame(parts: seq<Bytes>)
    ensures Flatten(NonEmpty(parts)) == Flatten(parts)
    ensures Full(NonEmpty(parts))
  {
    if parts != [] {
      NonEmptySame(parts[1..]);
      FlattenAppend(if parts[0] == [] then [] else [parts[0]], NonEmpty(parts[1..]));
    }
  }

  /** What every step keeps. `owed` counts what was received and not written; while nothing
      was lost it is what is held, and written then held is received. Once something was
      lost less is held than owed, so the count never runs down to zero. */
  predicate Inv(s: State) {
    && Full(s.parts)
    && |s.wire| + s.owed == |s.got|
    && (Sound(s) || |Flatten(s.parts)| < s.owed)
  }

  predicate Sound(s: State) {
    s.wire + Flatten(s.parts) == s.got && |Flatten(s.parts)| == s.owed
  }

  lemma SoundExclusive(s: State)
    requires Inv(s) && |Flatten(s.parts)| < s.owed
    ensures s.wire + Flatten(s.parts) != s.got
  {
    assert |s.wire + Flatten(s.parts)| < |s.got|;
  }

  lemma LoneFlat(b: Bytes)
    ensures Flatten([b]) == b
  {
    assert [b][1..] == [];
  }

  /** A lone short write: `n` bytes go out and `2 * n` are gone. */
  lemma LoneShort(s: State, n: nat)
    requires Inv(s) && Enabled(s, Try(Took(n))) && |s.parts| == 1 && 0 < n < |s.parts[0]|
    ensures var b := s.parts[0];
            var s' := Tried(s, Took(n));
            && s'.wire == s.wire + b[..n] && s'.owed == s.owed - n
            && Flatten(s'.parts) == (if 2 * n <= |b| then b[2 * n..] else [])
            && |Flatten(s'.parts)| < s'.owed
  {
    var b := s.parts[0];
    assert s.parts == [b];
    LoneFlat(b);
    LoneFlat(b[n..]);
    if 2 * n <= |b| {
      ConsumedDrops([b[n..]], n);
      assert b[n..][n..] == b[2 * n..];
    } else {
      ConsumedShort([b[n..]], n);
    }
  }

  lemma TookStep(s: State, n: nat)
    requires Inv(s) && Enabled(s, Try(Took(n))) && !Mishap(s, Try(Took(n)))
    ensures var s' := Tried(s, Took(n)); Inv(s') && (Sound(s) <==> Sound(s'))
  {
    var s' := Tried(s, Took(n));
    var flat := Flatten(s.parts);
    if n > 0 {
      if |s.parts| == 1 {
        assert s.parts == [s.parts[0]];
        LoneFlat(s.parts[0]);
        assert s'.parts == [] && flat[..n] == flat;
      } else {
        ConsumedDrops(s.parts, n);
        ConsumedFull(s.parts, n);
        assert s.wire + flat == (s.wire + flat[..n]) + flat[n..];
      }
      if !Sound(s) {
        SoundExclusive(s);
      }
    }
  }

  lemma MishapStep(s: State, a: Action)
    requires Inv(s) && Enabled(s, a) && Mishap(s, a)
    ensures Inv(Next(s, a)) && !Sound(Next(s, a))
  {
    if a.attempt.Took? {
      LoneShort(s, a.attempt.n);
      ConsumedFull([s.parts[0][a.attempt.n..]], a.attempt.n);
    }
  }

  lemma GatherStep(s: State, frames: seq<Bytes>)
    requires Inv(s) && s.owed == 0 && !s.stopped
    ensures Sound(s) && s.wire == s.got
    ensures var s' := Next(s, Gather(frames)); Inv(s') && Sound(s')
  {
    NonEmptySame(frames);
    assert s.wire + Flatten(s.parts) == s.wire;
  }

  lemma InvStep(s: State, a: Action)
    requires Inv(s) && Enabled(s, a)
    ensures Inv(Next(s, a)) && (Sound(Next(s, a)) <==> Sound(s) && !Mishap(s, a))
  {
    match a
    case Gather(frames) => GatherStep(s, frames);
    case Try(attempt) =>
      if Mishap(s, a) {
        MishapStep(s, a);
      } else if attempt.Took? {
        TookStep(s, attempt.n);
      }
  }

  lemma {:induction false} InvRun(s: State, run: seq<Action>)
    requires Inv(s) && IsRun(s, run)
    ensures Inv(After(s, run)) && (Sound(After(s, run)) <==> Sound(s) && NoMishap(s, run))
    decreases |run|
  {
    if run != [] {
      InvStep(s, run[0]);
      InvRun(Next(s, run[0]), run[1..]);
    }
  }

  /** Over every run: bytes written followed by bytes held are the bytes received, and the
      byte count is what is held, if and only if no attempt on a lone buffer was short or
      abandoned; the wire then carries a prefix of what was received. */
  lemma WriterPreserves(run: seq<Action>)
    requires IsRun(Start, run)
    ensures var s := After(Start, run);
            && (s.wire + Flatten(s.parts) == s.got <==> NoMishap(Start, run))
            && (NoMishap(Start, run) ==> |Flatten(s.parts)| == s.owed && s.wire <= s.got)
  {
    InvRun(Start, run);
    var s := After(Start, run);
    if !Sound(s) {
      SoundExclusive(s);
    }
  }

  /** Whatever the mishaps, a batch that is finished is on the wire to the byte: the next
      batch is only gathered with everything received so far written. */
  lemma FinishedIsWritten(run: seq<Action>)
    requires IsRun(Start, run) && After(Start, run).owed == 0
    ensures var s := After(Start, run); s.wire == s.got && NoMishap(Start, run)
  {
    InvRun(Start, run);
    var s := After(Start, run);
    assert s.wire + Flatten(s.parts) == s.wire;
  }

  /** After a mishap the writer never finishes a batch again: it can only stop. */
  lemma MishapIsFatal(run: seq<Action>, more: seq<Action>)
    requires IsRun(Start, run) && !NoMishap(Start, run) && IsRun(After(Start, run), more)
    ensures After(After(Start, run), more).owed > 0
    ensures forall i :: 0 <= i < |more| ==> more[i].Try?
  {
    InvRun(Start, run);
    InvRun(After(Start, run), more);
    NeverGathers(After(Start, run), more);
  }

  lemma {:induction false} NeverGathers(s: State, more: seq<Action>)
    requires Inv(s) && !Sound(s) && IsRun(s, more)
    ensures forall i :: 0 <= i < |more| ==> more[i].Try?
    decreases |more|
  {
    if more != [] {
      InvStep(s, more[0]);
      NeverGathers(Next(s, more[0]), more[1..]);
      forall i | 0 <= i < |more|
        ensures more[i].Try?
      {
        assert i > 0 ==> more[i] == more[1..][i - 1];
      }
    }
  }

  /** The smallest corruption: of a lone three-byte frame, one byte is taken, then one
      more; the wire carries the first and the third. */
  lemma WireSkips(a: byte, b: byte, c: byte)
    requires b != c
    ensures var run := [Gather([[a, b, c]]), Try(Took(1)), Try(Took(1))];
            && IsRun(Start, run)
            && After(Start, run).wire == [a, c] && !(After(Start, run).wire <= After(Start, run).got)
  {
    var run := [Gather([[a, b, c]]), Try(Took(1)), Try(Took(1))];
    LoneFlat([a, b, c]);
    var s1 := Next(Start, run[0]);
    NonEmptySame([[a, b, c]]);
    assert NonEmpty([[a, b, c]]) == [[a, b, c]] by {
      assert [[a, b, c]][1..] == [];
    }
    assert s1 == State([[a, b, c]], 3, [], [a, b, c], false);
    LoneShort(s1, 1);
    var s2 := Next(s1, run[1]);
    assert [a, b, c][1..] == [b, c] && [b, c][1..] == [c] && [a, b, c][..1] == [a];
    assert s2 == State([[c]], 2, [a], [a, b, c], false);
    LoneFlat([c]);
    var s3 := Next(s2, run[2]);
    assert [c][..1] == [c];
    assert s3.wire == [a, c];
    assert run[1..][0] == run[1] && run[1..][1..] == [run[2]] && [run[2]][1..] == [];
    assert IsRun(s3, []) && IsRun(s2, [run[2]]) && IsRun(s1, run[1..]);
    assert After(s2, [run[2]]) == s3;
    assert After(s1, run[1..]) == s3;
    assert After(Start, run) == s3;
    assert [a, b, c][..2] == [a, b] && s3.wire[1] == c;
  }

  // ------------------------------------------------------------------ the object ---

  /** What the write call reported. */
  datatype Result = Wrote(n: nat) | Retry | Abandoned | Error

  class Batch {
    var parts: seq<Bytes>
    var owed: nat

    constructor ()
      ensures parts == [] && owed == 0
    {
      parts, owed := [], 0;
    }

    /** Takes frames off the queue until it is empty or, having taken a second one at least, the
        batch is full. */
    method Gather(queue: seq<Bytes>) returns (rest: seq<Bytes>, ghost taken: seq<Bytes>)
      requires parts == [] && owed == 0 && queue != []
      modifies this
      ensures queue == taken + rest && taken != []
      ensures parts == NonEmpty(taken) && owed == |Flatten(taken)| && |parts| <= 1000
      ensures rest == [] || (|taken| >= 2 && FullBatch(taken))
      ensures forall k :: 2 <= k < |taken| ==> !FullBatch(taken[..k])
    {
      taken := [];
      NonEmptySnoc(taken, queue[0]);
      LoneFlat(queue[0]);
      Take(queue[0]);
      rest, taken := queue[1..], [queue[0]];
      while rest != []
        invariant queue == taken + rest && taken != []
        invariant parts == NonEmpty(taken) && owed == |Flatten(taken)|
        invariant |parts| < MAX_BATCH_PARTS
        invariant forall k :: 2 <= k <= |taken| ==> !FullBatch(taken[..k])
        decreases |rest|
      {
        FlattenSnoc(taken, rest[0]);
        NonEmptySnoc(taken, rest[0]);
        Take(rest[0]);
        ghost var before := taken;
        taken, rest := taken + [rest[0]], rest[1..];
        assert taken[..|taken|] == taken && forall k :: 0 <= k <= |before| ==> taken[..k] == before[..k];
        if |parts| >= MAX_BATCH_PARTS || owed >= MAX_BATCH_BYTES {
          break;
        }
      }
    }

    method Take(frame: Bytes)
      modifies this
      ensures owed == old(owed) + |frame|
      ensures parts == old(parts) + if frame == [] then [] else [frame]
    {
      owed := owed + |frame|;
      if frame != [] {
        parts := parts + [frame];
      }
    }

    /** One attempt, the socket deciding what comes of it. */
    method WriteBatch(kernel: Attempt) returns (r: Result)
      requires kernel.Took? ==> kernel.n <= |Flatten(parts)|
      modifies this`parts
      ensures r == (match kernel
                    case Took(n) => Wrote(n)
                    case Interrupted => Retry
                    case Cancelled => Abandoned
                    case Broken => Error)
      ensures |old(parts)| == 1 && kernel == Cancelled ==> parts == []
      ensures |old(parts)| == 1 && kernel.Took? ==>
                parts == if kernel.n < |old(parts)[0]| then [old(parts)[0][kernel.n..]] else []
      ensures |old(parts)| != 1 || kernel == Interrupted || kernel == Broken ==> parts == old(parts)
    {
      r := match kernel
           case Took(n) => Wrote(n)
           case Interrupted => Retry
           case Cancelled => Abandoned
           case Broken => Error;
      if |parts| == 1 {
        var buf := parts[0];
        parts := [];
        if kernel.Took? {
          if kernel.n < |buf| {
            parts := [buf[kernel.n..]] + parts;
          }
        } else if kernel != Cancelled {
          parts := [buf] + parts;
        }
      }
    }

    /** Drops `n` bytes from the front. */
    method Consume(n: nat)
      modifies this`parts
      ensures parts == Consumed(old(parts), n)
    {
      var left: nat := n;
      while left > 0 && parts != []
        invariant Consumed(parts, left) == Consumed(old(parts), n)
        decreases left + |parts|
      {
        if |parts[0]| <= left {
          left := left - |parts[0]|;
          parts := parts[1..];
        } else {
          parts := [parts[0][left..]] + parts[1..];
          left := 0;
        }
      }
    }

    /** One turn of the write loop does what the step system says. */
    method Turn(kernel: Attempt, ghost s: State) returns (stopped: bool)
      requires s.parts == parts && s.owed == owed && Inv(s) && Enabled(s, Try(kernel))
      modifies this
      ensures var s' := Tried(s, kernel); parts == s'.parts && owed == s'.owed
      ensures stopped <==> kernel == Broken || kernel == Took(0)
    {
      stopped := false;
      var r := WriteBatch(kernel);
      match r
      case Wrote(n) =>
        if n == 0 {
          NothingTaken(s.parts);
          stopped := true;
        } else {
          Consume(n);
          owed := owed - n;
        }
      case Retry =>
      case Abandoned =>
      case Error => stopped := true;
    }
  }

  lemma NothingTaken(parts: seq<Bytes>)
    requires |parts| == 1 ==> parts[0] != []
    ensures |parts| == 1 ==> [parts[0][0..]] == parts
  {
    assert |parts| == 1 ==> parts[0][0..] == parts[0];
  }

  lemma {:induction false} NonEmptySnoc(a: seq<Bytes>, b: Bytes)
    ensures NonEmpty(a + [b]) == NonEmpty(a) + if b == [] then [] else [b]
  {
    if a == [] {
      assert a + [b] == [b] && [b][1..] == [];
    } else {
      assert (a + [b])[1..] == a[1..] + [b];
      NonEmptySnoc(a[1..], b);
    }
  }
}
