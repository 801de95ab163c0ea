/** Backpressure: how far over its soft mark a queue can get when every publisher that
    crosses the mark waits for room before its next message. */
module OutboxPressure {
  import opened ByteStrings
  import opened Decimal
  import opened Outbox
  import opened OutboxClose

  function Sum(xs: seq<nat>): nat {
    if xs == [] then 0 else xs[0] + Sum(xs[1..])
  }

  lemma {:induction false} SumUpdate(xs: seq<nat>, i: nat, v: nat)
    requires i < |xs|
    ensures Sum(xs[i := v]) == Sum(xs) - xs[i] + v
  {
    if i == 0 {
      assert xs[0 := v][1..] == xs[1..];
    } else {
      assert xs[i := v][1..] == xs[1..][i - 1 := v];
      SumUpdate(xs[1..], i - 1, v);
    }
  }

  lemma {:induction false} SumBelow(xs: seq<nat>, ys: seq<nat>)
    requires |xs| == |ys| && forall i :: 0 <= i < |xs| ==> xs[i] <= ys[i]
    ensures Sum(xs) <= Sum(ys)
  {
    if xs != [] {
      SumBelow(xs[1..], ys[1..]);
    }
  }

  /** The bytes of a message's frames. */
  function Bulk(frames: seq<Bytes>): nat {
    if frames == [] then 0 else |frames[0]| + Bulk(frames[1..])
  }

  /** The history a bound speaks of. Per publisher: the bytes of the message it is on, those
      of them counted so far, and those counted since the counter was last at or under the
      soft mark. For the reader: the control bytes counted since then. */
  datatype Ledger = Ledger(msg: seq<nat>, cur: seq<nat>, since: seq<nat>, control: nat)

  function Zeros(n: nat): (z: seq<nat>)
    ensures |z| == n && forall i :: 0 <= i < n ==> z[i] == 0
  {
    if n == 0 then [] else [0] + Zeros(n - 1)
  }

  function Blank(n: nat): Ledger {
    Ledger(Zeros(n), Zeros(n), Zeros(n), 0)
  }

  predicate Fits(l: Ledger, s: State) {
    |l.msg| == |l.cur| == |l.since| == |s.tasks|
  }

  function Counted(l: Ledger, p: nat, len: nat): Ledger
    requires p < |l.cur| == |l.since|
  {
    l.(cur := l.cur[p := l.cur[p] + len], since := l.since[p := l.since[p] + len])
  }

  function Entered(l: Ledger, s: State, a: Action): Ledger
    requires Enabled(s, a) && Fits(l, s)
  {
    match a
    case Begin(p, frames) => l.(msg := l.msg[p := Bulk(frames)], cur := l.cur[p := 0])
    case AddBytes(p) => Counted(l, p, |s.tasks[p].todo[0]|)
    case ReaderAdd => l.(control := l.control + |s.reader.line|)
    case _ => l
  }

  /** The history after one step: it starts afresh whenever the counter is at or under
      the mark. */
  function Post(l: Ledger, s: State, a: Action): Ledger
    requires Enabled(s, a) && Fits(l, s)
  {
    Refreshed(Entered(l, s, a), Next(s, a))
  }

  function Refreshed(l: Ledger, s: State): Ledger {
    if s.pending <= s.soft then l.(since := Zeros(|l.since|), control := 0) else l
  }

  function Posted(l: Ledger, s: State, run: seq<Action>): Ledger
    requires IsRun(s, run) && Fits(l, s)
    decreases |run|
  {
    if run == [] then l else Posted(Post(l, s, run[0]), Next(s, run[0]), run[1..])
  }

  /** The frames of the message not counted yet. */
  function Uncounted(t: Task): seq<Bytes> {
    if t.pc.Added? && t.todo != [] then t.todo[1..] else t.todo
  }

  /** A publisher with bytes counted over the mark will wait, or is on its way out. */
  predicate Bound(s: State, t: Task) {
    t.stall > 0 || (t.pc.Added? && t.pc.before > s.soft) || t.pc == Refused || t.pc == Dead
  }

  predicate TaskBooked(s: State, t: Task, msg: nat, cur: nat, since: nat) {
    && since <= cur
    && cur + Bulk(Uncounted(t)) <= msg
    && (since > 0 ==> Bound(s, t))
  }

  predicate Booked(l: Ledger, s: State) {
    && Fits(l, s)
    && (s.pending <= s.soft ==> l.control == 0 && forall p :: 0 <= p < |l.since| ==> l.since[p] == 0)
    && (!Gone(s) ==> s.pending <= s.soft + Sum(l.since) + l.control)
    && forall p :: 0 <= p < |s.tasks| ==> TaskBooked(s, s.tasks[p], l.msg[p], l.cur[p], l.since[p])
  }

  predicate StaysBound(s: State, s': State, t: Task, t': Task) {
    && Bulk(Uncounted(t')) <= Bulk(Uncounted(t))
    && (Bound(s, t) && s.pending > s.soft && s'.pending > s.soft ==> Bound(s', t'))
  }

  /** A step that counts nothing, and leaves every task bound that was. */
  lemma BookedQuiet(l: Ledger, s: State, s': State)
    requires Booked(l, s)
    requires |s'.tasks| == |s.tasks| && s'.soft == s.soft && (Gone(s) ==> Gone(s'))
    requires !Gone(s') ==> s'.pending <= s.pending
    requires forall p :: 0 <= p < |s.tasks| ==> StaysBound(s, s', s.tasks[p], s'.tasks[p])
    ensures Booked(Refreshed(l, s'), s')
  {
    var l' := Refreshed(l, s');
    forall p | 0 <= p < |s'.tasks|
      ensures TaskBooked(s', s'.tasks[p], l'.msg[p], l'.cur[p], l'.since[p])
    {
      assert TaskBooked(s, s.tasks[p], l.msg[p], l.cur[p], l.since[p]);
      assert StaysBound(s, s', s.tasks[p], s'.tasks[p]);
    }
  }

  /** A push counts `len` bytes for publisher `p`. */
  lemma BookedCounted(l: Ledger, s: State, s': State, p: nat, len: nat)
    requires Booked(l, s) && p < |s.tasks| && s.tasks[p].todo != [] && len == |s.tasks[p].todo[0]|
    requires s.tasks[p].pc == Locked && !Gone(s)
    requires s' == Put(s.(pending := s.pending + len), p, s.tasks[p].(pc := Added(s.pending + len)))
    ensures Booked(Refreshed(Counted(l, p, len), s'), s')
  {
    var l' := Refreshed(Counted(l, p, len), s');
    SumUpdate(l.since, p, l.since[p] + len);
    CountedHere(s, s', s.tasks[p], len, l.msg[p], l.cur[p], l.since[p]);
    forall q | 0 <= q < |s'.tasks|
      ensures TaskBooked(s', s'.tasks[q], l'.msg[q], l'.cur[q], l'.since[q])
    {
      assert TaskBooked(s, s.tasks[q], l.msg[q], l.cur[q], l.since[q]);
    }
  }

  lemma CountedHere(s: State, s': State, t: Task, len: nat, msg: nat, cur: nat, since: nat)
    requires t.todo != [] && len == |t.todo[0]| && !t.pc.Added? && TaskBooked(s, t, msg, cur, since)
    requires s'.soft == s.soft && s'.pending == s.pending + len
    ensures var t' := t.(pc := Added(s'.pending));
            TaskBooked(s', t', msg, cur + len, if s'.pending <= s.soft then 0 else since + len)
  {
    assert Bulk(t.todo) == len + Bulk(t.todo[1..]);
  }

  lemma BookedBegin(l: Ledger, s: State, p: nat, frames: seq<Bytes>)
    requires Booked(l, s) && Enabled(s, Begin(p, frames))
    ensures Booked(Post(l, s, Begin(p, frames)), Next(s, Begin(p, frames)))
  {
    var a := Begin(p, frames);
    var s', l' := Next(s, a), Post(l, s, a);
    assert l.since[p] == 0 by {
      assert TaskBooked(s, s.tasks[p], l.msg[p], l.cur[p], l.since[p]);
    }
    forall q | 0 <= q < |s'.tasks|
      ensures TaskBooked(s', s'.tasks[q], l'.msg[q], l'.cur[q], l'.since[q])
    {
      assert TaskBooked(s, s.tasks[q], l.msg[q], l.cur[q], l.since[q]);
    }
  }

  lemma BookedAdd(l: Ledger, s: State, p: nat)
    requires Exact(s) && Booked(l, s) && Enabled(s, AddBytes(p))
    ensures Booked(Post(l, s, AddBytes(p)), Next(s, AddBytes(p)))
  {
    var t := s.tasks[p];
    AddedExactly(s, p);
    BookedCounted(l, s, Next(s, AddBytes(p)), p, |t.todo[0]|);
    assert Post(l, s, AddBytes(p)) == Refreshed(Counted(l, p, |t.todo[0]|), Next(s, AddBytes(p)));
  }

  lemma AddedExactly(s: State, p: nat)
    requires Exact(s) && Enabled(s, AddBytes(p))
    ensures var n := s.pending + |s.tasks[p].todo[0]|;
            !Gone(s) && Next(s, AddBytes(p)) == Put(s.(pending := n), p, s.tasks[p].(pc := Added(n)))
  {
    assert s.lock == ByTask(p) && TaskInv(s, s.tasks[p]) && Small(s, |s.tasks[p].todo[0]|);
  }

  lemma BookedReaderAdd(l: Ledger, s: State)
    requires Exact(s) && Booked(l, s) && s.reader.Holds?
    ensures Booked(Post(l, s, ReaderAdd), Next(s, ReaderAdd))
  {
    var s', l' := Next(s, ReaderAdd), Post(l, s, ReaderAdd);
    assert s.lock == ByReader;
    forall q | 0 <= q < |s'.tasks|
      ensures TaskBooked(s', s'.tasks[q], l'.msg[q], l'.cur[q], l'.since[q])
    {
      assert TaskBooked(s, s.tasks[q], l.msg[q], l.cur[q], l.since[q]);
    }
  }

  lemma BookedSettle(l: Ledger, s: State, p: nat)
    requires Exact(s) && Booked(l, s) && Enabled(s, Settle(p))
    ensures Booked(Post(l, s, Settle(p)), Next(s, Settle(p)))
  {
    assert s.lock == ByTask(p);
    BookedQuiet(l, s, Next(s, Settle(p)));
  }

  lemma BookedLocal(l: Ledger, s: State, a: Action)
    requires Booked(l, s) && Enabled(s, a) && IsLocal(a) && !a.Begin?
    ensures Booked(Post(l, s, a), Next(s, a))
  {
    var s' := Next(s, a);
    MovedStaysBound(s, a);
    forall p | 0 <= p < |s.tasks|
      ensures StaysBound(s, s', s.tasks[p], s'.tasks[p])
    {
    }
    BookedQuiet(l, s, Next(s, a));
  }

  lemma MovedStaysBound(s: State, a: Action)
    requires Enabled(s, a) && IsLocal(a) && !a.Begin?
    ensures StaysBound(s, Next(s, a), s.tasks[a.p], Moved(s, a))
  {
  }

  lemma BookedWake(l: Ledger, s: State, a: Action)
    requires Booked(l, s) && Enabled(s, a) && (a.DrainNotify? || a.NotifyAll?)
    ensures Booked(Post(l, s, a), Next(s, a))
  {
    var s' := Next(s, a);
    forall p | 0 <= p < |s.tasks|
      ensures StaysBound(s, s', s.tasks[p], s'.tasks[p])
    {
      WokenStaysBound(s, s', s.tasks[p]);
    }
    BookedQuiet(l, s, s');
  }

  lemma WokenStaysBound(s: State, s': State, t: Task)
    requires s'.soft == s.soft
    ensures StaysBound(s, s', t, Woken(t))
  {
  }

  lemma BookedLock(l: Ledger, s: State, p: nat)
    requires Booked(l, s) && Enabled(s, TakeLock(p))
    ensures Booked(Post(l, s, TakeLock(p)), Next(s, TakeLock(p)))
  {
    BookedQuiet(l, s, Next(s, TakeLock(p)));
  }

  lemma BookedSlow(l: Ledger, s: State, p: nat)
    requires Booked(l, s) && Enabled(s, CloseSlow(p))
    ensures Booked(Post(l, s, CloseSlow(p)), Next(s, CloseSlow(p)))
  {
    BookedQuiet(l, s, Next(s, CloseSlow(p)));
  }

  /** Steps of the reader, the writer and the close: no task moves. */
  lemma BookedRest(l: Ledger, s: State, a: Action)
    requires Exact(s) && Booked(l, s) && Enabled(s, a) && !IsLocal(a)
    requires !a.TakeLock? && !a.CloseSlow? && !a.AddBytes? && !a.ReaderAdd? && !a.Settle?
    requires !a.DrainNotify? && !a.NotifyAll?
    ensures Booked(Post(l, s, a), Next(s, a))
  {
    assert Next(s, a).tasks == s.tasks;
    BookedQuiet(l, s, Next(s, a));
  }

  /** Steps of the reader, the writer, the close and of a publisher by itself. */
  lemma BookedAside(l: Ledger, s: State, a: Action)
    requires Exact(s) && Booked(l, s) && Enabled(s, a)
    requires !a.Begin? && !a.AddBytes? && !a.ReaderAdd? && !a.Settle? && !a.TakeLock? && !a.CloseSlow?
    requires !a.DrainNotify? && !a.NotifyAll?
    ensures Booked(Post(l, s, a), Next(s, a))
  {
    if IsLocal(a) {
      BookedLocal(l, s, a);
    } else {
      BookedRest(l, s, a);
    }
  }

  lemma BookedStep(l: Ledger, s: State, a: Action)
    requires Exact(s) && Booked(l, s) && Enabled(s, a)
    ensures Booked(Post(l, s, a), Next(s, a))
  {
    if a.Begin? {
      BookedBegin(l, s, a.p, a.frames);
    } else if a.AddBytes? {
      BookedAdd(l, s, a.p);
    } else if a.ReaderAdd? {
      BookedReaderAdd(l, s);
    } else if a.Settle? {
      BookedSettle(l, s, a.p);
    } else if a.TakeLock? {
      BookedLock(l, s, a.p);
    } else if a.CloseSlow? {
      BookedSlow(l, s, a.p);
    } else if a.DrainNotify? || a.NotifyAll? {
      BookedWake(l, s, a);
    } else {
      BookedAside(l, s, a);
    }
  }

  lemma {:induction false} BookedRun(l: Ledger, s: State, run: seq<Action>)
    requires Exact(s) && Booked(l, s) && IsRun(s, run)
    ensures Booked(Posted(l, s, run), After(s, run))
    decreases |run|
  {
    if run != [] {
      ExactStep(s, run[0]);
      BookedStep(l, s, run[0]);
      BookedRun(Post(l, s, run[0]), Next(s, run[0]), run[1..]);
    }
  }

  /** The message bytes of those publishers only that will wait, or are on their way out. */
  function OfBound(s: State, ts: seq<Task>, msg: seq<nat>): (r: seq<nat>)
    requires |ts| == |msg|
    ensures |r| == |msg| && forall p :: 0 <= p < |msg| ==> r[p] == if Bound(s, ts[p]) then msg[p] else 0
  {
    if ts == [] then [] else [if Bound(s, ts[0]) then msg[0] else 0] + OfBound(s, ts[1..], msg[1..])
  }

  /** Over every run of any number of publishers: the counter of a live queue exceeds its
      soft mark by no more than the frames of the one message each publisher is on that has
      crossed the mark with it and is to wait, plus the control bytes queued since the counter
      was last at or under the mark. Publishers that wait for nothing count for nothing. */
  lemma BackpressureBound(hard: nat, n: nat, run: seq<Action>)
    requires hard < U64 && IsRun(Init(hard, n), run)
    ensures var s := After(Init(hard, n), run);
            var l := Posted(Blank(n), Init(hard, n), run);
            && |s.tasks| == |l.msg|
            && (!Gone(s) ==> s.pending <= s.soft + Sum(OfBound(s, s.tasks, l.msg)) + l.control)
  {
    var s0 := Init(hard, n);
    InitExact(hard, n);
    BookedRun(Blank(n), s0, run);
    BookedBounds(Posted(Blank(n), s0, run), After(s0, run));
  }

  lemma BookedBounds(l: Ledger, s: State)
    requires Booked(l, s)
    ensures !Gone(s) ==> s.pending <= s.soft + Sum(OfBound(s, s.tasks, l.msg)) + l.control
  {
    var bound := OfBound(s, s.tasks, l.msg);
    forall p | 0 <= p < |l.since|
      ensures l.since[p] <= bound[p]
    {
      assert TaskBooked(s, s.tasks[p], l.msg[p], l.cur[p], l.since[p]);
    }
    SumBelow(l.since, bound);
  }

  /** The message publisher `p` last began in a run. */
  function LastBegun(run: seq<Action>, p: nat): Option<seq<Bytes>> {
    if run == [] then None
    else if LastBegun(run[1..], p).Some? then LastBegun(run[1..], p)
    else if run[0].Begin? && run[0].p == p then Some(run[0].frames)
    else None
  }

  /** What the ledger has for a publisher's message are the bytes of the message it last began. */
  lemma {:induction false} MessageIs(l: Ledger, s: State, run: seq<Action>, p: nat)
    requires IsRun(s, run) && Fits(l, s) && p < |s.tasks|
    ensures p < |Posted(l, s, run).msg|
    ensures var last := LastBegun(run, p);
            Posted(l, s, run).msg[p] == if last.Some? then Bulk(last.value) else l.msg[p]
    decreases |run|
  {
    if run != [] {
      TasksStay(s, run[0]);
      MessageIs(Post(l, s, run[0]), Next(s, run[0]), run[1..], p);
    }
  }

  lemma TasksStay(s: State, a: Action)
    requires Enabled(s, a)
    ensures |Next(s, a).tasks| == |s.tasks|
  {
  }

  // ------------------------------------------------------------------- one wait for each ---

  /** A frame of publisher `p` is queued and takes the counter over the soft mark. */
  predicate Crosses(s: State, a: Action, p: nat)
    requires Enabled(s, a)
  {
    a == Settle(p) && s.tasks[p].pc.before <= s.hard && s.receiving && s.tasks[p].pc.before > s.soft
  }

  /** Publisher `p` looks for the last time in a wait, and finds room. */
  predicate Finds(s: State, a: Action, p: nat)
    requires Enabled(s, a)
  {
    a == LoadCount(p) && s.tasks[p].pc == Probe3b && s.pending <= s.soft
  }

  /** One more crossing, or one less to wait for. */
  function Change(s: State, a: Action, p: nat): int
    requires Enabled(s, a)
  {
    (if Crosses(s, a, p) then 1 else 0) - (if Finds(s, a, p) then 1 else 0)
  }

  /** The crossings of a run, less the waits that ended. */
  function Owing(s: State, run: seq<Action>, p: nat): int
    requires IsRun(s, run)
    decreases |run|
  {
    if run == [] then 0 else Change(s, run[0], p) + Owing(Next(s, run[0]), run[1..], p)
  }

  /** In a wait. */
  predicate Waits(pc: Pc) {
    || pc == Probe1 || pc == Probe1b || pc == Enrol || pc.Probe2? || pc.Probe2b? || pc.Parked?
    || pc == Probe3 || pc == Probe3b || pc == Probe3c
  }

  predicate Reckoned(t: Task, n: int) {
    (Waits(t.pc) ==> t.stall > 0) && (t.pc != Dead ==> t.stall == n)
  }

  lemma ReckonedLocal(s: State, a: Action, n: int)
    requires Enabled(s, a) && IsLocal(a) && Reckoned(s.tasks[a.p], n)
    ensures Reckoned(Moved(s, a), n + Change(s, a, a.p))
  {
  }

  lemma ReckonedPush(s: State, a: Action, n: int)
    requires Enabled(s, a) && (a.TakeLock? || a.AddBytes? || a.Settle? || a.CloseSlow?) && Reckoned(s.tasks[a.p], n)
    ensures Reckoned(Next(s, a).tasks[a.p], n + Change(s, a, a.p))
  {
  }

  lemma ReckonedStep(s: State, a: Action, p: nat, n: int)
    requires Enabled(s, a) && p < |s.tasks| && Reckoned(s.tasks[p], n)
    ensures |Next(s, a).tasks| == |s.tasks| && Reckoned(Next(s, a).tasks[p], n + Change(s, a, p))
  {
    if !OfTask(a) {
      OthersStay(s, a);
    } else {
      TaskMoves(s, a);
      if a.p == p {
        if IsLocal(a) {
          ReckonedLocal(s, a, n);
        } else {
          ReckonedPush(s, a, n);
        }
      }
    }
  }

  lemma {:induction false} ReckonedRun(s: State, run: seq<Action>, p: nat, n: int)
    requires IsRun(s, run) && p < |s.tasks| && Reckoned(s.tasks[p], n)
    ensures p < |After(s, run).tasks| && Reckoned(After(s, run).tasks[p], n + Owing(s, run, p))
    decreases |run|
  {
    if run != [] {
      var n' := n + Change(s, run[0], p);
      ReckonedStep(s, run[0], p, n);
      ReckonedRun(Next(s, run[0]), run[1..], p, n');
    }
  }

  /** Over every run: when a publisher begins its next message, it has waited for room, and found
      it, once for each frame of its messages so far that crossed the soft mark. */
  lemma OneWaitEach(hard: nat, n: nat, run: seq<Action>, p: nat, frames: seq<Bytes>)
    requires IsRun(Init(hard, n), run) && p < n && Enabled(After(Init(hard, n), run), Begin(p, frames))
    ensures Owing(Init(hard, n), run, p) == 0
  {
    ReckonedRun(Init(hard, n), run, p, 0);
  }
}
