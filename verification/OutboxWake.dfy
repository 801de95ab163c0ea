/** No lost wake-up: a publisher that parked because the queue was over its soft mark is
    woken once it is not. */
module OutboxWake {
  import opened ByteStrings
  import opened Decimal
  import opened Outbox
  import opened OutboxRuns
  import Delivery

  predicate AnyRefused(ts: seq<Task>) {
    exists p :: 0 <= p < |ts| && ts[p].pc == Refused
  }

  /** A step that notifies every waiter is still to come: the writer saw the mark crossed,
      a publisher is about to close the connection, or a close is under way. */
  predicate WillNotify(s: State) {
    s.writer == Notify || AnyRefused(s.tasks) || (s.closing != Open && s.closing != Done)
  }

  /** Every publisher parked and not notified has no room, or a notification coming. */
  predicate NoneForgotten(s: State) {
    forall p :: 0 <= p < |s.tasks| && s.tasks[p].pc == Parked(false) ==>
      (!Gone(s) && s.pending > s.soft) || WillNotify(s)
  }

  /** The same, stated so that every step keeps it: once gone, whoever registered and was
      not notified is waiting for the close to finish. */
  predicate Attended(s: State) {
    forall p :: 0 <= p < |s.tasks| ==> TaskAttended(s, s.tasks[p])
  }

  predicate TaskAttended(s: State, t: Task) {
    && (t.pc == Parked(false) && !Gone(s) ==> s.pending > s.soft || WillNotify(s))
    && ((t.pc == Parked(false) || t.pc == Probe2b(false)) && Gone(s) ==> s.closing != Done)
  }

  /** The one step that can cross the soft mark downwards unannounced: the undo of a
      control line that was refused at the hard mark. */
  predicate SilentUndo(s: State, a: Action) {
    && a == ReaderSettle && s.reader.Counted? && s.reader.before > s.hard
    && s.pending > s.soft && s.pending - |s.reader.line| <= s.soft
  }

  /** Such an undo while someone is parked unnotified, and no other notification is coming. */
  predicate Loses(s: State, a: Action) {
    SilentUndo(s, a) && !WillNotify(s) && exists p :: 0 <= p < |s.tasks| && s.tasks[p].pc == Parked(false)
  }

  predicate NeverLoses(s: State, run: seq<Action>)
    requires IsRun(s, run)
    decreases |run|
  {
    run == [] || (!Loses(s, run[0]) && NeverLoses(Next(s, run[0]), run[1..]))
  }

  /** In no state of the run is anyone forgotten. */
  predicate ForgetsNobody(s: State, run: seq<Action>)
    requires IsRun(s, run)
    decreases |run|
  {
    NoneForgotten(s) && (run == [] || ForgetsNobody(Next(s, run[0]), run[1..]))
  }

  lemma AttendedMeans(s: State)
    requires Attended(s)
    ensures NoneForgotten(s)
  {
    forall p | 0 <= p < |s.tasks| && s.tasks[p].pc == Parked(false)
      ensures (!Gone(s) && s.pending > s.soft) || WillNotify(s)
    {
      assert TaskAttended(s, s.tasks[p]);
    }
  }

  /** If the tasks stand where they stood and a notification was not taken away, and the
      counter did not come down to the mark, everyone is still attended to. */
  lemma AttendedKept(s: State, s': State)
    requires Attended(s) && s'.tasks == s.tasks && s'.soft == s.soft
    requires WillNotify(s) && !Gone(s') ==> WillNotify(s')
    requires !Gone(s') && s.pending > s.soft && s'.pending <= s'.soft ==> WillNotify(s')
    requires Gone(s) ==> Gone(s')
    requires Gone(s') ==> s'.closing != Done || s.closing == Done
    ensures Attended(s')
  {
    forall p | 0 <= p < |s.tasks|
      ensures TaskAttended(s', s'.tasks[p])
    {
      assert TaskAttended(s, s.tasks[p]);
    }
  }

  /** After every waiter is notified, nobody is parked unnotified. */
  lemma AttendedWoken(s: State, s': State)
    requires s'.tasks == WakeAll(s.tasks)
    ensures Attended(s')
  {
    forall p | 0 <= p < |s'.tasks|
      ensures TaskAttended(s', s'.tasks[p])
    {
      assert s'.tasks[p] == Woken(s.tasks[p]);
    }
  }

  /** One task moves; no other loses its notification. */
  lemma AttendedPut(s: State, s1: State, p: nat, t: Task)
    requires Attended(s) && p < |s.tasks| && s1.tasks == s.tasks && s1.soft == s.soft
    requires Gone(s1) == Gone(s) && (s1.closing == Done) == (s.closing == Done)
    requires !Gone(s) && (WillNotify(s) || (s.pending > s.soft && s1.pending <= s.soft)) ==> WillNotify(Put(s1, p, t))
    requires TaskAttended(Put(s1, p, t), t)
    ensures Attended(Put(s1, p, t))
  {
    var s' := Put(s1, p, t);
    forall q | 0 <= q < |s'.tasks|
      ensures TaskAttended(s', s'.tasks[q])
    {
      assert TaskAttended(s, s.tasks[q]);
    }
  }

  lemma RefusedPut(s: State, p: nat, t: Task)
    requires p < |s.tasks|
    ensures t.pc == Refused ==> AnyRefused(Put(s, p, t).tasks)
    ensures s.tasks[p].pc != Refused && AnyRefused(s.tasks) ==> AnyRefused(Put(s, p, t).tasks)
  {
    var s' := Put(s, p, t);
    if t.pc == Refused {
      assert s'.tasks[p].pc == Refused;
    }
    if s.tasks[p].pc != Refused && AnyRefused(s.tasks) {
      var q :| 0 <= q < |s.tasks| && s.tasks[q].pc == Refused;
      assert s'.tasks[q].pc == Refused;
    }
  }

  lemma LocalAttended(s: State, a: Action)
    requires Attended(s) && Enabled(s, a) && IsLocal(a)
    ensures Attended(Next(s, a))
  {
    var t := Moved(s, a);
    assert TaskAttended(s, s.tasks[a.p]);
    RefusedPut(s, a.p, t);
    AttendedPut(s, s, a.p, t);
  }

  lemma PushAttended(s: State, a: Action)
    requires Exact(s) && Attended(s) && Enabled(s, a) && (a.TakeLock? || a.AddBytes? || a.CloseSlow?)
    ensures Attended(Next(s, a))
  {
    var p, s' := a.p, Next(s, a);
    var t := s'.tasks[p];
    RefusedPut(s, p, t);
    if a.CloseSlow? {
      AttendedPut(s, StartClose(s), p, t);
    } else {
      assert TaskInv(s, s.tasks[p]) && (a.AddBytes? ==> Small(s, |s.tasks[p].todo[0]|));
      AttendedPut(s, s.(lock := s'.lock, pending := s'.pending), p, t);
    }
  }

  lemma SettleAttended(s: State, p: nat)
    requires Exact(s) && Attended(s) && Enabled(s, Settle(p))
    ensures Attended(SettlePush(s, p))
  {
    var s' := SettlePush(s, p);
    var t := s'.tasks[p];
    RefusedPut(s, p, t);
    assert s.lock == ByTask(p);
    AttendedPut(s, s.(pending := s'.pending, queue := s'.queue, log := s'.log, lock := Free), p, t);
  }

  lemma ReaderAttended(s: State, a: Action)
    requires Exact(s) && Attended(s) && Enabled(s, a) && !SilentUndo(s, a)
    requires a.ReaderAsk? || a.ReaderLock? || a.ReaderAdd? || a.ReaderSettle?
    ensures Attended(Next(s, a))
  {
    AttendedKept(s, Next(s, a));
  }

  lemma WriterAttended(s: State, a: Action)
    requires Exact(s) && Attended(s) && Enabled(s, a)
    requires a.Receive? || a.Write? || a.DrainGate? || a.DrainSubtract? || a.WriterLeaves?
    ensures Attended(Next(s, a))
  {
    AttendedKept(s, Next(s, a));
  }

  lemma CloseAttended(s: State, a: Action)
    requires Attended(s) && Enabled(s, a) && (a.BeginClose? || a.Sever? || a.Mark? || a.Zero?)
    ensures Attended(Next(s, a))
  {
    AttendedKept(s, Next(s, a));
  }

  /** An undo that crosses the mark, with nobody parked or a notification coming. */
  lemma HarmlessUndo(s: State)
    requires Exact(s) && Attended(s) && SilentUndo(s, ReaderSettle) && !Loses(s, ReaderSettle)
    ensures Attended(SettleControl(s))
  {
    var s' := SettleControl(s);
    assert s'.tasks == s.tasks && s.lock == ByReader;
    forall p | 0 <= p < |s.tasks|
      ensures TaskAttended(s', s'.tasks[p])
    {
      assert TaskAttended(s, s.tasks[p]);
    }
  }

  lemma AttendedStep(s: State, a: Action)
    requires Exact(s) && Attended(s) && Enabled(s, a) && !Loses(s, a)
    ensures Attended(Next(s, a))
  {
    if SilentUndo(s, a) {
      HarmlessUndo(s);
    } else if IsLocal(a) {
      LocalAttended(s, a);
    } else if a.Settle? {
      SettleAttended(s, a.p);
    } else if a.TakeLock? || a.AddBytes? || a.CloseSlow? {
      PushAttended(s, a);
    } else if a.ReaderAsk? || a.ReaderLock? || a.ReaderAdd? || a.ReaderSettle? {
      ReaderAttended(s, a);
    } else if a.DrainNotify? || a.NotifyAll? {
      AttendedWoken(s, Next(s, a));
    } else if a.BeginClose? || a.Sever? || a.Mark? || a.Zero? {
      CloseAttended(s, a);
    } else {
      WriterAttended(s, a);
    }
  }

  /** The undo of a refused control line loses a wake-up exactly when it brings the counter
      down across the mark while someone is parked, and nothing else is going to notify. */
  lemma LostIff(s: State)
    requires Exact(s) && Attended(s) && Enabled(s, ReaderSettle) && s.reader.before > s.hard
    ensures NoneForgotten(Next(s, ReaderSettle))
       <==> !Loses(s, ReaderSettle)
  {
    var s' := Next(s, ReaderSettle);
    if Loses(s, ReaderSettle) {
      assert s'.tasks == s.tasks && (WillNotify(s') <==> WillNotify(s));
      assert s.lock == ByReader;
      assert s'.pending <= s'.soft;
    } else {
      AttendedStep(s, ReaderSettle);
      AttendedMeans(s');
    }
  }

  lemma {:induction false} ForgetsIff(s: State, run: seq<Action>)
    requires Exact(s) && Attended(s) && IsRun(s, run)
    ensures ForgetsNobody(s, run) <==> NeverLoses(s, run)
    ensures NeverLoses(s, run) ==> NoneForgotten(After(s, run))
    decreases |run|
  {
    AttendedMeans(s);
    if run != [] {
      var a := run[0];
      if Loses(s, a) {
        LostIff(s);
      } else {
        AttendedStep(s, a);
        ExactStep(s, a);
        ForgetsIff(Next(s, a), run[1..]);
      }
    }
  }

  /** Over every run: in each of its states every parked publisher is notified, or has no
      room, or will be notified by a step already under way, if and only if no step of the run
      undoes a refused control line across the soft mark while someone is parked and no other
      notification is coming. */
  lemma NoLostWakeUp(hard: nat, n: nat, run: seq<Action>)
    requires hard < U64 && IsRun(Init(hard, n), run)
    ensures ForgetsNobody(Init(hard, n), run) <==> NeverLoses(Init(hard, n), run)
    ensures NeverLoses(Init(hard, n), run) ==> NoneForgotten(After(Init(hard, n), run))
  {
    InitExact(hard, n);
    ForgetsIff(Init(hard, n), run);
  }

  // ----------------------------------------------------------- a lost wake-up ---

  /** Nothing queued, held or moving, and the connection open. */
  predicate Quiet(s: State) {
    && s.queue == [] && s.held == 0 && s.pending == 0 && s.reader == Idle && s.closing == Open
    && (s.writer == Working || s.writer == Drain(0) || s.writer == Subtract(0))
    && forall p :: 0 <= p < |s.tasks| ==> s.tasks[p].pc == Parked(false)
  }

  /** No one brings the queue new work, and no one closes it. */
  predicate NoNews(run: seq<Action>) {
    forall i :: 0 <= i < |run| ==> !run[i].ReaderAsk? && !run[i].BeginClose?
  }

  /** A publisher forgotten in a quiet queue stays forgotten. */
  lemma {:induction false} Forgotten(s: State, run: seq<Action>)
    requires Quiet(s) && IsRun(s, run) && NoNews(run)
    ensures Quiet(After(s, run))
    decreases |run|
  {
    if run != [] {
      Forgotten(Next(s, run[0]), run[1..]);
    }
  }

  /** A run that loses a wake-up: two frames take the counter over the soft mark, and their
      publisher parks; while the bytes of a refused control line are in the counter, a drain
      does not see the mark crossed; the undo crosses it and says nothing. The publisher
      waits on an empty queue. It takes frames that leave no room for the line. */
  lemma WakeUpLost(hard: nat, a: Bytes, b: Bytes, line: Bytes)
    requires |a| <= hard / 4 * 3 < |a| + |b| <= hard < |a| + |b| + |line|
    requires hard + |a| < U64 && hard + |b| < U64 && hard + |line| < U64
    ensures exists run :: IsRun(Init(hard, 1), run) && Lost(After(Init(hard, 1), run), a, b)
  {
    var s := LostState(hard, a, b, line);
    ReachedByRun(Init(hard, 1), s);
  }

  /** Both frames came and went, and their publisher is parked with nothing to wake it. */
  predicate Lost(s: State, a: Bytes, b: Bytes) {
    && Quiet(s) && |s.tasks| == 1 && !NoneForgotten(s)
    && s.log == [Frame(FromPublisher(0), 0, a), Frame(FromPublisher(0), 1, b)]
  }

  lemma LostState(hard: nat, a: Bytes, b: Bytes, line: Bytes) returns (s: State)
    requires |a| <= hard / 4 * 3 < |a| + |b| <= hard < |a| + |b| + |line|
    requires hard + |a| < U64 && hard + |b| < U64 && hard + |line| < U64
    ensures Reaches(Init(hard, 1), s) && Lost(s, a, b)
  {
    var s0 := Init(hard, 1);
    s := LineInFlight(hard, a, b, line);
    s := WholeDrain(s0, s, |a| + |b| - s.soft);
    s := Then(s0, s, ReaderSettle);
    s := WholeDrain(s0, s, s.soft);
    assert s.tasks[0].pc == Parked(false) && !WillNotify(s);
  }

  lemma LineInFlight(hard: nat, a: Bytes, b: Bytes, line: Bytes) returns (s: State)
    requires |a| <= hard / 4 * 3 < |a| + |b| <= hard
    requires hard + |a| < U64 && hard + |b| < U64 && hard + |line| < U64
    ensures Reaches(Init(hard, 1), s)
    ensures var n, fs := |a| + |b| + |line|, [Frame(FromPublisher(0), 0, a), Frame(FromPublisher(0), 1, b)];
            s == State(hard / 4 * 3, hard, ByReader, [], n, Open, [Task(Parked(false), [], 2, 1)],
                       Counted(line, n), 0, Working, |a| + |b|, true, fs)
  {
    var s0 := Init(hard, 1);
    s := ParkedOver(hard, a, b);
    s := Then(s0, s, Receive);
    s := Then(s0, s, Receive);
    s := HalfControl(s0, s, line);
  }

  /** The first half of that run: two frames fill the queue and their publisher parks. */
  lemma ParkedOver(hard: nat, a: Bytes, b: Bytes) returns (s: State)
    requires |a| <= hard / 4 * 3 < |a| + |b| <= hard && hard + |a| < U64 && hard + |b| < U64
    ensures Reaches(Init(hard, 1), s)
    ensures var fs := [Frame(FromPublisher(0), 0, a), Frame(FromPublisher(0), 1, b)];
            s == State(hard / 4 * 3, hard, Free, fs, |a| + |b|, Open, [Task(Parked(false), [], 2, 1)],
                       Idle, 0, Working, 0, true, fs)
  {
    var s0 := Init(hard, 1);
    s := Then(s0, s0, Begin(0, [a, b]));
    s := WholePush(s0, s, 0);
    s := WholePush(s0, s, 0);
    assert [a, b][1..] == [b] && [b][1..] == [];
    s := Park(s0, s, 0);
  }

  /** The server can take that run: under a hard mark of 40, two messages of seven bytes on
      the subject `a`, delivered to the sid `1`, and a PONG. */
  lemma PongLosesWakeUp(body: Bytes)
    requires |body| == 7
    ensures var a := Delivery.FrameOf(Delivery.Message([97], [49], None, 0, body, false));
            exists run :: IsRun(Init(40, 1), run) && Lost(After(Init(40, 1), run), a, a)
  {
    var f := Delivery.Message([97], [49], None, 0, body, false);
    assert |Delivery.Head(f)| == 9 && |Delivery.Load(f)| == 7;
    WakeUpLost(40, Delivery.FrameOf(f), Delivery.FrameOf(f), [80, 79, 78, 71, CR, LF]);
  }
}
