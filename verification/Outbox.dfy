/** One connection's outbound queue as a step system.

    A step is one atomic operation, or one section under the queue lock. The actors are
    any number of publishing tasks, the connection's own reader (which queues control
    lines), its writer, and whoever closes it. Every theorem about runs is a theorem
    about all their interleavings. */
module Outbox {
  import opened ByteStrings
  import opened Decimal

  datatype Source = FromPublisher(id: nat) | FromReader

  /** A queued frame: who queued it, as which frame of theirs, and what it says. */
  datatype Frame = Frame(from: Source, no: nat, text: Bytes)

  /** Where a publishing task stands, as far as this outbox goes. */
  datatype Pc =
    | Ready                    // between two operations of a message, or two messages
    | Checked                  // saw the connection open
    | Locked                   // holds the queue lock, the sender is there
    | Added(before: nat)       // added the frame to the counter, which then read `before`
    | Refused                  // the frame went over the hard mark: the close is next
    | Probe1 | Probe1b         // first look for room: the `gone` flag, then the counter
    | Enrol                    // about to register for a wake-up
    | Probe2(woken: bool) | Probe2b(woken: bool)
    | Parked(woken: bool)
    | Probe3 | Probe3b | Probe3c
    | Dead                     // saw the connection closed: queues nothing here again

  /** `todo` are the frames of the current message still to be queued here, `no` the number
      of frames already offered, `stall` how many of this message crossed the soft mark: the
      task waits for room once for each. */
  datatype Task = Task(pc: Pc, todo: seq<Bytes>, no: nat, stall: nat)

  datatype ReaderPc = Idle | Asked(line: Bytes) | Holds(line: Bytes) | Counted(line: Bytes, before: nat)

  datatype WriterPc = Working | Drain(bytes: nat) | Subtract(bytes: nat) | Notify

  datatype Lock = Free | ByTask(id: nat) | ByReader

  /** How far the close has come: the `closed` flag, the sender dropped, `gone` set, the
      counter zeroed, every waiter notified. */
  datatype Closing = Open | Swapped | Severed | Marked | Zeroed | Done

  datatype State = State(
    soft: nat, hard: nat,
    lock: Lock, queue: seq<Frame>, pending: nat, closing: Closing,
    tasks: seq<Task>,
    reader: ReaderPc, readerNo: nat,
    writer: WriterPc, held: nat, receiving: bool,
    log: seq<Frame>)

  predicate Closed(s: State) { s.closing != Open }

  predicate Gone(s: State) { s.closing == Marked || s.closing == Zeroed || s.closing == Done }

  predicate HasSender(s: State) { s.closing == Open || s.closing == Swapped }

  /** Room for another frame, or nothing left to wait for. */
  predicate Room(s: State) { Gone(s) || s.pending <= s.soft }

  // The counter is a machine word.
  function WrapAdd(a: nat, b: nat): nat { (a + b) % U64 }
  function WrapSub(a: nat, b: nat): nat { if b <= a then a - b else (a - b) % U64 }

  datatype Action =
    | Begin(p: nat, frames: seq<Bytes>) | SeeOpen(p: nat) | TakeLock(p: nat) | AddBytes(p: nat) | Settle(p: nat)
    | CloseSlow(p: nat)
    | Stall(p: nat) | LoadGone(p: nat) | LoadCount(p: nat) | Register(p: nat) | WakeUp(p: nat) | LoadClosed(p: nat)
    | ReaderAsk(line: Bytes) | ReaderLock | ReaderAdd | ReaderSettle
    | Receive | Write(n: nat) | DrainGate | DrainSubtract | DrainNotify | WriterLeaves
    | BeginClose | Sever | Mark | Zero | NotifyAll

  function Init(hard: nat, n: nat): State {
    State(hard / 4 * 3, hard, Free, [], 0, Open, seq(n, _ => Task(Ready, [], 0, 0)), Idle, 0, Working, 0, true, [])
  }

  /** A frame never brings the counter near the top of the word. */
  predicate Small(s: State, len: nat) { s.hard + len < U64 }

  predicate Enabled(s: State, a: Action) {
    match a
    case Begin(p, frames) =>
      && p < |s.tasks| && s.tasks[p].pc == Ready && s.tasks[p].todo == [] && s.tasks[p].stall == 0
      && forall i :: 0 <= i < |frames| ==> Small(s, |frames[i]|)
    case SeeOpen(p) => p < |s.tasks| && s.tasks[p].pc == Ready && s.tasks[p].todo != []
    case TakeLock(p) => p < |s.tasks| && s.tasks[p].pc == Checked && s.lock == Free
    case AddBytes(p) => p < |s.tasks| && s.tasks[p].pc == Locked && s.tasks[p].todo != []
    case Settle(p) => p < |s.tasks| && s.tasks[p].pc.Added? && s.tasks[p].todo != []
    case CloseSlow(p) => p < |s.tasks| && s.tasks[p].pc == Refused
    case Stall(p) => p < |s.tasks| && s.tasks[p].pc == Ready && s.tasks[p].todo == [] && s.tasks[p].stall > 0
    case LoadGone(p) => p < |s.tasks| && var pc := s.tasks[p].pc; pc == Probe1 || pc.Probe2? || pc == Probe3
    case LoadCount(p) => p < |s.tasks| && var pc := s.tasks[p].pc; pc == Probe1b || pc.Probe2b? || pc == Probe3b
    case Register(p) => p < |s.tasks| && s.tasks[p].pc == Enrol
    case WakeUp(p) => p < |s.tasks| && s.tasks[p].pc == Parked(true)
    case LoadClosed(p) => p < |s.tasks| && s.tasks[p].pc == Probe3c
    case ReaderAsk(line) => s.reader == Idle && Small(s, |line|)
    case ReaderLock => s.reader.Asked? && s.lock == Free
    case ReaderAdd => s.reader.Holds?
    case ReaderSettle => s.reader.Counted?
    case Receive => s.writer == Working && s.receiving && s.queue != []
    case Write(n) => s.writer == Working && n <= s.held
    case DrainGate => s.writer.Drain?
    case DrainSubtract => s.writer.Subtract?
    case DrainNotify => s.writer == Notify
    case WriterLeaves => s.writer == Working && s.held == 0 && Closed(s)
    case BeginClose => true
    case Sever => s.closing == Swapped && s.lock == Free
    case Mark => s.closing == Severed
    case Zero => s.closing == Marked
    case NotifyAll => s.closing == Zeroed
  }

  function Put(s: State, p: nat, t: Task): State
    requires p < |s.tasks|
  {
    s.(tasks := s.tasks[p := t])
  }

  function AtPc(s: State, p: nat, pc: Pc): State
    requires p < |s.tasks|
  {
    Put(s, p, s.tasks[p].(pc := pc))
  }

  function Woken(t: Task): Task {
    match t.pc
    case Probe2(_) => t.(pc := Probe2(true))
    case Probe2b(_) => t.(pc := Probe2b(true))
    case Parked(_) => t.(pc := Parked(true))
    case _ => t
  }

  function WakeAll(ts: seq<Task>): (r: seq<Task>)
    ensures |r| == |ts| && forall i :: 0 <= i < |ts| ==> r[i] == Woken(ts[i])
  {
    if ts == [] then [] else [Woken(ts[0])] + WakeAll(ts[1..])
  }

  function StartClose(s: State): State {
    if s.closing == Open then s.(closing := Swapped) else s
  }

  /** The end of a push, under the lock: refused at the hard mark, dropped when nobody
      receives any more, or queued. */
  function SettlePush(s: State, p: nat): State
    requires Enabled(s, Settle(p))
  {
    var t := s.tasks[p];
    var len := |t.todo[0]|;
    var done := t.(todo := t.todo[1..], no := t.no + 1);
    if t.pc.before > s.hard then
      Put(s.(pending := WrapSub(s.pending, len), lock := Free), p, done.(pc := Refused))
    else if !s.receiving then
      Put(s.(pending := WrapSub(s.pending, len), lock := Free), p, done.(pc := Dead))
    else
      var f := Frame(FromPublisher(p), t.no, t.todo[0]);
      Put(s.(queue := s.queue + [f], log := s.log + [f], lock := Free), p,
          done.(pc := Ready, stall := t.stall + if t.pc.before > s.soft then 1 else 0))
  }

  function SettleControl(s: State): State
    requires s.reader.Counted?
  {
    var Counted(line, before) := s.reader;
    var s' := s.(reader := Idle, lock := Free, readerNo := s.readerNo + 1);
    if before > s.hard || !s.receiving then s'.(pending := WrapSub(s.pending, |line|))
    else
      var f := Frame(FromReader, s.readerNo, line);
      s'.(queue := s.queue + [f], log := s.log + [f])
  }

  function Drained(s: State): State
    requires s.writer.Subtract?
  {
    var n := s.writer.bytes;
    var was := s.pending;
    var left := if was >= n then was - n else 0;
    s.(pending := WrapSub(was, n), writer := if was > s.soft && left <= s.soft then Notify else Working)
  }

  /** A publisher's load of the `gone` flag: a closed queue counts as room. */
  function AfterGone(s: State, pc: Pc): Pc
    requires pc == Probe1 || pc.Probe2? || pc == Probe3
  {
    if Gone(s) then (if pc == Probe3 then Dead else Probe3)
    else match pc
         case Probe1 => Probe1b
         case Probe2(w) => Probe2b(w)
         case _ => Probe3b
  }

  /** A publisher's load of the counter. */
  function AfterCount(s: State, t: Task): Task
    requires t.pc == Probe1b || t.pc.Probe2b? || t.pc == Probe3b
  {
    if s.pending <= s.soft then (if t.pc == Probe3b then t.(pc := Ready, stall := if t.stall > 0 then t.stall - 1 else 0) else t.(pc := Probe3))
    else match t.pc
         case Probe1b => t.(pc := Enrol)
         case Probe2b(w) => t.(pc := Parked(w))
         case _ => t.(pc := Probe3c)
  }

  /** Steps that only move the task itself. */
  predicate IsLocal(a: Action) {
    a.Begin? || a.SeeOpen? || a.Stall? || a.LoadGone? || a.LoadCount? || a.Register? || a.WakeUp? || a.LoadClosed?
  }

  function Moved(s: State, a: Action): Task
    requires IsLocal(a) && Enabled(s, a)
  {
    var t := s.tasks[a.p];
    match a
    case Begin(_, frames) => t.(todo := frames)
    case SeeOpen(_) => t.(pc := if Closed(s) then Dead else Checked)
    case Stall(_) => t.(pc := if Closed(s) then Dead else Probe1)
    case LoadGone(_) => t.(pc := AfterGone(s, t.pc))
    case LoadCount(_) => AfterCount(s, t)
    case Register(_) => t.(pc := Probe2(false))
    case WakeUp(_) => t.(pc := Probe1)
    case LoadClosed(_) => t.(pc := if Closed(s) then Dead else Probe1)
  }

  function Next(s: State, a: Action): State
    requires Enabled(s, a)
  {
    if IsLocal(a) then Put(s, a.p, Moved(s, a)) else
    match a
    case TakeLock(p) => if HasSender(s) then AtPc(s.(lock := ByTask(p)), p, Locked) else AtPc(s, p, Dead)
    case AddBytes(p) =>
      var n := WrapAdd(s.pending, |s.tasks[p].todo[0]|);
      AtPc(s.(pending := n), p, Added(n))
    case Settle(p) => SettlePush(s, p)
    case CloseSlow(p) => AtPc(StartClose(s), p, Dead)
    case ReaderAsk(line) => if Closed(s) then s.(readerNo := s.readerNo + 1) else s.(reader := Asked(line))
    case ReaderLock =>
      if HasSender(s) then s.(lock := ByReader, reader := Holds(s.reader.line))
      else s.(reader := Idle, readerNo := s.readerNo + 1)
    case ReaderAdd =>
      var n := WrapAdd(s.pending, |s.reader.line|);
      s.(pending := n, reader := Counted(s.reader.line, n))
    case ReaderSettle => SettleControl(s)
    case Receive => s.(held := s.held + |s.queue[0].text|, queue := s.queue[1..])
    case Write(n) => s.(held := s.held - n, writer := Drain(n))
    case DrainGate => s.(writer := if Gone(s) then Working else Subtract(s.writer.bytes))
    case DrainSubtract => Drained(s)
    case DrainNotify => s.(writer := Working, tasks := WakeAll(s.tasks))
    case WriterLeaves => s.(receiving := false)
    case BeginClose => StartClose(s)
    case Sever => s.(closing := Severed)
    case Mark => s.(closing := Marked)
    case Zero => s.(closing := Zeroed, pending := 0)
    case NotifyAll => s.(closing := Done, tasks := WakeAll(s.tasks))
  }

  predicate IsRun(s: State, run: seq<Action>)
    decreases |run|
  {
    run == [] || (Enabled(s, run[0]) && IsRun(Next(s, run[0]), run[1..]))
  }

  function After(s: State, run: seq<Action>): State
    requires IsRun(s, run)
    decreases |run|
  {
    if run == [] then s else After(Next(s, run[0]), run[1..])
  }

  ghost predicate Kept(inv: State -> bool) {
    forall u, a :: Enabled(u, a) && inv(u) ==> inv(Next(u, a))
  }

  /** `t` can be reached from `s`: it has every property of `s` that all steps keep. */
  ghost predicate Reaches(s: State, t: State) {
    forall inv: State -> bool :: inv(s) && Kept(inv) ==> inv(t)
  }

  lemma {:induction false} RunSnoc(s: State, run: seq<Action>, a: Action)
    requires IsRun(s, run) && Enabled(After(s, run), a)
    ensures IsRun(s, run + [a]) && After(s, run + [a]) == Next(After(s, run), a)
    decreases |run|
  {
    if run == [] {
      assert [] + [a] == [a] && [a][1..] == [];
    } else {
      assert (run + [a])[1..] == run[1..] + [a];
      RunSnoc(Next(s, run[0]), run[1..], a);
    }
  }

  /** One more step. */
  lemma Then(s0: State, s: State, a: Action) returns (s': State)
    requires Reaches(s0, s) && Enabled(s, a)
    ensures s' == Next(s, a) && Reaches(s0, s')
  {
    s' := Next(s, a);
    forall inv: State -> bool | inv(s0) && Kept(inv)
      ensures inv(s')
    {
      assert inv(s);
    }
  }

  /** To be reachable is to be the end of a run. */
  lemma ReachedByRun(s: State, t: State)
    requires Reaches(s, t)
    ensures exists run :: IsRun(s, run) && After(s, run) == t
  {
    var inv := (u: State) => exists run :: IsRun(s, run) && After(s, run) == u;
    assert IsRun(s, []) && After(s, []) == s;
    forall u, a | Enabled(u, a) && inv(u)
      ensures inv(Next(u, a))
    {
      var run :| IsRun(s, run) && After(s, run) == u;
      RunSnoc(s, run, a);
    }
    assert Kept(inv);
  }

  // ----------------------------------------------------------------- accounting ---

  function Size(fs: seq<Frame>): nat {
    if fs == [] then 0 else |fs[0].text| + Size(fs[1..])
  }

  lemma {:induction false} SizeSnoc(fs: seq<Frame>, f: Frame)
    ensures Size(fs + [f]) == Size(fs) + |f.text|
  {
    if fs == [] {
      assert fs + [f] == [f];
    } else {
      assert (fs + [f])[1..] == fs[1..] + [f];
      SizeSnoc(fs[1..], f);
    }
  }

  function Draining(s: State): nat {
    match s.writer
    case Drain(n) => n
    case Subtract(n) => n
    case _ => 0
  }

  /** Bytes accepted and not yet subtracted. */
  function Accepted(s: State): nat {
    Size(s.queue) + s.held + Draining(s)
  }

  /** Bytes of the push in flight: the lock admits one at a time. */
  function InFlight(s: State): nat {
    match s.lock
    case Free => 0
    case ByTask(p) => if p < |s.tasks| && s.tasks[p].pc.Added? && s.tasks[p].todo != [] then |s.tasks[p].todo[0]| else 0
    case ByReader => if s.reader.Counted? then |s.reader.line| else 0
  }

  /** Who holds the lock, and that it is held only while the sender is there. */
  predicate LockInv(s: State) {
    && (s.lock != Free ==> HasSender(s))
    && (s.lock.ByTask? ==> s.lock.id < |s.tasks|)
    && (s.lock == ByReader <==> s.reader.Holds? || s.reader.Counted?)
    && (forall p :: 0 <= p < |s.tasks| ==> (s.lock == ByTask(p) <==> s.tasks[p].pc == Locked || s.tasks[p].pc.Added?))
    && (!s.receiving ==> Closed(s))
  }

  predicate TaskInv(s: State, t: Task) {
    && (t.pc == Checked || t.pc == Locked || t.pc.Added? ==> t.todo != [])
    && (forall i :: 0 <= i < |t.todo| ==> Small(s, |t.todo[i]|))
    && (t.pc.Added? ==> s.pending <= t.pc.before)
  }

  predicate ReaderInv(s: State) {
    match s.reader
    case Idle => true
    case Asked(line) => Small(s, |line|)
    case Holds(line) => Small(s, |line|)
    case Counted(line, before) => Small(s, |line|) && s.pending <= before
  }

  predicate CountInv(s: State) {
    && s.soft <= s.hard
    && (!Gone(s) ==> s.pending == Accepted(s) + InFlight(s) && Accepted(s) <= s.hard)
  }

  /** The counter is exact while the queue lives: it is the bytes queued, held by the
      writer or being subtracted, plus the one push in flight. */
  predicate Exact(s: State) {
    LockInv(s) && CountInv(s) && ReaderInv(s) && forall p :: 0 <= p < |s.tasks| ==> TaskInv(s, s.tasks[p])
  }

  lemma InitExact(hard: nat, n: nat)
    requires hard < U64
    ensures Exact(Init(hard, n))
  {
  }

  predicate Holding(pc: Pc) { pc == Locked || pc.Added? }

  lemma ExactPut(s: State, p: nat, t: Task)
    requires Exact(s) && p < |s.tasks| && !Holding(s.tasks[p].pc) && !Holding(t.pc) && TaskInv(s, t)
    ensures Exact(Put(s, p, t))
  {
    assert s.lock != ByTask(p);
  }

  lemma ExactLocal(s: State, a: Action)
    requires Exact(s) && Enabled(s, a) && IsLocal(a)
    ensures Exact(Next(s, a))
  {
    var t := Moved(s, a);
    assert TaskInv(s, s.tasks[a.p]);
    ExactPut(s, a.p, t);
  }

  lemma WokenKeeps(s: State, s': State, t: Task)
    requires TaskInv(s, t) && s'.hard == s.hard && s'.pending == s.pending
    ensures TaskInv(s', Woken(t)) && (Holding(Woken(t).pc) <==> Holding(t.pc)) && (Holding(t.pc) ==> Woken(t) == t)
  {
  }

  lemma ExactWake(s: State)
    requires Exact(s)
    ensures Exact(s.(tasks := WakeAll(s.tasks)))
  {
    var s' := s.(tasks := WakeAll(s.tasks));
    forall p | 0 <= p < |s.tasks|
      ensures TaskInv(s', s'.tasks[p]) && (Holding(s'.tasks[p].pc) <==> s.lock == ByTask(p))
      ensures Holding(s.tasks[p].pc) ==> s'.tasks[p] == s.tasks[p]
    {
      WokenKeeps(s, s', s.tasks[p]);
    }
    assert InFlight(s') == InFlight(s);
  }

  /** The lock is given back with the counter equal to what has been accepted. */
  lemma ExactRelease(s: State, s1: State, p: nat, t: Task)
    requires Exact(s) && s.lock == ByTask(p) && !Holding(t.pc)
    requires s1 == s.(lock := Free, queue := s1.queue, log := s1.log, pending := s1.pending)
    requires s1.pending == Accepted(s1) <= s.hard && s1.pending <= s.pending
    requires forall i :: 0 <= i < |t.todo| ==> Small(s, |t.todo[i]|)
    requires t.pc != Checked
    ensures Exact(Put(s1, p, t))
  {
    var s' := Put(s1, p, t);
    forall q | 0 <= q < |s'.tasks|
      ensures TaskInv(s', s'.tasks[q])
    {
      assert TaskInv(s, s.tasks[q]);
    }
  }

  lemma ExactSettle(s: State, p: nat)
    requires Exact(s) && Enabled(s, Settle(p))
    ensures Exact(SettlePush(s, p))
  {
    var t, s' := s.tasks[p], SettlePush(s, p);
    assert s.lock == ByTask(p) && TaskInv(s, t);
    SizeSnoc(s.queue, Frame(FromPublisher(p), t.no, t.todo[0]));
    ExactRelease(s, s.(lock := Free, queue := s'.queue, log := s'.log, pending := s'.pending), p, s'.tasks[p]);
  }

  lemma ExactAdd(s: State, p: nat)
    requires Exact(s) && Enabled(s, AddBytes(p))
    ensures Exact(Next(s, AddBytes(p)))
  {
    assert s.lock == ByTask(p);
    assert TaskInv(s, s.tasks[p]);
    assert Small(s, |s.tasks[p].todo[0]|);
  }

  lemma ExactLock(s: State, p: nat)
    requires Exact(s) && Enabled(s, TakeLock(p))
    ensures Exact(Next(s, TakeLock(p)))
  {
    assert TaskInv(s, s.tasks[p]);
    if !HasSender(s) {
      ExactPut(s, p, s.tasks[p].(pc := Dead));
    }
  }

  lemma ExactReader(s: State, a: Action)
    requires Exact(s) && Enabled(s, a) && (a.ReaderAsk? || a.ReaderLock?)
    ensures Exact(Next(s, a))
  {
  }

  lemma ExactReaderAdd(s: State)
    requires Exact(s) && s.reader.Holds?
    ensures Exact(Next(s, ReaderAdd))
  {
    assert s.lock == ByReader;
  }

  lemma ExactReaderSettle(s: State)
    requires Exact(s) && s.reader.Counted?
    ensures Exact(SettleControl(s))
  {
    SizeSnoc(s.queue, Frame(FromReader, s.readerNo, s.reader.line));
  }

  lemma ExactReceive(s: State)
    requires Exact(s) && Enabled(s, Receive)
    ensures Exact(Next(s, Receive))
  {
    assert Accepted(Next(s, Receive)) == Accepted(s);
  }

  lemma ExactWriter(s: State, a: Action)
    requires Exact(s) && Enabled(s, a) && (a.Write? || a.DrainGate? || a.WriterLeaves?)
    ensures Exact(Next(s, a))
  {
  }

  lemma ExactDrained(s: State)
    requires Exact(s) && s.writer.Subtract?
    ensures Exact(Drained(s))
  {
    var s' := Drained(s);
    forall p | 0 <= p < |s.tasks|
      ensures TaskInv(s', s'.tasks[p])
    {
      assert TaskInv(s, s.tasks[p]);
    }
  }

  lemma ExactClose(s: State)
    requires Exact(s)
    ensures Exact(StartClose(s))
  {
  }

  lemma ExactFinish(s: State, a: Action)
    requires Exact(s) && Enabled(s, a) && (a.Sever? || a.Mark? || a.Zero?)
    ensures Exact(Next(s, a))
  {
  }

  lemma ExactStep(s: State, a: Action)
    requires Exact(s) && Enabled(s, a)
    ensures Exact(Next(s, a))
  {
    if IsLocal(a) {
      ExactLocal(s, a);
    } else {
      match a
      case TakeLock(p) => ExactLock(s, p);
      case AddBytes(p) => ExactAdd(s, p);
      case Settle(p) => ExactSettle(s, p);
      case CloseSlow(p) =>
        ExactClose(s);
        ExactPut(StartClose(s), p, s.tasks[p].(pc := Dead));
      case DrainNotify =>
        ExactWake(s);
        ExactQuiet(s.(tasks := WakeAll(s.tasks)));
      case DrainSubtract => ExactDrained(s);
      case BeginClose => ExactClose(s);
      case NotifyAll => ExactWake(s.(closing := Done));
      case Sever => ExactFinish(s, a);
      case Mark => ExactFinish(s, a);
      case Zero => ExactFinish(s, a);
      case ReaderAsk(_) => ExactReader(s, a);
      case ReaderLock => ExactReader(s, a);
      case ReaderAdd => ExactReaderAdd(s);
      case ReaderSettle => ExactReaderSettle(s);
      case Receive => ExactReceive(s);
      case _ => ExactWriter(s, a);
    }
  }

  lemma ExactQuiet(s: State)
    requires Exact(s) && s.writer == Notify
    ensures Exact(s.(writer := Working))
  {
  }

  lemma {:induction false} ExactRun(s: State, run: seq<Action>)
    requires Exact(s) && IsRun(s, run)
    ensures Exact(After(s, run))
    decreases |run|
  {
    if run != [] {
      ExactStep(s, run[0]);
      ExactRun(Next(s, run[0]), run[1..]);
    }
  }

  /** Over every run: while the queue lives its counter is exact, what was accepted is
      within the hard mark and no subtraction underflows; once it is gone there is room. */
  lemma Accounting(hard: nat, n: nat, run: seq<Action>)
    requires hard < U64 && IsRun(Init(hard, n), run)
    ensures var s := After(Init(hard, n), run);
            && (!Gone(s) ==> s.pending == Accepted(s) + InFlight(s) && Accepted(s) <= s.hard)
            && (!Gone(s) && s.writer.Subtract? ==> s.writer.bytes <= s.pending)
            && (Gone(s) ==> Room(s))
  {
    InitExact(hard, n);
    ExactRun(Init(hard, n), run);
  }
}
