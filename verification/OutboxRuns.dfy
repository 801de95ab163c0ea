/** Stretches of runs that nobody interrupts, and a race they lead to. */
module OutboxRuns {
  import opened ByteStrings
  import opened Decimal
  import opened Outbox

  /** A push nobody interrupts. */
  lemma WholePush(s0: State, s: State, p: nat) returns (s': State)
    requires Reaches(s0, s) && Enabled(s, SeeOpen(p)) && s.closing == Open && s.lock == Free && s.receiving
    requires s.pending + |s.tasks[p].todo[0]| <= s.hard < U64
    ensures Reaches(s0, s')
    ensures var t := s.tasks[p];
            var f, n := Frame(FromPublisher(p), t.no, t.todo[0]), s.pending + |t.todo[0]|;
            s' == s.(pending := n, queue := s.queue + [f], log := s.log + [f],
                     tasks := s.tasks[p := Task(Ready, t.todo[1..], t.no + 1, t.stall + if n > s.soft then 1 else 0)])
  {
    s' := Then(s0, s, SeeOpen(p));
    s' := Then(s0, s', TakeLock(p));
    s' := Then(s0, s', AddBytes(p));
    s' := Then(s0, s', Settle(p));
  }

  /** A stalled publisher goes to sleep over a queue that stays above its soft mark. */
  lemma Park(s0: State, s: State, p: nat) returns (s': State)
    requires Reaches(s0, s) && Enabled(s, Stall(p)) && s.closing == Open && s.pending > s.soft
    ensures Reaches(s0, s') && s' == AtPc(s, p, Parked(false))
  {
    s' := FirstLook(s0, s, p);
    s' := Then(s0, s', Register(p));
    s' := Then(s0, s', LoadGone(p));
    s' := Then(s0, s', LoadCount(p));
  }

  lemma FirstLook(s0: State, s: State, p: nat) returns (s': State)
    requires Reaches(s0, s) && Enabled(s, Stall(p)) && s.closing == Open && s.pending > s.soft
    ensures Reaches(s0, s') && s' == AtPc(s, p, Enrol)
  {
    s' := Then(s0, s, Stall(p));
    s' := Then(s0, s', LoadGone(p));
    s' := Then(s0, s', LoadCount(p));
  }

  /** A control line up to where its bytes are in the counter. */
  lemma HalfControl(s0: State, s: State, line: Bytes) returns (s': State)
    requires Reaches(s0, s) && Enabled(s, ReaderAsk(line)) && s.closing == Open && s.lock == Free && s.pending <= s.hard
    ensures var n := s.pending + |line|;
            Reaches(s0, s') && s' == s.(lock := ByReader, pending := n, reader := Counted(line, n))
  {
    s' := Then(s0, s, ReaderAsk(line));
    s' := Then(s0, s', ReaderLock);
    s' := Then(s0, s', ReaderAdd);
  }

  /** A write whose drain does not see the mark crossed. */
  lemma WholeDrain(s0: State, s: State, n: nat) returns (s': State)
    requires Reaches(s0, s) && Enabled(s, Write(n)) && s.closing == Open && n <= s.pending
    requires s.pending <= s.soft || s.pending - n > s.soft
    ensures Reaches(s0, s') && s' == s.(held := s.held - n, pending := s.pending - n)
  {
    s' := Then(s0, s, Write(n));
    s' := Then(s0, s', DrainGate);
    s' := Then(s0, s', DrainSubtract);
  }

  // -------------------------------------------------------------- a race at the close ---

  /** The counter has wrapped to `n` below the top of the word, and there is room all the
      same. */
  predicate Wrapped(s: State, n: nat) {
    n < U64 && s.pending == U64 - n > s.hard && Gone(s) && Room(s)
  }

  /** The race the `gone` flag is for, with any one frame: a drain that passed its gate before
      the close zeroed the counter takes the frame's bytes from zero. */
  lemma RacingDrainWraps(hard: nat, text: Bytes)
    requires 0 < |text| <= hard && hard + |text| < U64
    ensures exists run :: IsRun(Init(hard, 1), run) && Wrapped(After(Init(hard, 1), run), |text|)
  {
    var s0 := Init(hard, 1);
    var s := PastTheGate(hard, text);
    s := ZeroedAt(s0, s);
    s := Then(s0, s, DrainSubtract);
    ReachedByRun(s0, s);
  }

  /** A close up to where the counter is zero. */
  lemma ZeroedAt(s0: State, s: State) returns (s': State)
    requires Reaches(s0, s) && s.closing == Open && s.lock == Free
    ensures Reaches(s0, s') && s' == s.(closing := Zeroed, pending := 0)
  {
    s' := Then(s0, s, BeginClose);
    s' := Then(s0, s', Sever);
    s' := Then(s0, s', Mark);
    s' := Then(s0, s', Zero);
  }

  lemma PastTheGate(hard: nat, text: Bytes) returns (s: State)
    requires 0 < |text| <= hard && hard + |text| < U64
    ensures Reaches(Init(hard, 1), s)
    ensures s.hard == hard && s.closing == Open && s.lock == Free && s.writer == Subtract(|text|)
  {
    var s0 := Init(hard, 1);
    s := Then(s0, s0, Begin(0, [text]));
    s := WholePush(s0, s, 0);
    s := Then(s0, s, Receive);
    s := Then(s0, s, Write(|text|));
    s := Then(s0, s, DrainGate);
  }

  /** Zeroed, and no drain past its gate with bytes to subtract. */
  predicate AtZero(s: State) {
    && (s.closing == Zeroed || s.closing == Done) && s.pending == 0 && s.lock == Free
    && !s.reader.Holds? && !s.reader.Counted? && !(s.writer.Subtract? && s.writer.bytes > 0)
    && forall p :: 0 <= p < |s.tasks| ==> !Holding(s.tasks[p].pc)
  }

  lemma AtZeroStep(s: State, a: Action)
    requires AtZero(s) && Enabled(s, a)
    ensures AtZero(Next(s, a))
  {
    if IsLocal(a) {
      assert !Holding(Moved(s, a).pc);
    } else if a.AddBytes? || a.Settle? {
      assert Holding(s.tasks[a.p].pc);
    }
  }

  lemma {:induction false} AtZeroRun(s: State, later: seq<Action>)
    requires AtZero(s) && IsRun(s, later)
    ensures AtZero(After(s, later))
    decreases |later|
  {
    if later != [] {
      AtZeroStep(s, later[0]);
      AtZeroRun(Next(s, later[0]), later[1..]);
    }
  }

  /** What the gate is for: once the close has zeroed the counter, it is zero for good, but for a
      drain that was past the gate by then. */
  lemma ZeroStays(hard: nat, n: nat, run: seq<Action>, later: seq<Action>)
    requires hard < U64 && IsRun(Init(hard, n), run)
    requires var s := After(Init(hard, n), run);
             && (s.closing == Zeroed || s.closing == Done) && s.pending == 0
             && !(s.writer.Subtract? && s.writer.bytes > 0) && IsRun(s, later)
    ensures After(After(Init(hard, n), run), later).pending == 0
  {
    InitExact(hard, n);
    ExactRun(Init(hard, n), run);
    AtZeroRun(After(Init(hard, n), run), later);
  }
}
