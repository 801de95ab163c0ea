/** Order: what a source published is on the queue, and goes to the writer, as it was
    published and in the order it was published. */
module OutboxOrder {
  import opened ByteStrings
  import opened Outbox

  /** The frames publisher `p` publishes here in a run: those of its messages, in order. */
  function Published(run: seq<Action>, p: nat): seq<Bytes> {
    if run == [] then [] else
    (if run[0].Begin? && run[0].p == p then run[0].frames else []) + Published(run[1..], p)
  }

  /** The control lines the connection's reader answers with. */
  function Answered(run: seq<Action>): seq<Bytes> {
    if run == [] then [] else
    (if run[0].ReaderAsk? then [run[0].line] else []) + Answered(run[1..])
  }

  /** What each source has published so far. */
  datatype History = History(said: seq<seq<Bytes>>, asked: seq<Bytes>)

  function Silence(n: nat): (ss: seq<seq<Bytes>>)
    ensures |ss| == n && forall i :: 0 <= i < n ==> ss[i] == []
  {
    if n == 0 then [] else [[]] + Silence(n - 1)
  }

  function Note(h: History, a: Action): History {
    match a
    case Begin(p, frames) => if p < |h.said| then h.(said := h.said[p := h.said[p] + frames]) else h
    case ReaderAsk(line) => h.(asked := h.asked + [line])
    case _ => h
  }

  function Noted(h: History, run: seq<Action>): History
    decreases |run|
  {
    if run == [] then h else Noted(Note(h, run[0]), run[1..])
  }

  /** A task has offered the first `no` of its frames and has the others to do. */
  predicate TaskAt(t: Task, said: seq<Bytes>) {
    t.no <= |said| && t.todo == said[t.no..]
  }

  function Underway(r: ReaderPc): seq<Bytes> {
    if r == Idle then [] else [r.line]
  }

  /** Where everyone stands in what they publish. */
  predicate Placed(h: History, s: State) {
    && |h.said| == |s.tasks|
    && (forall p :: 0 <= p < |s.tasks| ==> TaskAt(s.tasks[p], h.said[p]))
    && s.readerNo <= |h.asked| && h.asked[s.readerNo..] == Underway(s.reader)
  }

  /** The frame is the one its source published under that number. */
  predicate IsThe(h: History, f: Frame) {
    match f.from
    case FromPublisher(p) => p < |h.said| && f.no < |h.said[p]| && f.text == h.said[p][f.no]
    case FromReader => f.no < |h.asked| && f.text == h.asked[f.no]
  }

  /** How many frames a source has offered. */
  function Offered(s: State, from: Source): nat {
    match from
    case FromPublisher(p) => if p < |s.tasks| then s.tasks[p].no else 0
    case FromReader => s.readerNo
  }

  /** Every frame accepted was offered, and of two frames of one source the one accepted
      first was offered first. */
  predicate InOrder(s: State) {
    && (forall i :: 0 <= i < |s.log| ==> s.log[i].no < Offered(s, s.log[i].from))
    && (forall i, j :: 0 <= i < j < |s.log| && s.log[i].from == s.log[j].from ==> s.log[i].no < s.log[j].no)
  }

  predicate Genuine(h: History, log: seq<Frame>) {
    forall i :: 0 <= i < |log| ==> IsThe(h, log[i])
  }

  /** What the writer has not taken yet is the tail of what was accepted. */
  predicate TailQueued(s: State) {
    |s.queue| <= |s.log| && s.queue == s.log[|s.log| - |s.queue|..]
  }

  // ------------------------------------------------------------------- step by step ---

  /** More is published, nothing is changed. */
  lemma StillThe(h: History, a: Action, f: Frame)
    requires IsThe(h, f)
    ensures IsThe(Note(h, a), f)
  {
  }

  /** Everyone has the frames to do that they had. */
  predicate SameWork(s: State, s': State) {
    && |s'.tasks| == |s.tasks|
    && forall p :: 0 <= p < |s.tasks| ==> s'.tasks[p].todo == s.tasks[p].todo && s'.tasks[p].no == s.tasks[p].no
  }

  /** Only a new message and the end of a push change that. */
  lemma WorkStep(s: State, a: Action)
    requires Enabled(s, a) && !a.Begin? && !a.Settle?
    ensures SameWork(s, Next(s, a))
  {
    if IsLocal(a) {
      MoveWork(s, a);
    } else if a.DrainNotify? || a.NotifyAll? {
      WakeWork(s, Next(s, a));
    }
  }

  lemma MoveWork(s: State, a: Action)
    requires Enabled(s, a) && IsLocal(a) && !a.Begin?
    ensures SameWork(s, Next(s, a))
  {
    assert Moved(s, a).todo == s.tasks[a.p].todo && Moved(s, a).no == s.tasks[a.p].no;
  }

  lemma WakeWork(s: State, s': State)
    requires s'.tasks == WakeAll(s.tasks)
    ensures SameWork(s, s')
  {
  }

  lemma PlacedSame(h: History, s: State, s': State)
    requires Placed(h, s) && SameWork(s, s') && s'.reader == s.reader && s'.readerNo == s.readerNo
    ensures Placed(h, s')
  {
    forall p | 0 <= p < |s'.tasks|
      ensures TaskAt(s'.tasks[p], h.said[p])
    {
      assert TaskAt(s.tasks[p], h.said[p]);
    }
  }

  lemma PlacedBegin(h: History, s: State, p: nat, frames: seq<Bytes>)
    requires Placed(h, s) && Enabled(s, Begin(p, frames))
    ensures Placed(Note(h, Begin(p, frames)), Next(s, Begin(p, frames)))
  {
    var h', s' := Note(h, Begin(p, frames)), Next(s, Begin(p, frames));
    forall q | 0 <= q < |s'.tasks|
      ensures TaskAt(s'.tasks[q], h'.said[q])
    {
      assert TaskAt(s.tasks[q], h.said[q]);
      assert q == p ==> (h.said[p] + frames)[|h.said[p]|..] == frames;
    }
  }

  lemma PlacedSettle(h: History, s: State, p: nat)
    requires Placed(h, s) && Enabled(s, Settle(p))
    ensures Placed(h, SettlePush(s, p))
    ensures IsThe(h, Frame(FromPublisher(p), s.tasks[p].no, s.tasks[p].todo[0]))
  {
    var s' := SettlePush(s, p);
    forall q | 0 <= q < |s'.tasks|
      ensures TaskAt(s'.tasks[q], h.said[q])
    {
      assert TaskAt(s.tasks[q], h.said[q]);
    }
    assert TaskAt(s.tasks[p], h.said[p]);
  }

  lemma PlacedReader(h: History, s: State, a: Action)
    requires Placed(h, s) && Enabled(s, a) && (a.ReaderAsk? || a.ReaderLock? || a.ReaderAdd? || a.ReaderSettle?)
    ensures Placed(Note(h, a), Next(s, a))
    ensures s.reader.Counted? ==> IsThe(h, Frame(FromReader, s.readerNo, s.reader.line))
  {
    WorkStep(s, a);
    assert s.reader != Idle ==> h.asked[s.readerNo..][0] == s.reader.line;
    if a.ReaderAsk? {
      assert (h.asked + [a.line])[|h.asked|..] == [a.line];
    }
  }

  lemma ReaderStays(s: State, a: Action)
    requires Enabled(s, a) && !a.ReaderAsk? && !a.ReaderLock? && !a.ReaderAdd? && !a.ReaderSettle?
    ensures Next(s, a).reader == s.reader && Next(s, a).readerNo == s.readerNo
  {
  }

  lemma PlacedStep(h: History, s: State, a: Action)
    requires Placed(h, s) && Enabled(s, a)
    ensures Placed(Note(h, a), Next(s, a))
  {
    if a.Begin? {
      PlacedBegin(h, s, a.p, a.frames);
    } else if a.Settle? {
      PlacedSettle(h, s, a.p);
    } else if a.ReaderAsk? || a.ReaderLock? || a.ReaderAdd? || a.ReaderSettle? {
      PlacedReader(h, s, a);
    } else {
      WorkStep(s, a);
      ReaderStays(s, a);
      PlacedSame(h, s, Next(s, a));
    }
  }

  /** The queue loses its head to the writer, or gains what the log gains, or is left alone;
      what it gains is the frame its source offers next. */
  predicate Grows(s: State, s': State, f: Frame) {
    && s'.log == s.log + [f] && s'.queue == s.queue + [f]
    && f.no == Offered(s, f.from) < Offered(s', f.from)
  }

  function Gained(s: State, a: Action): Frame
    requires Enabled(s, a) && (a.Settle? || a.ReaderSettle?)
  {
    if a.Settle? then Frame(FromPublisher(a.p), s.tasks[a.p].no, s.tasks[a.p].todo[0])
    else Frame(FromReader, s.readerNo, s.reader.line)
  }

  lemma QueueStep(s: State, a: Action)
    requires Enabled(s, a)
    ensures var s' := Next(s, a);
            if a == Receive then s'.log == s.log && s'.queue == s.queue[1..]
            else (s'.log == s.log && s'.queue == s.queue)
                 || ((a.Settle? || a.ReaderSettle?) && Grows(s, s', Gained(s, a)))
  {
  }

  lemma CountsRise(s: State, a: Action)
    requires Enabled(s, a)
    ensures var s' := Next(s, a);
            && s'.readerNo >= s.readerNo && |s'.tasks| == |s.tasks|
            && forall p :: 0 <= p < |s.tasks| ==> s'.tasks[p].no >= s.tasks[p].no
  {
    if !a.Begin? && !a.Settle? {
      WorkStep(s, a);
    }
  }

  lemma OrderKept(s: State, s': State)
    requires InOrder(s) && s'.log == s.log && s'.readerNo >= s.readerNo
    requires |s'.tasks| == |s.tasks| && forall p :: 0 <= p < |s.tasks| ==> s'.tasks[p].no >= s.tasks[p].no
    ensures InOrder(s')
  {
  }

  lemma OrderGrows(s: State, s': State, f: Frame)
    requires InOrder(s) && Grows(s, s', f)
    requires s'.readerNo >= s.readerNo && |s'.tasks| == |s.tasks|
    requires forall p :: 0 <= p < |s.tasks| ==> s'.tasks[p].no >= s.tasks[p].no
    ensures InOrder(s')
  {
  }

  lemma OrderStep(s: State, a: Action)
    requires InOrder(s) && Enabled(s, a)
    ensures InOrder(Next(s, a))
  {
    QueueStep(s, a);
    CountsRise(s, a);
    var s' := Next(s, a);
    if s'.log == s.log {
      OrderKept(s, s');
    } else {
      OrderGrows(s, s', Gained(s, a));
    }
  }

  lemma GenuineStep(h: History, s: State, a: Action)
    requires Placed(h, s) && Genuine(h, s.log) && Enabled(s, a)
    ensures Genuine(Note(h, a), Next(s, a).log)
  {
    QueueStep(s, a);
    forall i | 0 <= i < |s.log|
      ensures IsThe(Note(h, a), s.log[i])
    {
      StillThe(h, a, s.log[i]);
    }
    if a.Settle? {
      PlacedSettle(h, s, a.p);
    } else if a.ReaderSettle? {
      PlacedReader(h, s, a);
    }
  }

  lemma TailKept(s: State, s': State, taken: bool)
    requires TailQueued(s) && (taken ==> s.queue != [])
    requires if taken then s'.log == s.log && s'.queue == s.queue[1..]
             else (s'.log == s.log && s'.queue == s.queue)
                  || exists f :: s'.log == s.log + [f] && s'.queue == s.queue + [f]
    ensures TailQueued(s')
  {
  }

  lemma TailStep(s: State, a: Action)
    requires TailQueued(s) && Enabled(s, a)
    ensures TailQueued(Next(s, a)) && s.log <= Next(s, a).log
  {
    QueueStep(s, a);
    TailKept(s, Next(s, a), a == Receive);
  }

  // ---------------------------------------------------------------------- every run ---

  lemma {:induction false} OrderRun(h: History, s: State, run: seq<Action>)
    requires Placed(h, s) && Genuine(h, s.log) && InOrder(s) && TailQueued(s) && IsRun(s, run)
    ensures var s' := After(s, run);
            && Genuine(Noted(h, run), s'.log) && InOrder(s') && TailQueued(s') && s.log <= s'.log
    decreases |run|
  {
    if run != [] {
      PlacedStep(h, s, run[0]);
      GenuineStep(h, s, run[0]);
      OrderStep(s, run[0]);
      TailStep(s, run[0]);
      OrderRun(Note(h, run[0]), Next(s, run[0]), run[1..]);
    }
  }

  lemma NotedOne(h: History, a: Action, p: nat)
    requires p < |h.said|
    ensures |Note(h, a).said| == |h.said|
    ensures Note(h, a).said[p] == h.said[p] + if a.Begin? && a.p == p then a.frames else []
  {
  }

  /** The history of a run is what its steps published. */
  lemma {:induction false} NotedIs(h: History, run: seq<Action>)
    ensures var h' := Noted(h, run);
            && |h'.said| == |h.said| && h'.asked == h.asked + Answered(run)
            && forall p :: 0 <= p < |h.said| ==> h'.said[p] == h.said[p] + Published(run, p)
    decreases |run|
  {
    if run != [] {
      var h1 := Note(h, run[0]);
      NotedIs(h1, run[1..]);
      forall p | 0 <= p < |h.said|
        ensures Noted(h, run).said[p] == h.said[p] + Published(run, p)
      {
        var now := if run[0].Begin? && run[0].p == p then run[0].frames else [];
        NotedOne(h, run[0], p);
        Assoc(h.said[p], now, Published(run[1..], p));
      }
      Assoc(h.asked, if run[0].ReaderAsk? then [run[0].line] else [], Answered(run[1..]));
    }
  }

  /** The frame is the one its source published under that number in this run. */
  predicate FromRun(run: seq<Action>, n: nat, f: Frame) {
    match f.from
    case FromPublisher(p) => p < n && f.no < |Published(run, p)| && f.text == Published(run, p)[f.no]
    case FromReader => f.no < |Answered(run)| && f.text == Answered(run)[f.no]
  }

  /** Over every run: each frame accepted is the frame its source published under its number,
      and along the queue the numbers of one source increase; so what is queued of a source
      is a subsequence of what it published, in its order. What the writer was given is a
      prefix of that, and what was accepted is never taken back. */
  lemma PublishOrder(hard: nat, n: nat, run: seq<Action>)
    requires IsRun(Init(hard, n), run)
    ensures var s := After(Init(hard, n), run);
            && (forall i :: 0 <= i < |s.log| ==> FromRun(run, n, s.log[i]))
            && (forall i, j :: 0 <= i < j < |s.log| && s.log[i].from == s.log[j].from ==> s.log[i].no < s.log[j].no)
            && |s.queue| <= |s.log| && s.queue == s.log[|s.log| - |s.queue|..]
  {
    var h := History(Silence(n), []);
    var s := After(Init(hard, n), run);
    OrderRun(h, Init(hard, n), run);
    NotedIs(h, run);
    forall i | 0 <= i < |s.log|
      ensures FromRun(run, n, s.log[i])
    {
      assert IsThe(Noted(h, run), s.log[i]);
    }
  }
}
