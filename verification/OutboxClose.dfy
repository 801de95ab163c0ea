/** What a close stops: nobody who looks after it queues anything, or waits for room. */
module OutboxClose {
  import opened ByteStrings
  import opened Outbox

  /** The publisher saw the connection open and is at its push. */
  predicate PastLook(t: Task) { t.pc == Checked || t.pc == Locked || t.pc.Added? }

  function Underway(ts: seq<Task>): nat {
    if ts == [] then 0 else (if PastLook(ts[0]) then 1 else 0) + Underway(ts[1..])
  }

  /** The pushes under way: one for each such publisher, and the reader's. */
  function Pushes(s: State): nat {
    Underway(s.tasks) + if s.reader.Idle? then 0 else 1
  }

  lemma {:induction false} UnderwayUpdate(ts: seq<Task>, p: nat, t: Task)
    requires p < |ts|
    ensures Underway(ts[p := t]) == Underway(ts) - (if PastLook(ts[p]) then 1 else 0) + (if PastLook(t) then 1 else 0)
  {
    if p == 0 {
      assert ts[0 := t][1..] == ts[1..];
    } else {
      assert ts[p := t][1..] == ts[1..][p - 1 := t];
      UnderwayUpdate(ts[1..], p - 1, t);
    }
  }

  lemma {:induction false} UnderwayWoken(ts: seq<Task>)
    ensures Underway(WakeAll(ts)) == Underway(ts)
  {
    if ts != [] {
      UnderwayWoken(ts[1..]);
      assert WakeAll(ts)[1..] == WakeAll(ts[1..]);
    }
  }

  /** A publisher's step. */
  predicate OfTask(a: Action) {
    IsLocal(a) || a.TakeLock? || a.AddBytes? || a.Settle? || a.CloseSlow?
  }

  /** From `s` to `s'` only task `p` moved: to a push only if the connection was open, and from one
      if a frame was accepted. */
  predicate MovesOne(s: State, s': State, p: nat) {
    && p < |s.tasks| == |s'.tasks| && s'.tasks == s.tasks[p := s'.tasks[p]] && s'.reader == s.reader
    && (PastLook(s'.tasks[p]) && !PastLook(s.tasks[p]) ==> !Closed(s))
    && (s'.log != s.log ==> PastLook(s.tasks[p]) && !PastLook(s'.tasks[p]) && |s'.log| == |s.log| + 1)
  }

  lemma LocalMoves(s: State, a: Action)
    requires Enabled(s, a) && IsLocal(a)
    ensures MovesOne(s, Next(s, a), a.p)
  {
  }

  lemma PushMoves(s: State, a: Action)
    requires Enabled(s, a) && (a.TakeLock? || a.AddBytes? || a.Settle? || a.CloseSlow?)
    ensures MovesOne(s, Next(s, a), a.p)
  {
  }

  lemma TaskMoves(s: State, a: Action)
    requires Enabled(s, a) && OfTask(a)
    ensures MovesOne(s, Next(s, a), a.p)
  {
    if IsLocal(a) {
      LocalMoves(s, a);
    } else {
      PushMoves(s, a);
    }
  }

  lemma OthersStay(s: State, a: Action)
    requires Enabled(s, a) && !OfTask(a)
    ensures var s' := Next(s, a);
            && (s'.tasks == s.tasks || s'.tasks == WakeAll(s.tasks))
            && (s.reader.Idle? && !s'.reader.Idle? ==> !Closed(s))
            && (s'.log != s.log ==> !s.reader.Idle? && s'.reader.Idle? && |s'.log| == |s.log| + 1)
  {
  }

  lemma FewerStep(s: State, a: Action)
    requires Closed(s) && Enabled(s, a)
    ensures var s' := Next(s, a); Closed(s') && |s'.log| + Pushes(s') <= |s.log| + Pushes(s)
  {
    if OfTask(a) {
      TaskMoves(s, a);
      UnderwayUpdate(s.tasks, a.p, Next(s, a).tasks[a.p]);
    } else {
      OthersStay(s, a);
      UnderwayWoken(s.tasks);
    }
  }

  /** Over every run from where the close has begun: no more frames are accepted than pushes were
      under way by then, one for each publisher that had seen the connection open and one for the
      reader. */
  lemma {:induction false} FewAfterClose(s: State, later: seq<Action>)
    requires Closed(s) && IsRun(s, later)
    ensures |After(s, later).log| + Pushes(After(s, later)) <= |s.log| + Pushes(s)
    decreases |later|
  {
    if later != [] {
      FewerStep(s, later[0]);
      FewAfterClose(Next(s, later[0]), later[1..]);
    }
  }

  /** A publisher that comes to a closed connection, to push or to wait, or looks up from waiting,
      is done with it. */
  lemma ClosedStops(s: State, a: Action)
    requires Closed(s) && Enabled(s, a) && (a.SeeOpen? || a.Stall? || a.LoadClosed?)
    ensures Next(s, a).tasks[a.p].pc == Dead
  {
  }

  /** And queues and waits no more. */
  lemma {:induction false} DeadStays(s: State, later: seq<Action>, p: nat)
    requires p < |s.tasks| && s.tasks[p].pc == Dead && IsRun(s, later)
    ensures p < |After(s, later).tasks| && After(s, later).tasks[p] == s.tasks[p]
    decreases |later|
  {
    if later != [] {
      DeadStep(s, later[0], p);
      DeadStays(Next(s, later[0]), later[1..], p);
    }
  }

  lemma DeadStep(s: State, a: Action, p: nat)
    requires p < |s.tasks| && s.tasks[p].pc == Dead && Enabled(s, a)
    ensures p < |Next(s, a).tasks| && Next(s, a).tasks[p] == s.tasks[p]
  {
    if OfTask(a) {
      TaskMoves(s, a);
    } else {
      OthersStay(s, a);
    }
  }
}
