/** Auto-unsubscribe: how many messages a subscription with a limit is given when several
    publishers race to deliver to it. */
module AutoUnsub {
  import opened ByteStrings
  import opened Registry
  import opened Routing
  import Subjects

  function Total(bs: seq<bool>): nat {
    if bs == [] then 0 else (if bs[0] then 1 else 0) + Total(bs[1..])
  }

  lemma {:induction false} TotalUpdate(bs: seq<bool>, i: nat, b: bool)
    requires i < |bs|
    ensures Total(bs[i := b]) == Total(bs) - (if bs[i] then 1 else 0) + (if b then 1 else 0)
  {
    if i == 0 {
      assert bs[0 := b][1..] == bs[1..];
    } else {
      assert bs[i := b][1..] == bs[1..][i - 1 := b];
      TotalUpdate(bs[1..], i - 1, b);
    }
  }

  lemma {:induction false} TotalDisjoint(a: seq<bool>, b: seq<bool>)
    requires |a| == |b| && forall i :: 0 <= i < |a| ==> !(a[i] && b[i])
    ensures Total(a) + Total(b) <= |a|
  {
    if a != [] {
      TotalDisjoint(a[1..], b[1..]);
    }
  }

  lemma {:induction false} TotalNone(a: seq<bool>)
    requires forall i :: 0 <= i < |a| ==> !a[i]
    ensures Total(a) == 0
  {
    if a != [] {
      TotalNone(a[1..]);
    }
  }

  lemma {:induction false} TotalSome(a: seq<bool>, i: nat)
    requires i < |a| && a[i]
    ensures Total(a) > 0
  {
    if i > 0 {
      TotalSome(a[1..], i - 1);
    }
  }

  lemma {:induction false} TotalAtMostOne(a: seq<bool>, p: nat)
    requires forall i :: 0 <= i < |a| && i != p ==> !a[i]
    ensures Total(a) <= 1
  {
    if a != [] {
      if p == 0 {
        TotalNone(a[1..]);
      } else {
        TotalAtMostOne(a[1..], p - 1);
      }
    }
  }

  /** The task has queued a message for `x` and not counted it yet. */
  predicate Between(t: Task, x: Sub) {
    t.pc.Gave? && t.pc.i < |t.pc.list| && t.pc.list[t.pc.i] == x
  }

  function Betweens(ts: seq<Task>, x: Sub): (bs: seq<bool>)
    ensures |bs| == |ts| && forall i :: 0 <= i < |ts| ==> bs[i] == Between(ts[i], x)
  {
    if ts == [] then [] else [Between(ts[0], x)] + Betweens(ts[1..], x)
  }

  lemma BetweensUpdate(ts: seq<Task>, p: nat, t: Task, x: Sub)
    requires p < |ts|
    ensures Total(Betweens(ts[p := t], x))
         == Total(Betweens(ts, x)) - (if Between(ts[p], x) then 1 else 0) + (if Between(t, x) then 1 else 0)
  {
    assert Betweens(ts[p := t], x) == Betweens(ts, x)[p := Between(t, x)];
    TotalUpdate(Betweens(ts, x), p, Between(t, x));
  }

  /** Every message given was counted, or is about to be. */
  predicate Balanced(s: State, x: Sub) {
    Get(s.given, x) == Get(s.delivered, x) + Total(Betweens(s.tasks, x))
  }

  lemma BalancedStep(s: State, a: Action, x: Sub)
    requires Enabled(s, a) && Balanced(s, x)
    ensures Balanced(Next(s, a), x)
  {
    if !OfRegistry(a) {
      BetweensUpdate(s.tasks, a.p, Moved(s, a), x);
      MovedBalance(s, a, x);
    }
  }

  /** What one task's step does to the two counts and to whether it is between them. */
  lemma MovedBalance(s: State, a: Action, x: Sub)
    requires Enabled(s, a) && !OfRegistry(a)
    ensures var s', was, now := Touched(s, a), Between(s.tasks[a.p], x), Between(Moved(s, a), x);
            Get(s'.given, x) - Get(s.given, x)
              == Get(s'.delivered, x) - Get(s.delivered, x) + (if now then 1 else 0) - (if was then 1 else 0)
  {
    var t := s.tasks[a.p];
    if a.Count? {
      assert Between(t, x) <==> t.pc.list[t.pc.i] == x;
    } else if a.Offer? && a.taking == Took {
      assert Between(Moved(s, a), x) <==> t.pc.list[t.pc.i] == x;
    } else {
      assert !t.pc.Gave? && !Moved(s, a).pc.Gave?;
    }
  }

  lemma InitBalanced(n: nat, x: Sub)
    ensures Balanced(Init(n), x)
  {
    TotalNone(Betweens(Init(n).tasks, x));
  }

  /** Not in the set, nor in the one being made. */
  predicate Out(s: State, x: Sub) {
    x !in s.all && (s.gen < |s.history| ==> x !in s.history[s.gen])
  }

  predicate Ahead(list: seq<Sub>, i: nat, x: Sub) {
    exists k :: i <= k < |list| && list[k] == x
  }

  /** The task never delivers to `x` again: it is past it and will take it out of the set,
      or it is out of the set already. */
  predicate Finished(s: State, t: Task, x: Sub, m: nat) {
    match t.pc
    case Idle => Out(s, x)
    case Loaded => Out(s, x) && t.loaded < |s.history| && x !in s.history[t.loaded]
    case Ready => Out(s, x) && x !in t.cache.subs
    case Giving(list, i, expired) => !Ahead(list, i, x) && (x in expired || Out(s, x))
    case Gave(list, i, expired) => !Ahead(list, i, x) && (x in expired || Out(s, x))
    case Counted(list, i, expired, n) =>
      !Ahead(list, i + 1, x) && (x in expired || Out(s, x) || (i < |list| && list[i] == x && n >= m))
    case Bumping => x !in s.all
  }

  lemma FinishedOrBetween(s: State, t: Task, x: Sub, m: nat)
    ensures !(Finished(s, t, x, m) && Between(t, x))
  {
    assert Between(t, x) ==> t.pc.list[t.pc.i] == x && Ahead(t.pc.list, t.pc.i, x);
  }

  /** From `s` to `t` nothing brings `x` back. */
  predicate Keeps(s: State, t: State, x: Sub) {
    (x !in s.all ==> x !in t.all) && (Out(s, x) ==> Out(t, x)) && s.history <= t.history && s.nextId <= t.nextId
  }

  /** No step brings back what has been registered before. */
  lemma StepKeeps(s: State, a: Action, x: Sub)
    requires Coherent(s) && Enabled(s, a) && x.id < s.nextId
    ensures Keeps(s, Next(s, a), x)
  {
    assert Timeline(s)[|s.history|] == s.all;
    match a
    case Unregister(sub) => KeepHolds(NotLike(sub), s.all);
    case Drop(conn) => KeepHolds(NotOf(conn), s.all);
    case Finish(p) => ExpiredGo(s.all, s.tasks[p].pc.expired);
    case _ =>
  }

  lemma FinishedKept(s: State, s': State, t: Task, x: Sub, m: nat)
    requires Keeps(s, s', x) && Finished(s, t, x, m)
    ensures Finished(s', t, x, m)
  {
  }

  /** A finished task's own steps. */
  lemma FinishedMoves(s: State, a: Action, x: Sub, m: nat)
    requires Coherent(s) && Enabled(s, a) && !OfRegistry(a) && x.id < s.nextId
    requires m > 0 && Get(s.limit, x) == m && Finished(s, s.tasks[a.p], x, m)
    ensures Finished(Next(s, a), Moved(s, a), x, m)
  {
    StepKeeps(s, a, x);
    var t := s.tasks[a.p];
    assert TaskInv(s, t);
    match a
    case Hit(p) => ResolvedWithin(s.history[t.loaded], t.cache.subject);
    case Resolve(p) => ResolvedWithin(s.all, t.wants);
    case Choose(p, list) => ChoiceInv(s, t, list);
    case Finish(p) =>
      assert Timeline(s)[|s.history|] == s.all;
      ExpiredGo(s.all, t.pc.expired);
      if x in t.pc.expired {
        SpentIsTaken(x, t.pc.expired);
      }
    case _ =>
  }

  lemma ResolvedWithin(all: seq<Sub>, subject: Bytes)
    ensures forall x :: x in Resolved(all, subject) ==> x in all
  {
    KeepHolds(Under(subject), all);
    KeepHolds(WildFor(subject), all);
  }

  lemma SpentIsTaken(x: Sub, expired: seq<Sub>)
    requires x in expired
    ensures LikeAny(x, expired)
  {
    var i :| 0 <= i < |expired| && expired[i] == x;
    assert Like(x, expired[i]);
  }

  /** Which publishers have counted a delivery of `x` as the `m`-th or later. */
  function Noted(over: seq<bool>, s: State, a: Action, x: Sub, m: nat): seq<bool>
    requires Enabled(s, a) && |over| == |s.tasks|
  {
    if Overshoots(s, a, x, m) then over[a.p := true] else over
  }

  predicate Overshoots(s: State, a: Action, x: Sub, m: nat)
    requires Enabled(s, a)
  {
    a.Count? && s.tasks[a.p].pc.list[s.tasks[a.p].pc.i] == x && Get(s.delivered, x) + 1 >= m
  }

  predicate Inv(s: State, over: seq<bool>, x: Sub, m: nat) {
    && Coherent(s) && |over| == |s.tasks| && x.id < s.nextId && m > 0 && Get(s.limit, x) == m
    && Balanced(s, x)
    && (if Get(s.delivered, x) < m then Total(over) == 0 else Get(s.delivered, x) == m - 1 + Total(over))
    && OverFinished(s, over, x, m)
  }

  lemma OvershotIsFinished(s: State, p: nat, x: Sub, m: nat)
    requires Coherent(s) && Enabled(s, Count(p)) && Overshoots(s, Count(p), x, m)
    ensures Finished(Next(s, Count(p)), Moved(s, Count(p)), x, m)
  {
    assert TaskInv(s, s.tasks[p]);
    var Gave(list, i, expired) := s.tasks[p].pc;
    assert Distinct(list) && list[i] == x;
  }

  lemma CountsAdd(s: State, over: seq<bool>, a: Action, x: Sub, m: nat)
    requires Inv(s, over, x, m) && Enabled(s, a) && !(a.SetLimit? && a.sub == x)
    ensures var s', over' := Next(s, a), Noted(over, s, a, x, m);
            if Get(s'.delivered, x) < m then Total(over') == 0 else Get(s'.delivered, x) == m - 1 + Total(over')
    ensures Overshoots(s, a, x, m) ==> !over[a.p]
  {
    if Overshoots(s, a, x, m) {
      FinishedOrBetween(s, s.tasks[a.p], x, m);
      TotalUpdate(over, a.p, true);
    }
  }

  lemma InvStep(s: State, over: seq<bool>, a: Action, x: Sub, m: nat)
    requires Inv(s, over, x, m) && Enabled(s, a) && !(a.SetLimit? && a.sub == x)
    ensures Inv(Next(s, a), Noted(over, s, a, x, m), x, m)
  {
    CoherentStep(s, a);
    BalancedStep(s, a, x);
    CountsAdd(s, over, a, x, m);
    OverStep(s, over, a, x, m);
    LimitKept(s, a, x);
  }

  lemma LimitKept(s: State, a: Action, x: Sub)
    requires Enabled(s, a) && !(a.SetLimit? && a.sub == x)
    ensures Get(Next(s, a).limit, x) == Get(s.limit, x) && s.nextId <= Next(s, a).nextId
    ensures |Next(s, a).tasks| == |s.tasks|
  {
  }

  predicate OverFinished(s: State, over: seq<bool>, x: Sub, m: nat) {
    |over| == |s.tasks| && forall p :: 0 <= p < |over| && over[p] ==> Finished(s, s.tasks[p], x, m)
  }

  /** One step, seen from the side: only the task `mover` moved, and only it may have
      become over, by counting a delivery of `x`. */
  predicate Shape(s: State, s': State, over: seq<bool>, over': seq<bool>, x: Sub, mover: nat) {
    Keeps(s, s', x) && MovedOnly(s, s', over, over', x, mover)
  }

  predicate MovedOnly(s: State, s': State, over: seq<bool>, over': seq<bool>, x: Sub, mover: nat) {
    && |over| == |s.tasks| == |over'| == |s'.tasks|
    && (forall p :: 0 <= p < |over| && p != mover ==> s'.tasks[p] == s.tasks[p] && over'[p] == over[p])
    && (mover < |over| && over'[mover] && !over[mover] ==> Between(s.tasks[mover], x))
  }

  function Mover(s: State, a: Action): nat {
    if OfRegistry(a) then |s.tasks| else a.p
  }

  lemma StepShape(s: State, over: seq<bool>, a: Action, x: Sub, m: nat)
    requires Coherent(s) && Enabled(s, a) && x.id < s.nextId && |over| == |s.tasks|
    ensures Shape(s, Next(s, a), over, Noted(over, s, a, x, m), x, Mover(s, a))
  {
    StepKeeps(s, a, x);
    StepMoves(s, over, a, x, m);
  }

  lemma StepMoves(s: State, over: seq<bool>, a: Action, x: Sub, m: nat)
    requires Enabled(s, a) && |over| == |s.tasks|
    ensures MovedOnly(s, Next(s, a), over, Noted(over, s, a, x, m), x, Mover(s, a))
  {
  }

  lemma OverStep(s: State, over: seq<bool>, a: Action, x: Sub, m: nat)
    requires Inv(s, over, x, m) && Enabled(s, a)
    ensures OverFinished(Next(s, a), Noted(over, s, a, x, m), x, m)
  {
    StepShape(s, over, a, x, m);
    if !OfRegistry(a) && Noted(over, s, a, x, m)[a.p] {
      MoverIsFinished(s, over, a, x, m);
    }
    OverKept(s, Next(s, a), over, Noted(over, s, a, x, m), x, m, Mover(s, a));
  }

  /** All that are over stay finished, if the task that moved is. */
  lemma OverKept(s: State, s': State, over: seq<bool>, over': seq<bool>, x: Sub, m: nat, mover: nat)
    requires Shape(s, s', over, over', x, mover) && OverFinished(s, over, x, m)
    requires mover < |over| && over'[mover] ==> Finished(s', s'.tasks[mover], x, m)
    ensures OverFinished(s', over', x, m)
  {
    forall p | 0 <= p < |over'| && over'[p]
      ensures Finished(s', s'.tasks[p], x, m)
    {
      if p != mover {
        FinishedKept(s, s', s.tasks[p], x, m);
      }
    }
  }

  lemma MoverIsFinished(s: State, over: seq<bool>, a: Action, x: Sub, m: nat)
    requires Inv(s, over, x, m) && Enabled(s, a) && !OfRegistry(a) && Noted(over, s, a, x, m)[a.p]
    ensures Finished(Next(s, a), Moved(s, a), x, m)
  {
    if Overshoots(s, a, x, m) {
      OvershotIsFinished(s, a.p, x, m);
    } else {
      FinishedMoves(s, a, x, m);
    }
  }

  predicate LimitStays(run: seq<Action>, x: Sub) {
    forall i :: 0 <= i < |run| ==> !(run[i].SetLimit? && run[i].sub == x)
  }

  lemma {:induction false} InvRun(s: State, over: seq<bool>, run: seq<Action>, x: Sub, m: nat) returns (over': seq<bool>)
    requires Inv(s, over, x, m) && IsRun(s, run) && LimitStays(run, x)
    ensures Inv(After(s, run), over', x, m)
    decreases |run|
  {
    if run == [] {
      over' := over;
    } else {
      InvStep(s, over, run[0], x, m);
      over' := InvRun(Next(s, run[0]), Noted(over, s, run[0], x, m), run[1..], x, m);
    }
  }

  lemma InvBounds(s: State, over: seq<bool>, x: Sub, m: nat)
    requires Inv(s, over, x, m)
    ensures Get(s.given, x) <= m + |s.tasks| - 1
  {
    var between := Betweens(s.tasks, x);
    forall p | 0 <= p < |over|
      ensures !(over[p] && between[p])
    {
      FinishedOrBetween(s, s.tasks[p], x, m);
    }
    TotalDisjoint(over, between);
  }

  function Nobody(n: nat): (bs: seq<bool>)
    ensures |bs| == n && forall i :: 0 <= i < n ==> !bs[i]
  {
    if n == 0 then [] else [false] + Nobody(n - 1)
  }

  /** From any reachable state in which the limit is above the count: while the limit stays,
      P publishers in any interleaving give the subscription at most m + P - 1 messages. */
  lemma AutoUnsubBound(n: nat, before: seq<Action>, run: seq<Action>, x: Sub, m: nat)
    requires IsRun(Init(n), before)
    requires var s := After(Init(n), before);
             x.id < s.nextId && Get(s.limit, x) == m > Get(s.delivered, x) && IsRun(s, run) && LimitStays(run, x)
    ensures Get(After(After(Init(n), before), run).given, x) <= m + n - 1
  {
    var s := After(Init(n), before);
    StartsInv(n, before, x, m);
    var over := InvRun(s, Nobody(n), run, x, m);
    InvBounds(After(s, run), over, x, m);
    SameTasks(s, run);
  }

  lemma StartsInv(n: nat, before: seq<Action>, x: Sub, m: nat)
    requires IsRun(Init(n), before)
    requires var s := After(Init(n), before); x.id < s.nextId && Get(s.limit, x) == m > Get(s.delivered, x)
    ensures Inv(After(Init(n), before), Nobody(n), x, m) && |After(Init(n), before).tasks| == n
  {
    InitCoherent(n);
    CoherentRun(Init(n), before);
    InitBalanced(n, x);
    BalancedRun(Init(n), before, x);
    SameTasks(Init(n), before);
    TotalNone(Nobody(n));
  }

  lemma {:induction false} BalancedRun(s: State, run: seq<Action>, x: Sub)
    requires IsRun(s, run) && Balanced(s, x)
    ensures Balanced(After(s, run), x)
    decreases |run|
  {
    if run != [] {
      BalancedStep(s, run[0], x);
      BalancedRun(Next(s, run[0]), run[1..], x);
    }
  }

  lemma {:induction false} SameTasks(s: State, run: seq<Action>)
    requires IsRun(s, run)
    ensures |After(s, run).tasks| == |s.tasks|
    decreases |run|
  {
    if run != [] {
      SameTasks(Next(s, run[0]), run[1..]);
    }
  }

  // ------------------------------------------------------------------ atomic routes ---

  /** At most one route is under way. */
  predicate Alone(s: State) {
    forall p, q :: 0 <= p < q < |s.tasks| ==> s.tasks[p].pc == Idle || s.tasks[q].pc == Idle
  }

  predicate AlwaysAlone(s: State, run: seq<Action>)
    requires IsRun(s, run)
    decreases |run|
  {
    Alone(s) && (run == [] || AlwaysAlone(Next(s, run[0]), run[1..]))
  }

  /** Once one publisher has counted the m-th, every other is idle or done with `x`. */
  ghost predicate OthersDone(s: State, over: seq<bool>, x: Sub, m: nat) {
    |over| == |s.tasks| && forall p: nat, q: nat :: PairDone(s, over, x, m, p, q)
  }

  predicate PairDone(s: State, over: seq<bool>, x: Sub, m: nat, p: nat, q: nat)
    requires |over| == |s.tasks|
  {
    p < |over| && over[p] && q < |over| && q != p ==> !over[q] && Done(s, s.tasks[q], x, m)
  }

  predicate Done(s: State, t: Task, x: Sub, m: nat) {
    t.pc == Idle || Finished(s, t, x, m)
  }

  lemma OthersStep(s: State, over: seq<bool>, a: Action, x: Sub, m: nat)
    requires Inv(s, over, x, m) && Enabled(s, a) && !(a.SetLimit? && a.sub == x)
    requires Alone(s) && Alone(Next(s, a)) && OthersDone(s, over, x, m)
    ensures OthersDone(Next(s, a), Noted(over, s, a, x, m), x, m)
  {
    StepShape(s, over, a, x, m);
    if p: nat :| p < |over| && over[p] && p != Mover(s, a) && !OfRegistry(a) {
      assert PairDone(s, over, x, m, p, a.p);
      OthersOwn(s, over, a, x, m, p);
    }
    OthersKept(s, Next(s, a), over, Noted(over, s, a, x, m), x, m, Mover(s, a));
  }

  lemma OthersKept(s: State, s': State, over: seq<bool>, over': seq<bool>, x: Sub, m: nat, mover: nat)
    requires Shape(s, s', over, over', x, mover) && Alone(s) && OthersDone(s, over, x, m)
    requires mover < |over| && (exists p :: 0 <= p < |over| && over[p] && p != mover) ==>
               over'[mover] == over[mover] && Done(s', s'.tasks[mover], x, m)
    ensures OthersDone(s', over', x, m)
  {
    forall p: nat, q: nat
      ensures PairDone(s', over', x, m, p, q)
    {
      assert PairDone(s, over, x, m, p, q) && PairDone(s, over, x, m, q, p);
      if p < |over| && q < |over| && p != q && over'[p] && q != mover {
        OtherKept(s, s', over, over', x, m, p, q);
      }
    }
  }

  lemma OtherKept(s: State, s': State, over: seq<bool>, over': seq<bool>, x: Sub, m: nat, p: nat, q: nat)
    requires |over| == |s.tasks| == |over'| == |s'.tasks| && p < |over| && q < |over| && p != q
    requires Keeps(s, s', x) && Alone(s) && PairDone(s, over, x, m, p, q) && PairDone(s, over, x, m, q, p)
    requires s'.tasks[q] == s.tasks[q] && over'[q] == over[q] && (over[p] || Between(s.tasks[p], x))
    ensures PairDone(s', over', x, m, p, q)
  {
    if !over[p] {
      FirstOver(s, over, x, m, p, q);
    } else if s.tasks[q].pc != Idle {
      FinishedKept(s, s', s.tasks[q], x, m);
    }
  }

  /** While one route delivers to `x`, the others are idle, and none was over before. */
  lemma FirstOver(s: State, over: seq<bool>, x: Sub, m: nat, p: nat, q: nat)
    requires |over| == |s.tasks| && p < |over| && q < |over| && p != q && !over[p]
    requires Alone(s) && Between(s.tasks[p], x) && PairDone(s, over, x, m, q, p)
    ensures !over[q] && s.tasks[q].pc == Idle
  {
    assert s.tasks[p].pc != Idle;
    FinishedOrBetween(s, s.tasks[p], x, m);
  }

  /** A step of the other task `q`: it starts a route only when the first is over, and then
      finds nothing. */
  lemma OthersOwn(s: State, over: seq<bool>, a: Action, x: Sub, m: nat, p: nat)
    requires Inv(s, over, x, m) && Enabled(s, a) && !OfRegistry(a)
    requires p < |over| && a.p < |over| && p != a.p && over[p] && PairDone(s, over, x, m, p, a.p)
    requires Alone(s) && Alone(Next(s, a))
    ensures !Overshoots(s, a, x, m)
    ensures Done(Next(s, a), Next(s, a).tasks[a.p], x, m)
  {
    var q, s' := a.p, Next(s, a);
    assert !over[q] && Done(s, s.tasks[q], x, m);
    if s.tasks[q].pc == Idle {
      assert a.LoadGen?;
      assert s'.tasks[q].pc != Idle && s'.tasks[p] == s.tasks[p];
      assert s.tasks[p].pc == Idle && Finished(s, s.tasks[p], x, m);
      FinishedMoves(s, a, x, m);
    } else {
      FinishedOrBetween(s, s.tasks[q], x, m);
      FinishedMoves(s, a, x, m);
    }
  }

  lemma {:induction false} AtomicRun(s: State, over: seq<bool>, run: seq<Action>, x: Sub, m: nat) returns (over': seq<bool>)
    requires Inv(s, over, x, m) && IsRun(s, run) && LimitStays(run, x)
    requires AlwaysAlone(s, run) && OthersDone(s, over, x, m)
    ensures var s' := After(s, run); Inv(s', over', x, m) && OthersDone(s', over', x, m) && Alone(s')
    decreases |run|
  {
    if run == [] {
      over' := over;
    } else {
      InvStep(s, over, run[0], x, m);
      OthersStep(s, over, run[0], x, m);
      over' := AtomicRun(Next(s, run[0]), Noted(over, s, run[0], x, m), run[1..], x, m);
    }
  }

  lemma AtomicBounds(s: State, over: seq<bool>, x: Sub, m: nat)
    requires Inv(s, over, x, m) && OthersDone(s, over, x, m) && Alone(s)
    ensures Get(s.given, x) <= m
  {
    var between := Betweens(s.tasks, x);
    if Get(s.delivered, x) >= m {
      var p := FirstTrue(over);
      forall q: nat | q < |over| && q != p
        ensures !over[q]
      {
        assert PairDone(s, over, x, m, p, q);
      }
      TotalAtMostOne(over, p);
      forall q | 0 <= q < |between|
        ensures !between[q]
      {
        FinishedOrBetween(s, s.tasks[q], x, m);
        assert PairDone(s, over, x, m, p, q);
      }
      TotalNone(between);
    } else {
      if q :| 0 <= q < |between| && between[q] {
        TotalAtMostOne(between, q);
      } else {
        TotalNone(between);
      }
    }
  }

  lemma FirstTrue(bs: seq<bool>) returns (p: nat)
    requires Total(bs) > 0
    ensures p < |bs| && bs[p]
  {
    if exists i :: 0 <= i < |bs| && bs[i] {
      p :| p < |bs| && bs[p];
    } else {
      TotalNone(bs);
    }
  }

  /** If routes do not overlap, the limit is kept exactly: at most m messages, whatever the
      number of publishers. */
  lemma AutoUnsubAtomic(n: nat, before: seq<Action>, run: seq<Action>, x: Sub, m: nat)
    requires IsRun(Init(n), before)
    requires var s := After(Init(n), before);
             && x.id < s.nextId && Get(s.limit, x) == m > Get(s.delivered, x)
             && IsRun(s, run) && LimitStays(run, x) && AlwaysAlone(s, run)
    ensures Get(After(After(Init(n), before), run).given, x) <= m
  {
    var s := After(Init(n), before);
    StartsInv(n, before, x, m);
    var over := AtomicRun(s, Nobody(n), run, x, m);
    AtomicBounds(After(s, run), over, x, m);
  }

  // ------------------------------------------------------------- the bound is tight ---

  /** The publisher is idle, and what it may remember of the subject is true. */
  predicate AtRest(s: State, t: Task, x: Sub) {
    t.pc == Idle && (t.cache.gen == Some(s.gen) && t.cache.subject == x.subject ==> t.cache.subs == [x])
  }

  /** One publisher's way from idle to an answer for the subject of the one subscription. */
  lemma Finds(s0: State, run: seq<Action>, p: nat, x: Sub) returns (run': seq<Action>)
    requires IsRun(s0, run) && p < |After(s0, run).tasks| && !x.wild
    requires var s := After(s0, run); AtRest(s, s.tasks[p], x) && s.lock == Free && s.all == [x]
    ensures IsRun(s0, run') && (LimitStays(run, x) ==> LimitStays(run', x))
    ensures var s := After(s0, run);
            After(s0, run') == Put(s, p, Task(Ready, Cache(Some(s.gen), x.subject, [x]), x.subject, s.gen))
  {
    LoneResolves(x);
    RunSnoc(s0, run, LoadGen(p, x.subject));
    run' := run + [LoadGen(p, x.subject)];
    var t := After(s0, run').tasks[p];
    var next := if Fresh(t) then Hit(p) else Resolve(p);
    RunSnoc(s0, run', next);
    run' := run' + [next];
  }

  /** And from there to having queued a message for it. */
  lemma Gives(s0: State, run: seq<Action>, p: nat, x: Sub) returns (run': seq<Action>)
    requires IsRun(s0, run) && p < |After(s0, run).tasks| && x.queue.None?
    requires var t := After(s0, run).tasks[p]; t.pc == Ready && t.cache.subs == [x]
    ensures IsRun(s0, run') && (LimitStays(run, x) ==> LimitStays(run', x))
    ensures var s := After(s0, run);
            After(s0, run') == Put(s.(given := s.given[x := Get(s.given, x) + 1]), p,
                                   s.tasks[p].(pc := Gave([x], 0, [])))
  {
    assert !AnyQueued([x]);
    RunSnoc(s0, run, Choose(p, [x]));
    run' := run + [Choose(p, [x])];
    RunSnoc(s0, run', Offer(p, Took));
    run' := run' + [Offer(p, Took)];
  }

  lemma LoneResolves(x: Sub)
    requires !x.wild
    ensures Resolved([x], x.subject) == [x]
  {
    assert [x][1..] == [];
  }

  /** Counting it, and then the look at the limit. */
  lemma Counts(s0: State, run: seq<Action>, p: nat, x: Sub) returns (run': seq<Action>)
    requires IsRun(s0, run) && p < |After(s0, run).tasks| && After(s0, run).tasks[p].pc == Gave([x], 0, [])
    ensures IsRun(s0, run')
    ensures var s := After(s0, run);
            var k, m := Get(s.delivered, x) + 1, Get(s.limit, x);
            After(s0, run') == Put(s.(delivered := s.delivered[x := k]), p,
                                   s.tasks[p].(pc := Giving([x], 1, if m != 0 && k >= m then [x] else [])))
  {
    var none: seq<Sub> := [];
    assert none + [x] == [x];
    var s := After(s0, run);
    RunSnoc(s0, run, Count(p));
    run' := run + [Count(p)];
    var k := Get(s.delivered, x) + 1;
    assert After(s0, run') == Put(s.(delivered := s.delivered[x := k]), p, s.tasks[p].(pc := Counted([x], 0, [], k)));
    RunSnoc(s0, run', Check(p));
    run' := run' + [Check(p)];
  }

  /** And, with no limit set, the end of the route. */
  lemma Ends(s0: State, run: seq<Action>, p: nat, x: Sub) returns (run': seq<Action>)
    requires IsRun(s0, run) && p < |After(s0, run).tasks|
    requires var s := After(s0, run); s.tasks[p].pc == Gave([x], 0, []) && Get(s.limit, x) == 0
    ensures IsRun(s0, run')
    ensures var s := After(s0, run);
            After(s0, run') == Put(s.(delivered := s.delivered[x := Get(s.delivered, x) + 1]), p,
                                   s.tasks[p].(pc := Idle))
  {
    run' := Counts(s0, run, p, x);
    RunSnoc(s0, run', Finish(p));
    run' := run' + [Finish(p)];
  }

  /** The one subscription there is, given and counted `k` messages, and every publisher from
      `j` on at rest. */
  predicate Given(s: State, x: Sub, k: nat, j: nat) {
    && s.lock == Free && s.all == [x] && !x.wild && x.queue.None? && x.id < s.nextId
    && Get(s.given, x) == k
    && forall p :: j <= p < |s.tasks| ==> AtRest(s, s.tasks[p], x)
  }

  /** A subscription registered first of all. */
  lemma Registered(n: nat, subject: Bytes, sid: Bytes) returns (run: seq<Action>)
    requires Subjects.IsValidPublish(subject)
    ensures IsRun(Init(n), run)
    ensures var x := Made(0, subject, None, sid, 0);
            After(Init(n), run) == Init(n).(all := [x], gen := 1, history := [[], [x]], nextId := 1)
  {
    var x, s0 := Made(0, subject, None, sid, 0), Init(n);
    assert Inserted([], x) == [x];
    assert IsRun(s0, []) && After(s0, []) == s0;
    RunSnoc(s0, [], Register(subject, None, sid, 0));
    run := [] + [Register(subject, None, sid, 0)];
    RunSnoc(s0, run, Bump);
    run := run + [Bump];
  }

  /** One message, from the first publisher and by a whole route. */
  lemma OneRoute(s0: State, run: seq<Action>, x: Sub, k: nat) returns (run': seq<Action>)
    requires IsRun(s0, run)
    requires var s := After(s0, run);
             |s.tasks| > 0 && Given(s, x, k, 0) && Get(s.delivered, x) == k && Get(s.limit, x) == 0
    ensures IsRun(s0, run')
    ensures var s, s' := After(s0, run), After(s0, run');
            |s'.tasks| == |s.tasks| && Given(s', x, k + 1, 0) && Get(s'.delivered, x) == k + 1 && Get(s'.limit, x) == 0
  {
    var s := After(s0, run);
    run' := Finds(s0, run, 0, x);
    run' := Gives(s0, run', 0, x);
    run' := Ends(s0, run', 0, x);
    var s' := After(s0, run');
    forall p | 0 <= p < |s'.tasks|
      ensures AtRest(s', s'.tasks[p], x)
    {
      assert p > 0 ==> s'.tasks[p] == s.tasks[p];
    }
  }

  /** A subscription that has been given `k` messages, one after another. */
  lemma {:induction false} Routes(n: nat, subject: Bytes, sid: Bytes, k: nat) returns (run: seq<Action>)
    requires Subjects.IsValidPublish(subject) && n > 0
    ensures IsRun(Init(n), run)
    ensures var s, x := After(Init(n), run), Made(0, subject, None, sid, 0);
            |s.tasks| == n && Given(s, x, k, 0) && Get(s.delivered, x) == k && Get(s.limit, x) == 0
  {
    if k == 0 {
      run := Registered(n, subject, sid);
    } else {
      run := Routes(n, subject, sid, k - 1);
      run := OneRoute(Init(n), run, Made(0, subject, None, sid, 0), k - 1);
    }
  }

  lemma OneMoreGiven(s: State, s': State, x: Sub, k: nat, j: nat, t: Task)
    requires Given(s, x, k, j) && j < |s.tasks| && s' == Put(s.(given := s.given[x := k + 1]), j, t)
    ensures Given(s', x, k + 1, j + 1)
  {
    forall p | j + 1 <= p < |s'.tasks|
      ensures AtRest(s', s'.tasks[p], x)
    {
      assert s'.tasks[p] == s.tasks[p];
    }
  }

  /** The next publisher queues a message and does not count it. */
  lemma OneGives(s0: State, run: seq<Action>, x: Sub, k: nat, j: nat) returns (run': seq<Action>)
    requires IsRun(s0, run) && LimitStays(run, x) && j < |After(s0, run).tasks| && Given(After(s0, run), x, k, j)
    ensures IsRun(s0, run') && LimitStays(run', x)
    ensures |After(s0, run').tasks| == |After(s0, run).tasks| && Given(After(s0, run'), x, k + 1, j + 1)
  {
    var s := After(s0, run);
    run' := Finds(s0, run, j, x);
    run' := Gives(s0, run', j, x);
    var s' := After(s0, run');
    assert s' == Put(s.(given := s.given[x := k + 1]), j, s'.tasks[j]);
    OneMoreGiven(s, s', x, k, j, s'.tasks[j]);
  }

  /** All publishers up to `j` queue one message each before any of them counts. */
  lemma {:induction false} AllGive(s: State, x: Sub, k: nat, j: nat) returns (run: seq<Action>)
    requires Given(s, x, k, 0) && j <= |s.tasks|
    ensures IsRun(s, run) && LimitStays(run, x)
    ensures var s' := After(s, run); |s'.tasks| == |s.tasks| && Given(s', x, k + j, j)
  {
    if j == 0 {
      run := [];
    } else {
      run := AllGive(s, x, k, j - 1);
      run := OneGives(s, run, x, k + j - 1, j - 1);
    }
  }

  /** For any number of publishers and any limit the bound is reached: all but one message of
      the limit are given, and then every publisher delivers before any of them has counted. */
  lemma BoundAttained(n: nat, m: nat, subject: Bytes, sid: Bytes) returns (before: seq<Action>, run: seq<Action>)
    requires Subjects.IsValidPublish(subject) && n >= 1 && m >= 1
    ensures IsRun(Init(n), before) && IsRun(After(Init(n), before), run)
    ensures var s := After(Init(n), before);
            var x := Made(0, subject, None, sid, 0);
            && x.id < s.nextId && Get(s.limit, x) == m > Get(s.delivered, x) && LimitStays(run, x)
            && Get(After(s, run).given, x) == m + n - 1
  {
    var x := Made(0, subject, None, sid, 0);
    before := Routes(n, subject, sid, m - 1);
    var s := After(Init(n), before);
    RunSnoc(Init(n), before, SetLimit(x, m));
    before := before + [SetLimit(x, m)];
    var s' := After(Init(n), before);
    assert forall p :: 0 <= p < n ==> s'.tasks[p] == s.tasks[p] && AtRest(s, s.tasks[p], x);
    assert Given(s', x, m - 1, 0);
    run := AllGive(s', x, m - 1, n);
  }

  // ------------------------------------------------------------------- late expiry ---

  /** A client unsubscribes the one subscription and makes another on the same sid. */
  lemma Replaces(s0: State, run: seq<Action>, x: Sub, y: Sub) returns (run': seq<Action>)
    requires IsRun(s0, run) && !x.wild && WellMade(x) && Subjects.IsValid(x.subject)
    requires var s := After(s0, run);
             s.lock == Free && s.all == [x] && y == Made(s.nextId, x.subject, x.queue, x.sid, x.conn)
    ensures IsRun(s0, run')
    ensures var s, s' := After(s0, run), After(s0, run');
            s'.all == [y] && s'.lock == Free && s'.tasks == s.tasks
  {
    var s := After(s0, run);
    assert Keep(NotLike(x), [x]) == [] by {
      assert [x][1..] == [];
    }
    RunSnoc(s0, run, Unregister(x));
    run' := run + [Unregister(x)];
    RunSnoc(s0, run', Bump);
    run' := run' + [Bump];
    assert Inserted([], y) == [y];
    RunSnoc(s0, run', Register(x.subject, x.queue, x.sid, x.conn));
    run' := run' + [Register(x.subject, x.queue, x.sid, x.conn)];
    RunSnoc(s0, run', Bump);
    run' := run' + [Bump];
  }

  /** A run in which the late removal of a spent subscription takes a newer one, which has
      been given nothing and has no limit, out of the set. */
  lemma LateExpiry(subject: Bytes, sid: Bytes) returns (run: seq<Action>)
    requires Subjects.IsValidPublish(subject)
    ensures IsRun(Init(2), run) && Enabled(After(Init(2), run), Finish(0))
    ensures var s := After(Init(2), run);
            s.all == [Made(1, subject, None, sid, 0)] && Next(s, Finish(0)).all == []
  {
    var x, y := Made(0, subject, None, sid, 0), Made(1, subject, None, sid, 0);
    run := SpentAtTwo(subject, sid);
    run := Replaces(Init(2), run, x, y);
    var s := After(Init(2), run);
    assert s.tasks[0].pc == Giving([x], 1, [x]);
    assert Next(s, Finish(0)).all == WithoutExpired([y], [x]);
    assert Keep(NotLike(x), [y]) == [] by {
      assert [y][1..] == [] && Like(y, x);
    }
    assert WithoutExpired([y], [x]) == [] by {
      assert [x][1..] == [] && [y][1..] == [];
      assert Like(y, x);
    }
  }

  /** A subscription registered first of all, and limited to one message. */
  lemma Limited(n: nat, subject: Bytes, sid: Bytes) returns (run: seq<Action>)
    requires Subjects.IsValidPublish(subject)
    ensures IsRun(Init(n), run)
    ensures var x := Made(0, subject, None, sid, 0);
            After(Init(n), run) == Init(n).(all := [x], gen := 1, history := [[], [x]], nextId := 1, limit := map[x := 1])
  {
    var x := Made(0, subject, None, sid, 0);
    run := Registered(n, subject, sid);
    RunSnoc(Init(n), run, SetLimit(x, 1));
    run := run + [SetLimit(x, 1)];
  }

  lemma SpentAtTwo(subject: Bytes, sid: Bytes) returns (run: seq<Action>)
    requires Subjects.IsValidPublish(subject)
    ensures IsRun(Init(2), run)
    ensures var s, x := After(Init(2), run), Made(0, subject, None, sid, 0);
            s.all == [x] && s.lock == Free && s.nextId == 1 && |s.tasks| == 2 && s.tasks[0].pc == Giving([x], 1, [x])
  {
    var x := Made(0, subject, None, sid, 0);
    run := Limited(2, subject, sid);
    var s := After(Init(2), run);
    assert AtRest(s, s.tasks[0], x) && Get(s.limit, x) == 1 && Get(s.delivered, x) == 0;
    run := GaveFirst(Init(2), run, x);
    run := Counts(Init(2), run, 0, x);
  }

  lemma GaveFirst(s0: State, run: seq<Action>, x: Sub) returns (run': seq<Action>)
    requires IsRun(s0, run) && !x.wild && x.queue.None?
    requires var s := After(s0, run);
             |s.tasks| > 0 && AtRest(s, s.tasks[0], x) && s.lock == Free && s.all == [x]
    ensures IsRun(s0, run')
    ensures var s, s' := After(s0, run), After(s0, run');
            && |s'.tasks| == |s.tasks| && s'.tasks[0].pc == Gave([x], 0, [])
            && s'.all == s.all && s'.lock == s.lock && s'.nextId == s.nextId
            && s'.limit == s.limit && s'.delivered == s.delivered
  {
    run' := Finds(s0, run, 0, x);
    run' := Gives(s0, run', 0, x);
  }
}
