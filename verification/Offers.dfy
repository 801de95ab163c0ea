/** What the runs of `Routing` do beside keeping caches coherent: registrations make the entries
    they ask for, and a route offers its message to all it chose. */
module Offers {
  import opened ByteStrings
  import opened Registry
  import opened Routing

  // ------------------------------------------------------------- where entries come from ---

  /** A registration of this run asked for just this. */
  predicate AskedFor(run: seq<Action>, x: Sub) {
    exists i :: 0 <= i < |run| && run[i] == Register(x.subject, x.queue, x.sid, x.conn)
  }

  /** The step takes `x` out of the registry. */
  predicate Leaves(s: State, a: Action, x: Sub)
    requires Enabled(s, a)
  {
    match a
    case Unregister(sub) => Like(x, sub)
    case Drop(conn) => x.conn == conn
    case Finish(p) => LikeAny(x, s.tasks[p].pc.expired)
    case _ => false
  }

  /** An entry leaves when it, or one with its connection and sid in its list, is taken out or has
      expired, and when its connection is dropped; and not otherwise. */
  lemma LeavesIff(s: State, a: Action, x: Sub)
    requires Coherent(s) && Enabled(s, a) && !a.Register?
    ensures x in Next(s, a).all <==> x in s.all && !Leaves(s, a, x)
  {
    assert Timeline(s)[|s.history|] == s.all;
    match a
    case Unregister(sub) => KeepHolds(NotLike(sub), s.all);
    case Drop(conn) => KeepHolds(NotOf(conn), s.all);
    case Finish(p) => ExpiredGo(s.all, s.tasks[p].pc.expired);
    case _ =>
  }

  /** A registration adds the one entry it asks for, unless its connection has that subject under
      that sid. */
  lemma RegisterAdds(s: State, subject: Bytes, queue: Option<Bytes>, sid: Bytes, conn: nat)
    requires Enabled(s, Register(subject, queue, sid, conn))
    ensures var s' := Next(s, Register(subject, queue, sid, conn));
            if exists y :: y in s.all && y.conn == conn && y.sid == sid && y.subject == subject then s'.all == s.all
            else
              && |s'.all| == |s.all| + 1 && s'.all[..|s.all|] == s.all
              && var x := s'.all[|s.all|];
                 x.subject == subject && x.queue == queue && x.sid == sid && x.conn == conn && x.id == s.nextId
  {
    var x := Made(s.nextId, subject, queue, sid, conn);
    if y :| y in s.all && Same(y, x) {
      assert y.conn == conn && y.sid == sid && y.subject == subject;
    } else if y :| y in s.all && y.conn == conn && y.sid == sid && y.subject == subject {
      assert Same(y, x);
    }
  }

  lemma EntryStep(s: State, a: Action, x: Sub)
    requires Coherent(s) && Enabled(s, a) && x in Next(s, a).all && x !in s.all
    ensures a == Register(x.subject, x.queue, x.sid, x.conn)
  {
    if !a.Register? {
      LeavesIff(s, a, x);
    }
  }

  lemma {:induction false} EntryRun(s: State, run: seq<Action>, x: Sub)
    requires Coherent(s) && IsRun(s, run) && x in After(s, run).all && x !in s.all
    ensures AskedFor(run, x)
    decreases |run|
  {
    var s' := Next(s, run[0]);
    if x in s'.all {
      EntryStep(s, run[0], x);
    } else {
      CoherentStep(s, run[0]);
      EntryRun(s', run[1..], x);
      var i :| 0 <= i < |run[1..]| && run[1..][i] == Register(x.subject, x.queue, x.sid, x.conn);
      assert run[i + 1] == run[1..][i];
    }
  }

  /** In every interleaving, each entry has the subject, queue, sid and connection that some
      registration of the run asked for. */
  lemma EntriesAsAsked(n: nat, run: seq<Action>, x: Sub)
    requires IsRun(Init(n), run) && x in After(Init(n), run).all
    ensures AskedFor(run, x)
  {
    InitCoherent(n);
    EntryRun(Init(n), run, x);
  }

  // ----------------------------------------------------------------- what generations mean ---

  /** The steps that move the generation on. */
  function Moves(a: Action): nat { if a.Bump? || a.BumpExpired? then 1 else 0 }

  /** The generation there was when task `p` last loaded it, `gen` being the one to start with. */
  function LoadedIn(run: seq<Action>, p: nat, gen: nat): Option<nat> {
    if run == [] then None
    else if LoadedIn(run[1..], p, gen + Moves(run[0])).Some? then LoadedIn(run[1..], p, gen + Moves(run[0]))
    else if run[0].LoadGen? && run[0].p == p then Some(gen)
    else None
  }

  lemma LoadStep(s: State, a: Action, p: nat)
    requires Enabled(s, a) && p < |s.tasks|
    ensures var s' := Next(s, a);
            && s'.gen == s.gen + Moves(a) && |s'.tasks| == |s.tasks|
            && s'.tasks[p].loaded == if a.LoadGen? && a.p == p then s.gen else s.tasks[p].loaded
  {
  }

  lemma {:induction false} LoadedRun(s: State, run: seq<Action>, p: nat)
    requires IsRun(s, run) && p < |s.tasks|
    ensures p < |After(s, run).tasks|
    ensures var last := LoadedIn(run, p, s.gen);
            After(s, run).tasks[p].loaded == if last.Some? then last.value else s.tasks[p].loaded
    decreases |run|
  {
    if run != [] {
      LoadStep(s, run[0], p);
      LoadedRun(Next(s, run[0]), run[1..], p);
    }
  }

  /** What a route loaded is the number of changes before it last looked. */
  lemma LoadedIsCurrent(n: nat, run: seq<Action>, p: nat)
    requires IsRun(Init(n), run) && p < n && LoadedIn(run, p, 0).Some?
    ensures p < |After(Init(n), run).tasks| && After(Init(n), run).tasks[p].loaded == LoadedIn(run, p, 0).value
  {
    LoadedRun(Init(n), run, p);
  }

  lemma {:induction false} RunSplit(s: State, run: seq<Action>, k: nat)
    requires IsRun(s, run) && k <= |run|
    ensures IsRun(s, run[..k]) && IsRun(After(s, run[..k]), run[k..]) && After(s, run) == After(After(s, run[..k]), run[k..])
    decreases |run|
  {
    if k == 0 {
      assert run[..0] == [] && run[0..] == run;
    } else {
      RunSplit(Next(s, run[0]), run[1..], k - 1);
      assert run[..k][1..] == run[1..][..k - 1] && run[k..] == run[1..][k - 1..];
    }
  }

  lemma {:induction false} HistoryKept(s: State, run: seq<Action>)
    requires Coherent(s) && IsRun(s, run)
    ensures s.history <= After(s, run).history
    decreases |run|
  {
    if run != [] {
      CoherentStep(s, run[0]);
      HistoryKept(Next(s, run[0]), run[1..]);
    }
  }

  /** The history is what happened: whenever, in a run, nobody holds the registry's lock, the set
      there is then is the one on record for the generation there is then. */
  lemma HistoryIsTrue(n: nat, run: seq<Action>, k: nat)
    requires IsRun(Init(n), run) && k <= |run|
    ensures IsRun(Init(n), run[..k])
    ensures var was, now := After(Init(n), run[..k]), After(Init(n), run);
            was.lock == Free ==> was.gen < |now.history| && now.history[was.gen] == was.all
  {
    RunSplit(Init(n), run, k);
    InitCoherent(n);
    CoherentRun(Init(n), run[..k]);
    HistoryKept(After(Init(n), run[..k]), run[k..]);
  }

  // --------------------------------------------------------------- whom a route offers to ---

  /** What task `p` chose last in a run, whom it has offered the message to since, and whose
      connections were too slow to take it. */
  datatype Round = Round(list: seq<Sub>, offered: seq<Sub>, refused: seq<Sub>)

  function Noted(r: Round, s: State, a: Action, p: nat): Round
    requires Enabled(s, a)
  {
    match a
    case Choose(q, list) => if q == p then Round(list, [], []) else r
    case Offer(q, taking) =>
      if q != p then r else
      var x := s.tasks[p].pc.list[s.tasks[p].pc.i];
      r.(offered := r.offered + [x], refused := r.refused + if taking == Slow then [x] else [])
    case _ => r
  }

  function RoundOf(r: Round, s: State, run: seq<Action>, p: nat): Round
    requires IsRun(s, run)
    decreases |run|
  {
    if run == [] then r else RoundOf(Noted(r, s, run[0], p), Next(s, run[0]), run[1..], p)
  }

  /** The task is as far down its list as it has offered, and has all who refused among the
      expired. */
  predicate InStep(r: Round, t: Task) {
    Delivers(t.pc) ==>
      && (forall x :: x in r.refused ==> x in ExpiredOf(t.pc))
      && r.list == t.pc.list && t.pc.i <= |t.pc.list|
      && r.offered == t.pc.list[..t.pc.i] + if t.pc.Giving? || t.pc.i == |t.pc.list| then [] else [t.pc.list[t.pc.i]]
  }

  /** The task's own step. */
  lemma InStepMoved(r: Round, s: State, a: Action, p: nat)
    requires Enabled(s, a) && !OfRegistry(a) && a.p == p && InStep(r, s.tasks[p])
    ensures InStep(Noted(r, s, a, p), Moved(s, a))
  {
    if a.Offer? || a.Count? || a.Check? {
      var pc := s.tasks[p].pc;
      assert pc.list[..pc.i + 1] == pc.list[..pc.i] + [pc.list[pc.i]];
    }
  }

  lemma InStepKept(r: Round, s: State, a: Action, p: nat)
    requires Enabled(s, a) && p < |s.tasks| && InStep(r, s.tasks[p])
    ensures |Next(s, a).tasks| == |s.tasks| && InStep(Noted(r, s, a, p), Next(s, a).tasks[p])
  {
    if !OfRegistry(a) && a.p == p {
      InStepMoved(r, s, a, p);
    }
  }

  lemma {:induction false} InStepRun(r: Round, s: State, run: seq<Action>, p: nat)
    requires IsRun(s, run) && p < |s.tasks| && InStep(r, s.tasks[p])
    ensures p < |After(s, run).tasks| && InStep(RoundOf(r, s, run, p), After(s, run).tasks[p])
    decreases |run|
  {
    if run != [] {
      InStepKept(r, s, run[0], p);
      InStepRun(Noted(r, s, run[0], p), Next(s, run[0]), run[1..], p);
    }
  }

  /** In every interleaving, a route that is done with its list has offered the message to every
      subscription on it, once each and in order; and before that to a first part of it. */
  lemma OffersInOrder(n: nat, run: seq<Action>, p: nat)
    requires IsRun(Init(n), run) && p < n
    ensures p < |After(Init(n), run).tasks|
    ensures var s := After(Init(n), run);
            var t, r := s.tasks[p], RoundOf(Round([], [], []), Init(n), run, p);
            && (Delivers(t.pc) ==> r.list == ListOf(t.pc) && r.offered <= r.list)
            && (Enabled(s, Finish(p)) ==> r.offered == r.list)
  {
    InStepRun(Round([], [], []), Init(n), run, p);
    var t := After(Init(n), run).tasks[p];
    if Enabled(After(Init(n), run), Finish(p)) {
      assert t.pc.list[..t.pc.i] == t.pc.list;
    }
  }

  /** And once it is done, those whose connections were too slow leave the registry. */
  lemma RefusedLeave(n: nat, run: seq<Action>, p: nat, x: Sub)
    requires IsRun(Init(n), run) && p < n && Enabled(After(Init(n), run), Finish(p))
    requires x in RoundOf(Round([], [], []), Init(n), run, p).refused
    ensures x !in Next(After(Init(n), run), Finish(p)).all
  {
    InitCoherent(n);
    CoherentRun(Init(n), run);
    InStepRun(Round([], [], []), Init(n), run, p);
    var s := After(Init(n), run);
    var expired := s.tasks[p].pc.expired;
    var i :| 0 <= i < |expired| && expired[i] == x;
    assert Like(x, expired[i]);
    if x in s.all {
      ExpiryTakes(s, p, x);
    } else {
      assert Timeline(s)[|s.history|] == s.all;
      ExpiredGo(s.all, expired);
    }
  }

  // -------------------------------------------------------------------- not before its time ---

  function ExpiredOf(pc: Pc): seq<Sub> {
    match pc
    case Giving(_, _, expired) => expired
    case Gave(_, _, expired) => expired
    case Counted(_, _, expired, _) => expired
    case _ => []
  }

  /** The step neither sets `x` a limit below `m` nor has its connection refuse a message. */
  predicate Mild(s: State, a: Action, x: Sub, m: nat)
    requires Enabled(s, a)
  {
    && !(a.SetLimit? && a.sub == x && 0 < a.max < m)
    && !(a.Offer? && a.taking == Slow && s.tasks[a.p].pc.list[s.tasks[a.p].pc.i] == x)
  }

  predicate AllMild(s: State, run: seq<Action>, x: Sub, m: nat)
    requires IsRun(s, run)
    decreases |run|
  {
    run == [] || (Mild(s, run[0], x, m) && AllMild(Next(s, run[0]), run[1..], x, m))
  }

  /** With `d` messages counted: the task has `x` among the expired only if that is `m` or more. */
  predicate TaskSpares(t: Task, x: Sub, m: nat, d: nat) {
    && (x in ExpiredOf(t.pc) ==> d >= m)
    && (t.pc.Counted? && t.pc.i < |t.pc.list| && t.pc.list[t.pc.i] == x ==> t.pc.n <= d)
  }

  predicate Spares(s: State, x: Sub, m: nat) {
    && (Get(s.limit, x) == 0 || Get(s.limit, x) >= m)
    && forall p :: 0 <= p < |s.tasks| ==> TaskSpares(s.tasks[p], x, m, Get(s.delivered, x))
  }

  lemma MovedSpares(s: State, a: Action, x: Sub, m: nat)
    requires Spares(s, x, m) && Enabled(s, a) && !OfRegistry(a) && Mild(s, a, x, m)
    ensures Get(s.delivered, x) <= Get(Next(s, a).delivered, x)
    ensures TaskSpares(Moved(s, a), x, m, Get(Next(s, a).delivered, x))
  {
    assert TaskSpares(s.tasks[a.p], x, m, Get(s.delivered, x));
  }

  lemma SparesStep(s: State, a: Action, x: Sub, m: nat)
    requires Spares(s, x, m) && Enabled(s, a) && Mild(s, a, x, m)
    ensures Spares(Next(s, a), x, m)
  {
    var s' := Next(s, a);
    if !OfRegistry(a) {
      MovedSpares(s, a, x, m);
    }
    forall p | 0 <= p < |s'.tasks|
      ensures TaskSpares(s'.tasks[p], x, m, Get(s'.delivered, x))
    {
      assert TaskSpares(s.tasks[p], x, m, Get(s.delivered, x));
    }
  }

  lemma {:induction false} SparesRun(s: State, run: seq<Action>, x: Sub, m: nat)
    requires Spares(s, x, m) && IsRun(s, run) && AllMild(s, run, x, m)
    ensures Spares(After(s, run), x, m)
    decreases |run|
  {
    if run != [] {
      SparesStep(s, run[0], x, m);
      SparesRun(Next(s, run[0]), run[1..], x, m);
    }
  }

  /** In every interleaving: a subscription whose limits were none or at least `m`, and whose
      connection refused nothing, is on no route's list of the expired before `m` messages to it
      were counted. With no limit ever set that is never. */
  lemma NotBeforeLimit(n: nat, run: seq<Action>, x: Sub, m: nat, p: nat)
    requires IsRun(Init(n), run) && AllMild(Init(n), run, x, m) && p < |After(Init(n), run).tasks|
    ensures var s := After(Init(n), run); x in ExpiredOf(s.tasks[p].pc) ==> Get(s.delivered, x) >= m
  {
    SparesRun(Init(n), run, x, m);
    var s := After(Init(n), run);
    assert TaskSpares(s.tasks[p], x, m, Get(s.delivered, x));
  }
}
