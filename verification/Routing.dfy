/** Routing through the interest cache, as a step system.

    The registry's set changes under its lock, and the generation is moved on before the
    lock is given back; a route loads the generation without the lock. A step is one lock
    section, one atomic operation or one queue push, and the actors are any number of
    publishing tasks beside whoever subscribes, unsubscribes and closes. */
module Routing {
  import opened ByteStrings
  import opened Subjects
  import opened Registry

  /** What a task remembers of the last subject it resolved. */
  datatype Cache = Cache(gen: Option<nat>, subject: Bytes, subs: seq<Sub>)

  /** Where a route stands. `list` is what it delivers to, `list[i]` next. */
  datatype Pc =
    | Idle
    | Loaded                                                     // has loaded the generation
    | Ready                                                      // the cache answers the subject
    | Giving(list: seq<Sub>, i: nat, expired: seq<Sub>)
    | Gave(list: seq<Sub>, i: nat, expired: seq<Sub>)            // queued, not counted yet
    | Counted(list: seq<Sub>, i: nat, expired: seq<Sub>, n: nat) // counted as the n-th
    | Bumping                                                    // removed the expired, under the lock

  /** `wants` is the subject the current route publishes to, `loaded` the generation it
      loaded. */
  datatype Task = Task(pc: Pc, cache: Cache, wants: Bytes, loaded: nat)

  datatype Lock = Free | Changing | ByTask(id: nat)

  /** `history` is the set at each generation, `given` the messages queued so far for each
      subscription, `delivered` and `limit` its two counters. */
  datatype State = State(
    all: seq<Sub>, gen: nat, history: seq<seq<Sub>>, lock: Lock, nextId: nat,
    tasks: seq<Task>, delivered: map<Sub, nat>, limit: map<Sub, nat>, given: map<Sub, nat>)

  function Get(m: map<Sub, nat>, k: Sub): nat { if k in m then m[k] else 0 }

  datatype Taking = Took | Passed | Slow

  datatype Action =
    | Register(subject: Bytes, queue: Option<Bytes>, sid: Bytes, conn: nat)
    | Unregister(sub: Sub) | Drop(conn: nat) | Bump | SetLimit(sub: Sub, max: nat)
    | LoadGen(p: nat, subject: Bytes) | Hit(p: nat) | Resolve(p: nat) | Choose(p: nat, list: seq<Sub>)
    | Offer(p: nat, taking: Taking) | Count(p: nat) | Check(p: nat)
    | Finish(p: nat) | BumpExpired(p: nat)

  function Init(n: nat): State {
    State([], 0, [[]], Free, 0, seq(n, _ => Task(Idle, Cache(None, [], []), [], 0)), map[], map[], map[])
  }

  predicate Distinct(xs: seq<Sub>) {
    forall i, j :: 0 <= i < j < |xs| ==> xs[i].id != xs[j].id
  }

  predicate Within(xs: seq<Sub>, ys: seq<Sub>) {
    forall i :: 0 <= i < |xs| ==> xs[i] in ys
  }

  /** No two of one queue group. */
  predicate OnePerGroup(xs: seq<Sub>) {
    forall i, j :: 0 <= i < j < |xs| && xs[i].queue.Some? ==> xs[i].queue != xs[j].queue
  }

  /** What a route may deliver to: all it resolved, or, if a queue group is there, all the
      plain ones in order and at most one of each group. */
  predicate IsChoice(list: seq<Sub>, subs: seq<Sub>) {
    if AnyQueued(subs) then
      Within(list, subs) && Distinct(list) && OfQueue(list, None) == OfQueue(subs, None) && OnePerGroup(list)
    else list == subs
  }

  predicate Fresh(t: Task) {
    t.pc == Loaded && t.cache.gen == Some(t.loaded) && t.cache.subject == t.wants
  }

  predicate Enabled(s: State, a: Action) {
    match a
    case Register(subject, _, _, _) => s.lock == Free && IsValid(subject)
    case Unregister(_) => s.lock == Free
    case Drop(_) => s.lock == Free
    case Bump => s.lock == Changing
    case SetLimit(_, _) => true
    case LoadGen(p, _) => p < |s.tasks| && s.tasks[p].pc == Idle
    case Hit(p) => p < |s.tasks| && Fresh(s.tasks[p])
    case Resolve(p) => p < |s.tasks| && s.tasks[p].pc == Loaded && !Fresh(s.tasks[p]) && s.lock == Free
    case Choose(p, list) => p < |s.tasks| && s.tasks[p].pc == Ready && IsChoice(list, s.tasks[p].cache.subs)
    case Offer(p, _) => p < |s.tasks| && s.tasks[p].pc.Giving? && s.tasks[p].pc.i < |s.tasks[p].pc.list|
    case Count(p) => p < |s.tasks| && s.tasks[p].pc.Gave? && s.tasks[p].pc.i < |s.tasks[p].pc.list|
    case Check(p) => p < |s.tasks| && s.tasks[p].pc.Counted? && s.tasks[p].pc.i < |s.tasks[p].pc.list|
    case Finish(p) =>
      && p < |s.tasks| && s.tasks[p].pc.Giving? && s.tasks[p].pc.i == |s.tasks[p].pc.list|
      && (s.tasks[p].pc.expired == [] || s.lock == Free)
    case BumpExpired(p) => p < |s.tasks| && s.tasks[p].pc == Bumping
  }

  function Put(s: State, p: nat, t: Task): State
    requires p < |s.tasks|
  {
    s.(tasks := s.tasks[p := t])
  }

  function AtPc(s: State, p: nat, pc: Pc): State
    requires p < |s.tasks|
  {
    Put(s, p, s.tasks[p].(pc := pc))
  }

  function WithoutExpired(all: seq<Sub>, expired: seq<Sub>): seq<Sub>
    decreases |expired|
  {
    if expired == [] then all else WithoutExpired(Keep(NotLike(expired[0]), all), expired[1..])
  }

  function Changed(s: State, all: seq<Sub>): State {
    if all == s.all then s else s.(all := all, lock := Changing)
  }

  function Bumped(s: State): State {
    s.(gen := s.gen + 1, history := s.history + [s.all], lock := Free)
  }

  /** Steps that change the set or the counters of a limit. */
  predicate OfRegistry(a: Action) {
    a.Register? || a.Unregister? || a.Drop? || a.Bump? || a.SetLimit?
  }

  function NextRegistry(s: State, a: Action): State
    requires Enabled(s, a) && OfRegistry(a)
  {
    match a
    case Register(subject, queue, sid, conn) =>
      Changed(s, Inserted(s.all, Made(s.nextId, subject, queue, sid, conn))).(nextId := s.nextId + 1)
    case Unregister(sub) => s.(all := Keep(NotLike(sub), s.all), lock := Changing)
    case Drop(conn) => Changed(s, Keep(NotOf(conn), s.all))
    case Bump => Bumped(s)
    case SetLimit(sub, max) => s.(limit := s.limit[sub := max])
  }

  /** Where a task goes on a step of its own. */
  function Moved(s: State, a: Action): Task
    requires Enabled(s, a) && !OfRegistry(a)
  {
    var t := s.tasks[a.p];
    match a
    case LoadGen(_, subject) => t.(pc := Loaded, wants := subject, loaded := s.gen)
    case Hit(_) => t.(pc := Ready)
    case Resolve(_) => t.(pc := Ready, cache := Cache(Some(s.gen), t.wants, Resolved(s.all, t.wants)))
    case Choose(_, list) => t.(pc := Giving(list, 0, []))
    case Offer(_, taking) =>
      var Giving(list, i, expired) := t.pc;
      t.(pc := match taking
               case Took => Gave(list, i, expired)
               case Passed => Giving(list, i + 1, expired)
               case Slow => Giving(list, i + 1, expired + [list[i]]))
    case Count(_) =>
      var Gave(list, i, expired) := t.pc;
      t.(pc := Counted(list, i, expired, Get(s.delivered, list[i]) + 1))
    case Check(_) =>
      var Counted(list, i, expired, n) := t.pc;
      var max := Get(s.limit, list[i]);
      t.(pc := Giving(list, i + 1, if max != 0 && n >= max then expired + [list[i]] else expired))
    case Finish(_) => t.(pc := if t.pc.expired == [] then Idle else Bumping)
    case BumpExpired(_) => t.(pc := Idle)
  }

  /** What a task's step does beside moving the task. */
  function Touched(s: State, a: Action): State
    requires Enabled(s, a) && !OfRegistry(a)
  {
    match a
    case Offer(p, Took) =>
      var x := s.tasks[p].pc.list[s.tasks[p].pc.i];
      s.(given := s.given[x := Get(s.given, x) + 1])
    case Count(p) =>
      var x := s.tasks[p].pc.list[s.tasks[p].pc.i];
      s.(delivered := s.delivered[x := Get(s.delivered, x) + 1])
    case Finish(p) =>
      var expired := s.tasks[p].pc.expired;
      if expired == [] then s else s.(all := WithoutExpired(s.all, expired), lock := ByTask(p))
    case BumpExpired(p) => Bumped(s)
    case _ => s
  }

  function Next(s: State, a: Action): State
    requires Enabled(s, a)
  {
    if OfRegistry(a) then NextRegistry(s, a) else Put(Touched(s, a), a.p, Moved(s, a))
  }

  predicate IsRun(s: State, run: seq<Action>)
    decreases |run|
  {
    run == [] || (Enabled(s, run[0]) && IsRun(Next(s, run[0]), run[1..]))
  }

  function After(s: State, run: seq<Action>): State
    requires IsRun(s, run)
    decreases |run|
  {
    if run == [] then s else After(Next(s, run[0]), run[1..])
  }

  lemma {:induction false} RunSnoc(s: State, run: seq<Action>, a: Action)
    requires IsRun(s, run) && Enabled(After(s, run), a)
    ensures IsRun(s, run + [a]) && After(s, run + [a]) == Next(After(s, run), a)
    decreases |run|
  {
    if run == [] {
      assert [] + [a] == [a] && [a][1..] == [];
    } else {
      assert (run + [a])[1..] == run[1..] + [a];
      RunSnoc(Next(s, run[0]), run[1..], a);
    }
  }

  // ------------------------------------------------------------------- the history ---

  /** The sets so far, the one being made last. */
  function Timeline(s: State): seq<seq<Sub>> {
    s.history + [s.all]
  }

  /** Once out of the set, a subscription does not come back. */
  predicate NoReturn(h: seq<seq<Sub>>) {
    forall i, j, k, x: Sub :: 0 <= i <= j <= k < |h| && x in h[i] && x !in h[j] ==> x !in h[k]
  }

  predicate Older(h: seq<seq<Sub>>, id: nat) {
    forall i, x: Sub :: 0 <= i < |h| && x in h[i] ==> x.id < id
  }

  predicate Sets(h: seq<seq<Sub>>) {
    forall i :: 0 <= i < |h| ==> Distinct(h[i]) && Legal(h[i])
  }

  predicate HistoryInv(s: State) {
    && |s.history| == s.gen + 1
    && (s.lock == Free ==> s.history[s.gen] == s.all)
    && NoReturn(Timeline(s)) && Older(Timeline(s), s.nextId) && Sets(Timeline(s))
  }

  /** The set shrinks. */
  lemma HistoryShrinks(s: State, all: seq<Sub>, lock: Lock)
    requires HistoryInv(s) && Distinct(all) && Legal(all) && lock != Free
    requires forall x :: x in all ==> x in s.all
    ensures HistoryInv(s.(all := all, lock := lock))
  {
    var h, h' := Timeline(s), s.history + [all];
    var last := |s.history|;
    assert h[last] == s.all && h'[last] == all && forall i :: 0 <= i < last ==> h[i] == h'[i] == s.history[i];
    assert Timeline(s.(all := all, lock := lock)) == h';
    forall i, j, k, x: Sub | 0 <= i <= j <= k < |h'| && x in h'[i] && x !in h'[j]
      ensures x !in h'[k]
    {
      if j < last {
        assert x in h[i] && x !in h[j] && x !in h[k];
      }
    }
  }

  lemma HistoryGrows(s: State, sub: Sub)
    requires HistoryInv(s) && sub.id == s.nextId && IsValid(sub.subject) && WellMade(sub)
    ensures HistoryInv(s.(all := s.all + [sub], lock := Changing, nextId := s.nextId + 1))
  {
    var s' := s.(all := s.all + [sub], lock := Changing, nextId := s.nextId + 1);
    var h, h' := Timeline(s), Timeline(s');
    var last := |s.history|;
    assert h[last] == s.all && h'[last] == s.all + [sub] && forall i :: 0 <= i < last ==> h[i] == h'[i] == s.history[i];
    forall i, j, k, x: Sub | 0 <= i <= j <= k < |h'| && x in h'[i] && x !in h'[j]
      ensures x !in h'[k]
    {
      if j < last {
        assert x in h[i] && x !in h[j] && x.id < s.nextId;
      }
    }
    forall i, x: Sub | 0 <= i < |h'| && x in h'[i]
      ensures x.id < s'.nextId
    {
      if x != sub {
        assert x in h[i];
      }
    }
    DistinctSnoc(s.all, sub);
    assert Legal(s.all);
  }

  lemma DistinctSnoc(xs: seq<Sub>, x: Sub)
    requires Distinct(xs) && forall y :: y in xs ==> y.id != x.id
    ensures Distinct(xs + [x])
  {
    var ys := xs + [x];
    forall i, j | 0 <= i < j < |ys|
      ensures ys[i].id != ys[j].id
    {
      assert xs[i] in xs;
    }
  }

  lemma HistoryBumped(s: State)
    requires HistoryInv(s)
    ensures HistoryInv(Bumped(s))
  {
    var s' := Bumped(s);
    var h, h' := Timeline(s), Timeline(s');
    assert h' == h + [s.all] && h[|s.history|] == s.all;
    forall i, j, k, x: Sub | 0 <= i <= j <= k < |h'| && x in h'[i] && x !in h'[j]
      ensures x !in h'[k]
    {
      var top := |h| - 1;
      var i', j', k' := if i > top then top else i, if j > top then top else j, if k > top then top else k;
      assert h'[i] == h[i'] && h'[j] == h[j'] && h'[k] == h[k'];
    }
  }

  lemma {:induction false} KeepDistinct(q: Pick, xs: seq<Sub>)
    requires Distinct(xs)
    ensures Distinct(Keep(q, xs)) && forall x :: x in Keep(q, xs) ==> x in xs
  {
    KeepHolds(q, xs);
    if xs != [] {
      KeepDistinct(q, xs[1..]);
      KeepHolds(q, xs[1..]);
      var rest := Keep(q, xs[1..]);
      forall y | y in rest
        ensures y.id != xs[0].id
      {
        var i :| 0 <= i < |xs[1..]| && xs[1..][i] == y;
        assert xs[i + 1] == y;
      }
      DistinctCons(xs[0], rest);
      assert [] + rest == rest;
    }
  }

  lemma DistinctCons(x: Sub, ys: seq<Sub>)
    requires Distinct(ys) && forall y :: y in ys ==> y.id != x.id
    ensures Distinct([x] + ys)
  {
    var zs := [x] + ys;
    forall i, j | 0 <= i < j < |zs|
      ensures zs[i].id != zs[j].id
    {
      assert ys[j - 1] in ys;
    }
  }

  lemma {:induction false} ExpiredGo(all: seq<Sub>, expired: seq<Sub>)
    requires Distinct(all) && Legal(all)
    ensures var r := WithoutExpired(all, expired);
            Distinct(r) && Legal(r) && forall x :: x in r <==> x in all && !LikeAny(x, expired)
    decreases |expired|
  {
    if expired != [] {
      var q := NotLike(expired[0]);
      KeepDistinct(q, all);
      KeepHolds(q, all);
      KeepLegal(q, all);
      ExpiredGo(Keep(q, all), expired[1..]);
      forall x
        ensures LikeAny(x, expired) <==> Like(x, expired[0]) || LikeAny(x, expired[1..])
      {
        LikeAnyCons(x, expired);
      }
    }
  }

  /** What removing a list of spent subscriptions takes: any with the connection and sid of
      one of them, in the list that one belonged to. */
  predicate LikeAny(x: Sub, expired: seq<Sub>) {
    exists i :: 0 <= i < |expired| && Like(x, expired[i])
  }

  lemma LikeAnyCons(x: Sub, expired: seq<Sub>)
    requires expired != []
    ensures LikeAny(x, expired) <==> Like(x, expired[0]) || LikeAny(x, expired[1..])
  {
    if LikeAny(x, expired) {
      var i :| 0 <= i < |expired| && Like(x, expired[i]);
      if i > 0 {
        assert expired[1..][i - 1] == expired[i];
      }
    }
    if LikeAny(x, expired[1..]) {
      var i :| 0 <= i < |expired[1..]| && Like(x, expired[1..][i]);
      assert expired[i + 1] == expired[1..][i];
    }
  }

  lemma HistoryStep(s: State, a: Action)
    requires HistoryInv(s) && Enabled(s, a)
    ensures HistoryInv(Next(s, a))
  {
    assert Timeline(s)[|s.history|] == s.all;
    assert Distinct(s.all) && Legal(s.all);
    match a
    case Register(subject, queue, sid, conn) =>
      var sub := Made(s.nextId, subject, queue, sid, conn);
      if Inserted(s.all, sub) == s.all {
        assert Timeline(s.(nextId := s.nextId + 1)) == Timeline(s);
        OlderStill(Timeline(s), s.nextId);
      } else {
        HistoryGrows(s, sub);
      }
    case Unregister(sub) =>
      KeepDistinct(NotLike(sub), s.all);
      KeepLegal(NotLike(sub), s.all);
      HistoryShrinks(s, Keep(NotLike(sub), s.all), Changing);
    case Drop(conn) =>
      KeepDistinct(NotOf(conn), s.all);
      KeepLegal(NotOf(conn), s.all);
      HistoryShrinks(s, Keep(NotOf(conn), s.all), Changing);
    case Bump => HistoryBumped(s);
    case Finish(p) =>
      var expired := s.tasks[p].pc.expired;
      if expired != [] {
        ExpiredGo(s.all, expired);
        HistoryShrinks(s, WithoutExpired(s.all, expired), ByTask(p));
      }
      assert Timeline(Next(s, a)) == Timeline(Touched(s, a));
    case BumpExpired(p) =>
      HistoryBumped(s);
      assert Timeline(Next(s, a)) == Timeline(Bumped(s));
    case _ =>
      assert Timeline(Next(s, a)) == Timeline(s);
  }

  lemma OlderStill(h: seq<seq<Sub>>, id: nat)
    requires Older(h, id)
    ensures Older(h, id + 1)
  {
  }

  // ---------------------------------------------------------------------- the cache ---

  function ListOf(pc: Pc): seq<Sub> {
    match pc
    case Giving(list, _, _) => list
    case Gave(list, _, _) => list
    case Counted(list, _, _, _) => list
    case _ => []
  }

  predicate Delivers(pc: Pc) { pc.Giving? || pc.Gave? || pc.Counted? }

  /** A cache that answers at all answers with the set of the generation it recorded. */
  predicate CacheInv(s: State, c: Cache) {
    c.gen.Some? ==> c.gen.value < |s.history| && c.subs == Resolved(s.history[c.gen.value], c.subject)
  }

  /** A route that is past its look at the cache uses an answer for its own subject, no older
      than the generation it loaded, and delivers to nothing that is not in it, and to nothing twice. */
  predicate RouteInv(s: State, t: Task) {
    && t.loaded <= s.gen
    && (t.pc == Ready || Delivers(t.pc) ==>
          t.cache.subject == t.wants && t.cache.gen.Some? && t.loaded <= t.cache.gen.value)
    && (Delivers(t.pc) ==> Within(ListOf(t.pc), t.cache.subs) && Distinct(ListOf(t.pc)) && t.pc.i <= |t.pc.list|)
    && (t.pc.Gave? || t.pc.Counted? ==> t.pc.i < |t.pc.list|)
  }

  predicate TaskInv(s: State, t: Task) { CacheInv(s, t.cache) && RouteInv(s, t) }

  predicate Coherent(s: State) {
    HistoryInv(s) && forall p :: 0 <= p < |s.tasks| ==> TaskInv(s, s.tasks[p])
  }

  lemma InitCoherent(n: nat)
    ensures Coherent(Init(n))
  {
    var s := Init(n);
    assert Timeline(s) == [[], []];
  }

  /** The history only gets longer, so what a task knows of it stays true. */
  lemma TaskKept(s: State, s': State, t: Task)
    requires TaskInv(s, t) && s.history <= s'.history && s.gen <= s'.gen
    ensures TaskInv(s', t)
  {
  }

  lemma ResolvedDistinct(all: seq<Sub>, subject: Bytes)
    requires Distinct(all)
    ensures Distinct(Resolved(all, subject))
  {
    var a, b := Keep(Under(subject), all), Keep(WildFor(subject), all);
    KeepDistinct(Under(subject), all);
    KeepDistinct(WildFor(subject), all);
    KeepHolds(Under(subject), all);
    KeepHolds(WildFor(subject), all);
    var r := a + b;
    forall i, j | 0 <= i < j < |r|
      ensures r[i].id != r[j].id
    {
      if i < |a| <= j {
        assert a[i] in a && b[j - |a|] in b;
        var x :| 0 <= x < |all| && all[x] == a[i];
        var y :| 0 <= y < |all| && all[y] == b[j - |a|];
        assert x != y;
      }
    }
  }

  lemma ChoiceInv(s: State, t: Task, list: seq<Sub>)
    requires HistoryInv(s) && TaskInv(s, t) && t.pc == Ready && IsChoice(list, t.cache.subs)
    ensures Within(list, t.cache.subs) && Distinct(list)
  {
    var g := t.cache.gen.value;
    assert Timeline(s)[g] == s.history[g];
    ResolvedDistinct(s.history[g], t.cache.subject);
  }

  /** A route up to where the cache answers. */
  lemma LooksInv(s: State, a: Action)
    requires Coherent(s) && Enabled(s, a) && (a.LoadGen? || a.Hit? || a.Resolve?)
    ensures TaskInv(s, Moved(s, a))
  {
    assert TaskInv(s, s.tasks[a.p]);
  }

  /** A route that delivers goes on with its list. */
  lemma GoesOn(s: State, t: Task, t': Task)
    requires TaskInv(s, t) && Delivers(t.pc) && Delivers(t'.pc)
    requires t' == t.(pc := t'.pc) && ListOf(t'.pc) == ListOf(t.pc)
    requires t'.pc.i <= |t'.pc.list| && (t'.pc.Gave? || t'.pc.Counted? ==> t'.pc.i < |t'.pc.list|)
    ensures TaskInv(s, t')
  {
  }

  lemma GivesInv(s: State, a: Action)
    requires Coherent(s) && Enabled(s, a) && (a.Offer? || a.Count? || a.Check?)
    ensures TaskInv(s, Moved(s, a))
  {
    assert TaskInv(s, s.tasks[a.p]);
    GoesOn(s, s.tasks[a.p], Moved(s, a));
  }

  lemma EndsInv(s: State, a: Action)
    requires Coherent(s) && Enabled(s, a) && (a.Finish? || a.BumpExpired?)
    ensures TaskInv(s, Moved(s, a))
  {
    assert TaskInv(s, s.tasks[a.p]);
  }

  lemma MovedInv(s: State, a: Action)
    requires Coherent(s) && Enabled(s, a) && !OfRegistry(a)
    ensures TaskInv(s, Moved(s, a))
  {
    var t := s.tasks[a.p];
    assert TaskInv(s, t);
    if a.Choose? {
      ChoiceInv(s, t, a.list);
    } else if a.LoadGen? || a.Hit? || a.Resolve? {
      LooksInv(s, a);
    } else if a.Finish? || a.BumpExpired? {
      EndsInv(s, a);
    } else {
      GivesInv(s, a);
    }
  }

  lemma CoherentStep(s: State, a: Action)
    requires Coherent(s) && Enabled(s, a)
    ensures Coherent(Next(s, a))
  {
    var s' := Next(s, a);
    HistoryStep(s, a);
    forall p | 0 <= p < |s'.tasks|
      ensures TaskInv(s', s'.tasks[p])
    {
      if !OfRegistry(a) && p == a.p {
        MovedInv(s, a);
        TaskKept(s, s', Moved(s, a));
      } else {
        TaskKept(s, s', s.tasks[p]);
      }
    }
  }

  lemma {:induction false} CoherentRun(s: State, run: seq<Action>)
    requires Coherent(s) && IsRun(s, run)
    ensures Coherent(After(s, run))
    decreases |run|
  {
    if run != [] {
      CoherentStep(s, run[0]);
      CoherentRun(Next(s, run[0]), run[1..]);
    }
  }

  /** A route delivers to a choice from its answer. */
  predicate Choosing(t: Task) {
    Delivers(t.pc) ==> IsChoice(ListOf(t.pc), t.cache.subs)
  }

  predicate AllChoosing(s: State) {
    forall p :: 0 <= p < |s.tasks| ==> Choosing(s.tasks[p])
  }

  /** A step of a route that delivers leaves its list and its answer alone. */
  lemma ListStays(s: State, a: Action)
    requires Enabled(s, a) && !OfRegistry(a) && !a.Choose? && Delivers(Moved(s, a).pc)
    ensures var t, t' := s.tasks[a.p], Moved(s, a);
            Delivers(t.pc) && ListOf(t'.pc) == ListOf(t.pc) && t'.cache == t.cache
  {
  }

  lemma ChosenStays(t: Task, t': Task)
    requires Choosing(t) && Delivers(t.pc) && ListOf(t'.pc) == ListOf(t.pc) && t'.cache == t.cache
    ensures Choosing(t')
  {
  }

  lemma MovedChoosing(s: State, a: Action)
    requires Enabled(s, a) && !OfRegistry(a) && Choosing(s.tasks[a.p])
    ensures Choosing(Moved(s, a))
  {
    if a.Choose? {
      assert ListOf(Moved(s, a).pc) == a.list && Moved(s, a).cache == s.tasks[a.p].cache;
    } else if Delivers(Moved(s, a).pc) {
      ListStays(s, a);
      ChosenStays(s.tasks[a.p], Moved(s, a));
    }
  }

  lemma {:induction false} ChoosingRun(s: State, run: seq<Action>)
    requires AllChoosing(s) && IsRun(s, run)
    ensures AllChoosing(After(s, run))
    decreases |run|
  {
    if run != [] {
      if !OfRegistry(run[0]) {
        MovedChoosing(s, run[0]);
      }
      ChoosingRun(Next(s, run[0]), run[1..]);
    }
  }

  /** The subject task `p` last began to publish to in a run. */
  function Publishing(run: seq<Action>, p: nat): Option<Bytes> {
    if run == [] then None
    else if Publishing(run[1..], p).Some? then Publishing(run[1..], p)
    else if run[0].LoadGen? && run[0].p == p then Some(run[0].subject)
    else None
  }

  /** What a task wants is that subject. */
  lemma {:induction false} WantsIs(s: State, run: seq<Action>, p: nat)
    requires IsRun(s, run) && p < |s.tasks|
    ensures p < |After(s, run).tasks|
    ensures var t, last := After(s, run).tasks[p], Publishing(run, p);
            if last.Some? then t.wants == last.value
            else t.wants == s.tasks[p].wants && (s.tasks[p].pc == Idle ==> t.pc == Idle)
    decreases |run|
  {
    if run != [] {
      WantsStep(s, run[0], p);
      WantsIs(Next(s, run[0]), run[1..], p);
    }
  }

  lemma WantsStep(s: State, a: Action, p: nat)
    requires Enabled(s, a) && p < |s.tasks|
    ensures p < |Next(s, a).tasks|
    ensures var t := Next(s, a).tasks[p];
            if a.LoadGen? && a.p == p then t.wants == a.subject
            else t.wants == s.tasks[p].wants && (s.tasks[p].pc == Idle ==> t.pc == Idle)
  {
    if !OfRegistry(a) && a.p == p {
      assert Next(s, a).tasks[p] == Moved(s, a);
    }
  }

  /** All of the answer if it has no queue group; and otherwise, each once, all the plain ones of
      it in order, no two of one group and nothing else. */
  predicate DeliversTo(list: seq<Sub>, answer: seq<Sub>) {
    && (forall i :: 0 <= i < |list| ==> list[i] in answer)
    && (forall i, j :: 0 <= i < j < |list| && list[i].queue.Some? ==> list[i].queue != list[j].queue)
    && OfQueue(list, None) == OfQueue(answer, None)
    && ((forall i :: 0 <= i < |answer| ==> answer[i].queue.None?) ==> list == answer)
  }

  lemma ChoiceMeans(list: seq<Sub>, answer: seq<Sub>)
    requires IsChoice(list, answer)
    ensures DeliversTo(list, answer)
  {
  }

  /** In every interleaving, the answer a route uses is a set of the registry put through
      "filter all subscriptions by a match with the subject the route publishes to": the set
      of the generation its cache recorded, which is the one the route loaded or a later one.
      The route delivers to all of that answer, or, if a queue group is in it, to all the
      plain ones in order and at most one of each group. */
  lemma CacheCoherence(n: nat, run: seq<Action>, p: nat)
    requires IsRun(Init(n), run) && p < n
    ensures p < |After(Init(n), run).tasks|
    ensures var s := After(Init(n), run);
            var t := s.tasks[p];
            t.pc == Ready || Delivers(t.pc) ==>
              && Publishing(run, p).Some?
              && t.cache.gen.Some? && t.loaded <= t.cache.gen.value <= s.gen == |s.history| - 1
              && (forall x :: x in t.cache.subs
                    <==> x in s.history[t.cache.gen.value] && Matches(x.subject, Publishing(run, p).value))
              && (Delivers(t.pc) ==> DeliversTo(ListOf(t.pc), t.cache.subs))
  {
    InitCoherent(n);
    CoherentRun(Init(n), run);
    ChoosingRun(Init(n), run);
    WantsIs(Init(n), run, p);
    var s := After(Init(n), run);
    var t := s.tasks[p];
    assert TaskInv(s, t) && Choosing(t);
    if t.pc == Ready || Delivers(t.pc) {
      if Delivers(t.pc) {
        ChoiceMeans(ListOf(t.pc), t.cache.subs);
      }
      var g := t.cache.gen.value;
      assert Timeline(s)[g] == s.history[g];
      IndexAgrees(s.history[g], t.cache.subject);
    }
  }

  lemma {:induction false} OfQueueHolds(xs: seq<Sub>, q: Option<Bytes>, x: Sub)
    ensures x in OfQueue(xs, q) <==> x in xs && x.queue == q
  {
    if xs != [] {
      OfQueueHolds(xs[1..], q, x);
      assert xs == [xs[0]] + xs[1..];
    }
  }

  lemma PlainChosen(list: seq<Sub>, subs: seq<Sub>, x: Sub)
    requires IsChoice(list, subs) && x in subs && x.queue.None?
    ensures x in list
  {
    OfQueueHolds(list, None, x);
    OfQueueHolds(subs, None, x);
  }

  /** In every interleaving: a plain subscription that matches the subject, and is in the set
      of the generation a route loaded and still in the set now, is on the list of that route
      while it delivers. */
  lemma NeverPassedOver(n: nat, run: seq<Action>, p: nat, x: Sub)
    requires IsRun(Init(n), run) && p < n && p < |After(Init(n), run).tasks|
    requires var s := After(Init(n), run);
             && Delivers(s.tasks[p].pc) && Publishing(run, p).Some? && Matches(x.subject, Publishing(run, p).value)
             && x.queue.None? && s.tasks[p].loaded < |s.history| && x in s.history[s.tasks[p].loaded] && x in s.all
    ensures x in ListOf(After(Init(n), run).tasks[p].pc)
  {
    InitCoherent(n);
    CoherentRun(Init(n), run);
    CacheCoherence(n, run, p);
    var s := After(Init(n), run);
    var t, h := s.tasks[p], Timeline(s);
    var g, now := t.cache.gen.value, |s.history|;
    assert h[t.loaded] == s.history[t.loaded] && h[g] == s.history[g] && h[now] == s.all;
    assert x in h[g];
    PlainChosen(ListOf(t.pc), t.cache.subs, x);
  }

  /** A subscription gone from the set of a generation is on no list of a route that loaded
      that generation or a later one. */
  lemma GoneIsGone(s: State, t: Task, x: Sub, was: nat, gone: nat)
    requires HistoryInv(s) && TaskInv(s, t)
    requires was <= gone <= t.loaded && gone < |s.history| && x in s.history[was] && x !in s.history[gone]
    ensures t.pc == Ready ==> x !in t.cache.subs
    ensures x !in ListOf(t.pc)
  {
    if t.pc == Ready || Delivers(t.pc) {
      var g := t.cache.gen.value;
      var h := Timeline(s);
      assert h[was] == s.history[was] && h[gone] == s.history[gone] && h[g] == s.history[g];
      assert x !in h[g];
      KeepHolds(Under(t.cache.subject), h[g]);
      KeepHolds(WildFor(t.cache.subject), h[g]);
    }
  }

  /** In every interleaving: a route whose load of the generation comes after the bump of a
      removal never delivers to what was removed. */
  lemma NeverToRemoved(n: nat, run: seq<Action>, p: nat, x: Sub, was: nat, gone: nat)
    requires IsRun(Init(n), run) && p < |After(Init(n), run).tasks|
    requires var s := After(Init(n), run);
             was <= gone <= s.tasks[p].loaded && gone < |s.history| && x in s.history[was] && x !in s.history[gone]
    ensures x !in ListOf(After(Init(n), run).tasks[p].pc)
  {
    InitCoherent(n);
    CoherentRun(Init(n), run);
    var s := After(Init(n), run);
    assert TaskInv(s, s.tasks[p]);
    GoneIsGone(s, s.tasks[p], x, was, gone);
  }

  /** What an expiry takes from the set: it goes by connection and sid, so a subscription
      that is not spent survives exactly when it is like none that is. A newer one on the
      same sid and subject does not. */
  lemma ExpiryTakes(s: State, p: nat, x: Sub)
    requires Coherent(s) && Enabled(s, Finish(p)) && x in s.all
    ensures x in Next(s, Finish(p)).all <==> !LikeAny(x, s.tasks[p].pc.expired)
  {
    assert Timeline(s)[|s.history|] == s.all;
    ExpiredGo(s.all, s.tasks[p].pc.expired);
  }
}
