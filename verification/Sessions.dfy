/** Sessions: SUB, UNSUB, delivery, expiry and close over the registry and each connection's
    own map of subscription ids, a handler at a time. A batch that is under way when another
    task closes its connection still runs its SUBs and UNSUBs. */
module Sessions {
  import opened ByteStrings
  import opened Subjects
  import opened Registry

  datatype Conn = Conn(open: bool, subs: map<Bytes, Sub>)

  /** `made` are all subscriptions there ever were: a task may still be delivering to one that
      has left. `spent` are those that expiry took out of the registry and that their
      connection still lists, `due` those that some task saw reach their limit, or refuse a
      message, and has still to take out, once for each such task. */
  datatype State = State(
    all: seq<Sub>, conns: map<nat, Conn>, nextId: nat, made: set<Sub>,
    delivered: map<Sub, nat>, limit: map<Sub, nat>, spent: set<Sub>, due: multiset<Sub>)

  const Start := State([], map[], 0, {}, map[], map[], {}, multiset{})

  function Get(m: map<Sub, nat>, k: Sub): nat { if k in m then m[k] else 0 }

  datatype Action =
    | Accept(c: nat)
    | Subscribe(c: nat, subject: Bytes, queue: Option<Bytes>, sid: Bytes)
    | Unsubscribe(c: nat, sid: Bytes, max: int)
    | Deliver(sub: Sub)   // counted, and taken out if that was the last
    | Count(sub: Sub)     // counted, and if that was the last to be taken out later
    | Refuse(sub: Sub)    // over the hard mark: the connection is closed, to be taken out later
    | Expire(sub: Sub)    // taken out, late
    | Close(c: nat)

  predicate IsOpen(s: State, c: nat) { c in s.conns && s.conns[c].open }

  predicate Enabled(s: State, a: Action) {
    match a
    case Accept(c) => c !in s.conns
    case Subscribe(c, _, _, _) => c in s.conns
    case Unsubscribe(c, _, _) => c in s.conns
    case Deliver(sub) => sub in s.all && IsOpen(s, sub.conn)
    case Count(sub) => sub in s.made && IsOpen(s, sub.conn)
    case Refuse(sub) => sub in s.made && IsOpen(s, sub.conn)
    case Expire(sub) => sub in s.due
    case Close(c) => IsOpen(s, c)
  }

  predicate LegalSub(subject: Bytes, queue: Option<Bytes>) {
    IsValid(subject) && (queue.Some? ==> IsValid(queue.value))
  }

  /** A limit that is not above the count unsubscribes at once. */
  predicate AtOnce(max: int, delivered: nat) { !(max > 0 && max > delivered) }

  function Subscribed(s: State, c: nat, subject: Bytes, queue: Option<Bytes>, sid: Bytes): State
    requires c in s.conns
  {
    if !LegalSub(subject, queue) || sid in s.conns[c].subs then s
    else
      var sub := Made(s.nextId, subject, queue, sid, c);
      s.(all := Inserted(s.all, sub), nextId := s.nextId + 1, made := s.made + {sub},
         conns := s.conns[c := s.conns[c].(subs := s.conns[c].subs[sid := sub])])
  }

  function Unsubscribed(s: State, c: nat, sid: Bytes, max: int): State
    requires c in s.conns
  {
    if sid !in s.conns[c].subs then s
    else
      var sub := s.conns[c].subs[sid];
      if AtOnce(max, Get(s.delivered, sub)) then
        s.(all := Keep(NotLike(sub), s.all), limit := s.limit[sub := 0], spent := s.spent - {sub},
           conns := s.conns[c := s.conns[c].(subs := s.conns[c].subs - {sid})])
      else s.(limit := s.limit[sub := max])
  }

  /** The next delivery is the last. */
  predicate IsLast(s: State, sub: Sub) {
    var n, max := Get(s.delivered, sub) + 1, Get(s.limit, sub);
    max != 0 && n >= max
  }

  /** One delivery counted. */
  function Tallied(s: State, sub: Sub): State {
    s.(delivered := s.delivered[sub := Get(s.delivered, sub) + 1])
  }

  /** Counted, and the last is due to leave. */
  function Counted(s: State, sub: Sub): State {
    Tallied(s, sub).(due := if IsLast(s, sub) then s.due + multiset{sub} else s.due)
  }

  /** What is taken out goes by connection and sid. */
  function TakenOut(s: State, sub: Sub): State {
    s.(all := Keep(NotLike(sub), s.all), spent := s.spent + (set y | y in s.all && Like(y, sub)))
  }

  function Expired(s: State, sub: Sub): State {
    TakenOut(s, sub).(due := s.due - multiset{sub})
  }

  function Delivered(s: State, sub: Sub): State {
    if IsLast(s, sub) then TakenOut(Tallied(s, sub), sub) else Tallied(s, sub)
  }

  function Closed(s: State, c: nat): State
    requires c in s.conns
  {
    s.(all := Keep(NotOf(c), s.all), conns := s.conns[c := Conn(false, map[])],
       spent := set x | x in s.spent && x.conn != c)
  }

  function Refused(s: State, sub: Sub): State
    requires sub.conn in s.conns
  {
    Closed(s, sub.conn).(due := s.due + multiset{sub})
  }

  function Next(s: State, a: Action): State
    requires Enabled(s, a)
  {
    match a
    case Accept(c) => s.(conns := s.conns[c := Conn(true, map[])])
    case Subscribe(c, subject, queue, sid) => Subscribed(s, c, subject, queue, sid)
    case Unsubscribe(c, sid, max) => Unsubscribed(s, c, sid, max)
    case Deliver(sub) => Delivered(s, sub)
    case Count(sub) => Counted(s, sub)
    case Refuse(sub) => Refused(s, sub)
    case Expire(sub) => Expired(s, sub)
    case Close(c) => Closed(s, c)
  }

  predicate IsRun(s: State, run: seq<Action>)
    decreases |run|
  {
    run == [] || (Enabled(s, run[0]) && IsRun(Next(s, run[0]), run[1..]))
  }

  function After(s: State, run: seq<Action>): State
    requires IsRun(s, run)
    decreases |run|
  {
    if run == [] then s else After(Next(s, run[0]), run[1..])
  }

  lemma {:induction false} RunSnoc(s: State, run: seq<Action>, a: Action)
    requires IsRun(s, run) && Enabled(After(s, run), a)
    ensures IsRun(s, run + [a]) && After(s, run + [a]) == Next(After(s, run), a)
    decreases |run|
  {
    if run == [] {
      assert [] + [a] == [a] && [a][1..] == [];
    } else {
      assert (run + [a])[1..] == run[1..] + [a];
      RunSnoc(Next(s, run[0]), run[1..], a);
    }
  }

  // ------------------------------------------------------------------ the invariant ---

  /** The connection lists this subscription, under its sid. */
  predicate Lists(s: State, x: Sub) {
    x.conn in s.conns && x.sid in s.conns[x.conn].subs && s.conns[x.conn].subs[x.sid] == x
  }

  /** Every entry of the registry is the one its connection lists under its sid. */
  predicate Owned(s: State) { forall x :: x in s.all ==> Lists(s, x) }

  predicate Once(xs: seq<Sub>) {
    forall i, j :: 0 <= i < j < |xs| ==> xs[i] != xs[j]
  }

  /** A sid a connection lists names a subscription of its own. */
  predicate Named(s: State) {
    forall c, sid :: c in s.conns && sid in s.conns[c].subs ==>
      s.conns[c].subs[sid].sid == sid && s.conns[c].subs[sid].conn == c
  }

  /** What a connection lists is in the registry, unless it was spent. */
  predicate Exact(s: State) {
    forall c, sid :: c in s.conns && sid in s.conns[c].subs ==>
      (s.conns[c].subs[sid] in s.all <==> s.conns[c].subs[sid] !in s.spent)
  }

  predicate Inv(s: State) {
    && Legal(s.all) && Once(s.all) && Owned(s) && Named(s) && Exact(s)
    && (forall x :: x in s.spent ==> Lists(s, x) && x !in s.all)
    && (forall c, sid :: c in s.conns && sid in s.conns[c].subs ==> s.conns[c].subs[sid] in s.made)
    && (forall x :: x in s.delivered ==> x in s.made)
    && (forall x :: x in s.made ==> x.id < s.nextId)
  }

  lemma {:induction false} KeepOnce(q: Pick, xs: seq<Sub>)
    requires Once(xs)
    ensures Once(Keep(q, xs))
  {
    if xs != [] {
      KeepOnce(q, xs[1..]);
      KeepHolds(q, xs[1..]);
      var rest := Keep(q, xs[1..]);
      forall y | y in rest
        ensures y != xs[0]
      {
        var i :| 0 <= i < |xs[1..]| && xs[1..][i] == y;
        assert xs[i + 1] == y;
      }
      OnceCons(xs[0], rest);
      assert [] + rest == rest;
    }
  }

  lemma OnceCons(x: Sub, ys: seq<Sub>)
    requires Once(ys) && x !in ys
    ensures Once([x] + ys)
  {
    var zs := [x] + ys;
    forall i, j | 0 <= i < j < |zs|
      ensures zs[i] != zs[j]
    {
      assert ys[j - 1] in ys;
    }
  }

  lemma OnceSnoc(xs: seq<Sub>, x: Sub)
    requires Once(xs) && x !in xs
    ensures Once(xs + [x])
  {
    var zs := xs + [x];
    forall i, j | 0 <= i < j < |zs|
      ensures zs[i] != zs[j]
    {
      assert xs[i] in xs;
    }
  }

  /** Removing by connection and sid takes just the one. */
  lemma LikeIsSame(s: State, x: Sub, sub: Sub)
    requires Owned(s) && x in s.all && Like(x, sub) && Lists(s, sub)
    ensures x == sub
  {
    assert Lists(s, x);
  }

  lemma RemoveOne(s: State, sub: Sub)
    requires Legal(s.all) && Once(s.all) && Owned(s) && Lists(s, sub)
    ensures var left := Keep(NotLike(sub), s.all);
            Legal(left) && Once(left) && forall x :: x in left <==> x in s.all && x != sub
  {
    KeepLegal(NotLike(sub), s.all);
    KeepOnce(NotLike(sub), s.all);
    KeepHolds(NotLike(sub), s.all);
    forall x | x in s.all
      ensures Like(x, sub) <==> x == sub
    {
      if Like(x, sub) {
        LikeIsSame(s, x, sub);
      }
    }
  }

  lemma SubscribeStep(s: State, c: nat, subject: Bytes, queue: Option<Bytes>, sid: Bytes)
    requires Inv(s) && c in s.conns
    ensures Inv(Subscribed(s, c, subject, queue, sid))
    ensures LegalSub(subject, queue) && sid !in s.conns[c].subs ==>
              Subscribed(s, c, subject, queue, sid).all == s.all + [Made(s.nextId, subject, queue, sid, c)]
  {
    if LegalSub(subject, queue) && sid !in s.conns[c].subs {
      var sub := Made(s.nextId, subject, queue, sid, c);
      forall x | x in s.all
        ensures !Same(x, sub) && x != sub
      {
        assert Lists(s, x);
      }
      OnceSnoc(s.all, sub);
      Listed(s, Subscribed(s, c, subject, queue, sid), sub);
    }
  }

  /** One subscription joins the registry and its connection's map. */
  lemma Listed(s: State, s': State, sub: Sub)
    requires Inv(s) && sub.conn in s.conns && sub.sid !in s.conns[sub.conn].subs && sub.id == s.nextId
    requires s' == s.(all := s.all + [sub], nextId := s.nextId + 1, made := s.made + {sub},
                      conns := s.conns[sub.conn := s.conns[sub.conn].(subs := s.conns[sub.conn].subs[sub.sid := sub])])
    requires Legal(s'.all) && Once(s'.all)
    ensures Inv(s')
  {
    assert sub !in s.made;
    forall x | x in s'.all
      ensures Lists(s', x)
    {
      assert x in s.all ==> Lists(s, x);
    }
    forall x | x in s.spent
      ensures Lists(s', x) && x !in s'.all
    {
      assert Lists(s, x);
    }
  }

  lemma UnsubscribeStep(s: State, c: nat, sid: Bytes, max: int)
    requires Inv(s) && c in s.conns
    ensures Inv(Unsubscribed(s, c, sid, max))
  {
    var s' := Unsubscribed(s, c, sid, max);
    if sid in s.conns[c].subs {
      var sub := s.conns[c].subs[sid];
      assert Lists(s, sub);
      if AtOnce(max, Get(s.delivered, sub)) {
        RemoveOne(s, sub);
        Unlisted(s, s', sub);
      } else {
        OthersListed(s, s');
      }
    }
  }

  lemma OthersListed(s: State, s': State)
    requires Inv(s) && s' == s.(limit := s'.limit)
    ensures Inv(s')
  {
    forall x | x in s.all || x in s.spent
      ensures Lists(s', x)
    {
      assert Lists(s, x);
    }
  }

  /** One subscription leaves the registry and its connection's map. */
  lemma Unlisted(s: State, s': State, sub: Sub)
    requires Inv(s) && Lists(s, sub)
    requires s' == s.(all := s'.all, limit := s'.limit, spent := s.spent - {sub},
                      conns := s.conns[sub.conn := s.conns[sub.conn].(subs := s.conns[sub.conn].subs - {sub.sid})])
    requires Legal(s'.all) && Once(s'.all) && forall x :: x in s'.all <==> x in s.all && x != sub
    ensures Inv(s')
  {
    forall x | x in s'.all || x in s'.spent
      ensures Lists(s', x)
    {
      assert Lists(s, x);
    }
  }

  lemma TallyStep(s: State, sub: Sub)
    requires Inv(s) && sub in s.made
    ensures Inv(Tallied(s, sub))
  {
    StillListed(s, Tallied(s, sub));
  }

  /** With the same registry and maps, everything is still listed. */
  lemma StillListed(s: State, s': State)
    requires Inv(s) && s'.conns == s.conns && s'.all == s.all && s'.spent == s.spent
    ensures forall x :: x in s'.all || x in s'.spent ==> Lists(s', x)
  {
    forall x | x in s'.all || x in s'.spent
      ensures Lists(s', x)
    {
      assert Lists(s, x);
    }
  }

  lemma CountStep(s: State, sub: Sub)
    requires Inv(s) && sub in s.made
    ensures Inv(Counted(s, sub))
  {
    StillListed(s, Counted(s, sub));
  }

  lemma TakeStep(s: State, sub: Sub)
    requires Inv(s)
    ensures Inv(TakenOut(s, sub))
  {
    KeepLegal(NotLike(sub), s.all);
    KeepOnce(NotLike(sub), s.all);
    KeepHolds(NotLike(sub), s.all);
    var s' := TakenOut(s, sub);
    forall x | x in s'.all || x in s'.spent
      ensures Lists(s', x)
    {
      assert Lists(s, x);
    }
  }

  lemma ExpireStep(s: State, sub: Sub)
    requires Inv(s)
    ensures Inv(Expired(s, sub))
  {
    TakeStep(s, sub);
    StillListed(TakenOut(s, sub), Expired(s, sub));
  }

  lemma DeliverStep(s: State, sub: Sub)
    requires Inv(s) && sub in s.all
    ensures Inv(Delivered(s, sub))
  {
    assert Lists(s, sub);
    TallyStep(s, sub);
    TakeStep(Tallied(s, sub), sub);
  }

  lemma CloseStep(s: State, c: nat)
    requires Inv(s) && IsOpen(s, c)
    ensures Inv(Closed(s, c))
    ensures forall x :: x in Closed(s, c).all ==> x.conn != c
  {
    KeepLegal(NotOf(c), s.all);
    KeepOnce(NotOf(c), s.all);
    KeepHolds(NotOf(c), s.all);
    var s' := Closed(s, c);
    forall x | x in s'.all || x in s'.spent
      ensures Lists(s', x)
    {
      assert Lists(s, x);
    }
  }

  lemma RefuseStep(s: State, sub: Sub)
    requires Inv(s) && IsOpen(s, sub.conn)
    ensures Inv(Refused(s, sub))
  {
    CloseStep(s, sub.conn);
    var s', s1 := Refused(s, sub), Closed(s, sub.conn);
    forall x | x in s'.all || x in s'.spent
      ensures Lists(s', x)
    {
      assert Lists(s1, x);
    }
  }

  lemma InvStep(s: State, a: Action)
    requires Inv(s) && Enabled(s, a)
    ensures Inv(Next(s, a))
  {
    match a
    case Accept(c) =>
      forall x | x in s.all || x in s.spent
        ensures Lists(Next(s, a), x)
      {
        assert Lists(s, x);
      }
    case Subscribe(c, subject, queue, sid) => SubscribeStep(s, c, subject, queue, sid);
    case Unsubscribe(c, sid, max) => UnsubscribeStep(s, c, sid, max);
    case Deliver(sub) => DeliverStep(s, sub);
    case Count(sub) => CountStep(s, sub);
    case Refuse(sub) => RefuseStep(s, sub);
    case Expire(sub) => ExpireStep(s, sub);
    case Close(c) => CloseStep(s, c);
  }

  lemma {:induction false} InvRun(s: State, run: seq<Action>)
    requires Inv(s) && IsRun(s, run)
    ensures Inv(After(s, run))
    decreases |run|
  {
    if run != [] {
      InvStep(s, run[0]);
      InvRun(Next(s, run[0]), run[1..]);
    }
  }

  /** Over every run, late expiries and batches on closed connections included: each
      connection and sid has at most one entry, the one its own map holds; and what the map
      holds is in the registry exactly when no expiry took it. */
  lemma RegistryInvariant(run: seq<Action>)
    requires IsRun(Start, run)
    ensures var s := After(Start, run);
            && (forall i, j :: 0 <= i < j < |s.all| ==> s.all[i].conn != s.all[j].conn || s.all[i].sid != s.all[j].sid)
            && (forall x :: x in s.all ==> Lists(s, x))
            && (forall c, sid :: c in s.conns && sid in s.conns[c].subs ==>
                  (s.conns[c].subs[sid] in s.all <==> s.conns[c].subs[sid] !in s.spent))
  {
    InvRun(Start, run);
    var s := After(Start, run);
    forall i, j | 0 <= i < j < |s.all|
      ensures s.all[i].conn != s.all[j].conn || s.all[i].sid != s.all[j].sid
    {
      assert Lists(s, s.all[i]) && Lists(s, s.all[j]);
    }
  }

  /** A spent sid cannot be used again until it is unsubscribed: a SUB on it changes nothing
      and no later limit brings it back. */
  lemma SpentSidStaysSpent(s: State, x: Sub, subject: Bytes, queue: Option<Bytes>, max: int)
    requires Inv(s) && x in s.spent
    ensures Subscribed(s, x.conn, subject, queue, x.sid) == s
    ensures Unsubscribed(s, x.conn, x.sid, max).all == s.all
    ensures x in Unsubscribed(s, x.conn, x.sid, max).spent <==> Get(s.delivered, x) < max
  {
    assert Lists(s, x);
    forall y | y in s.all
      ensures Holds(NotLike(x), y)
    {
      if Like(y, x) {
        LikeIsSame(s, y, x);
      }
    }
    KeepAll(NotLike(x), s.all);
  }

  /** After SUB, UNSUB with a limit of one and one delivery, the sid is still listed. */
  lemma SpentSidListed(subject: Bytes, sid: Bytes) returns (run: seq<Action>)
    requires IsValid(subject)
    ensures IsRun(Start, run)
    ensures var s := After(Start, run); s.all == [] && IsOpen(s, 0) && sid in s.conns[0].subs
  {
    var x := Made(0, subject, None, sid, 0);
    run := Subscribes(subject, sid);
    RunSnoc(Start, run, Unsubscribe(0, sid, 1));
    run := run + [Unsubscribe(0, sid, 1)];
    assert IsLast(After(Start, run), x);
    RunSnoc(Start, run, Deliver(x));
    run := run + [Deliver(x)];
    NoneLike(x);
  }

  /** A connection with one subscription. */
  lemma Subscribes(subject: Bytes, sid: Bytes) returns (run: seq<Action>)
    requires IsValid(subject)
    ensures IsRun(Start, run)
    ensures var s, x := After(Start, run), Made(0, subject, None, sid, 0);
            s == State([x], map[0 := Conn(true, map[sid := x])], 1, {x}, map[], map[], {}, multiset{})
  {
    var x := Made(0, subject, None, sid, 0);
    assert IsRun(Start, []) && After(Start, []) == Start;
    RunSnoc(Start, [], Accept(0));
    run := [] + [Accept(0)];
    RunSnoc(Start, run, Subscribe(0, subject, None, sid));
    run := run + [Subscribe(0, subject, None, sid)];
    assert Inserted([], x) == [x];
  }

  lemma NoneLike(x: Sub)
    ensures Keep(NotLike(x), [x]) == [] && Keep(NotOf(x.conn), [x]) == []
  {
    assert [x][1..] == [];
  }

  // ------------------------------------------------------------- where entries come from ---

  /** A SUB of this run asked for just this. */
  predicate AskedFor(run: seq<Action>, x: Sub) {
    exists i :: 0 <= i < |run| && run[i] == Subscribe(x.conn, x.subject, x.queue, x.sid)
  }

  /** A legal subject, and a legal queue name if there is one. */
  predicate LegalEntry(x: Sub) {
    IsValid(x.subject) && (x.queue.Some? ==> IsValid(x.queue.value))
  }

  /** The step takes `x` out of the registry. */
  predicate Leaves(s: State, a: Action, x: Sub)
    requires Enabled(s, a)
  {
    match a
    case Unsubscribe(c, sid, max) =>
      var subs := s.conns[c].subs;
      sid in subs && AtOnce(max, Get(s.delivered, subs[sid])) && Like(x, subs[sid])
    case Deliver(sub) => IsLast(s, sub) && Like(x, sub)
    case Expire(sub) => Like(x, sub)
    case Refuse(sub) => x.conn == sub.conn
    case Close(c) => x.conn == c
    case _ => false
  }

  lemma MembersAfter(s: State, a: Action, x: Sub)
    requires Enabled(s, a) && !a.Subscribe?
    ensures x in Next(s, a).all <==> x in s.all && !Leaves(s, a, x)
  {
    match a
    case Unsubscribe(c, sid, max) =>
      if sid in s.conns[c].subs {
        KeepHolds(NotLike(s.conns[c].subs[sid]), s.all);
      }
    case Deliver(sub) => KeepHolds(NotLike(sub), s.all);
    case Expire(sub) => KeepHolds(NotLike(sub), s.all);
    case Refuse(sub) => KeepHolds(NotOf(sub.conn), s.all);
    case Close(c) => KeepHolds(NotOf(c), s.all);
    case _ =>
  }

  lemma EntryStep(s: State, a: Action, x: Sub)
    requires Enabled(s, a) && x in Next(s, a).all && x !in s.all
    ensures a == Subscribe(x.conn, x.subject, x.queue, x.sid) && LegalEntry(x) && x.id == s.nextId
  {
    if !a.Subscribe? {
      MembersAfter(s, a, x);
    }
  }

  lemma {:induction false} EntryRun(s: State, run: seq<Action>, x: Sub)
    requires IsRun(s, run) && x in After(s, run).all && x !in s.all
    ensures AskedFor(run, x) && LegalEntry(x)
    decreases |run|
  {
    var s' := Next(s, run[0]);
    if x in s'.all {
      EntryStep(s, run[0], x);
    } else {
      EntryRun(s', run[1..], x);
      var i :| 0 <= i < |run[1..]| && run[1..][i] == Subscribe(x.conn, x.subject, x.queue, x.sid);
      assert run[i + 1] == run[1..][i];
    }
  }

  /** Over every run, each entry of the registry has the connection, subject, queue and sid that
      some SUB of the run asked for, and they are legal. */
  lemma EntriesAsAsked(run: seq<Action>, x: Sub)
    requires IsRun(Start, run) && x in After(Start, run).all
    ensures AskedFor(run, x) && IsValid(x.subject) && (x.queue.Some? ==> IsValid(x.queue.value))
  {
    EntryRun(Start, run, x);
  }

  /** After any run, a SUB adds the one entry it asks for, if what it asks for is legal and its
      connection does not list the sid; and otherwise nothing. */
  lemma SubscribeAdds(run: seq<Action>, c: nat, subject: Bytes, queue: Option<Bytes>, sid: Bytes)
    requires IsRun(Start, run) && c in After(Start, run).conns
    ensures var s := After(Start, run);
            var s' := Next(s, Subscribe(c, subject, queue, sid));
            if IsValid(subject) && (queue.Some? ==> IsValid(queue.value)) && sid !in s.conns[c].subs then
              && |s'.all| == |s.all| + 1 && s'.all[..|s.all|] == s.all
              && var x := s'.all[|s.all|];
                 x.conn == c && x.subject == subject && x.queue == queue && x.sid == sid && x !in s.made
            else s' == s
  {
    InvRun(Start, run);
    SubscribeStep(After(Start, run), c, subject, queue, sid);
  }

  // ------------------------------------------------------------------- limits over runs ---

  /** A step that has nothing to do with `x`, or delivers to it. */
  predicate Aside(a: Action, x: Sub) {
    match a
    case Unsubscribe(c, sid, _) => c != x.conn || sid != x.sid
    case Close(c) => c != x.conn
    case Refuse(sub) => sub.conn != x.conn
    case Expire(sub) => !Like(x, sub)
    case Count(sub) => sub != x
    case _ => true
  }

  predicate AllAside(run: seq<Action>, x: Sub) {
    run == [] || (Aside(run[0], x) && AllAside(run[1..], x))
  }

  /** How many messages a run delivers to `x`. */
  function Given(run: seq<Action>, x: Sub): nat {
    if run == [] then 0 else (if run[0] == Deliver(x) then 1 else 0) + Given(run[1..], x)
  }

  lemma AsideStep(s: State, a: Action, x: Sub)
    requires Inv(s) && x in s.all && Enabled(s, a) && Aside(a, x) && a != Deliver(x)
    ensures var s' := Next(s, a);
            x in s'.all && Get(s'.delivered, x) == Get(s.delivered, x) && Get(s'.limit, x) == Get(s.limit, x)
  {
    CountsKept(s, a, x);
    if !a.Subscribe? {
      MembersAfter(s, a, x);
      if a.Deliver? {
        assert Lists(s, a.sub) && Lists(s, x);
      }
    }
  }

  lemma CountsKept(s: State, a: Action, x: Sub)
    requires Named(s) && Enabled(s, a) && Aside(a, x) && a != Deliver(x)
    ensures Get(Next(s, a).delivered, x) == Get(s.delivered, x) && Get(Next(s, a).limit, x) == Get(s.limit, x)
  {
  }

  lemma {:induction false} NothingGiven(s: State, x: Sub, later: seq<Action>)
    requires x !in s.all && x.id < s.nextId && IsRun(s, later)
    ensures Given(later, x) == 0 && x !in After(s, later).all
    decreases |later|
  {
    if later != [] {
      GoneStep(s, x, later[0]);
      NothingGiven(Next(s, later[0]), x, later[1..]);
    }
  }

  /** A registered subscription, its limit not reached or none set: it stays through whatever has
      nothing to do with it, until it was given as many messages as the limit says. */
  lemma {:induction false} LimitRun(s: State, x: Sub, later: seq<Action>)
    requires Inv(s) && x in s.all && IsRun(s, later) && AllAside(later, x)
    requires Get(s.limit, x) == 0 || Get(s.delivered, x) < Get(s.limit, x)
    ensures var n, m := Get(s.delivered, x) + Given(later, x), Get(s.limit, x);
            (x in After(s, later).all <==> m == 0 || n < m) && (m == 0 || n <= m)
    decreases |later|
  {
    if later != [] {
      var a, s' := later[0], Next(s, later[0]);
      InvStep(s, a);
      if a != Deliver(x) {
        AsideStep(s, a, x);
        LimitRun(s', x, later[1..]);
      } else if IsLast(s, x) {
        KeepHolds(NotLike(x), s.all);
        assert Lists(s, x);
        NothingGiven(s', x, later[1..]);
      } else {
        LimitRun(s', x, later[1..]);
      }
    }
  }

  /** After any run, an UNSUB with limit `m` on a registered subscription that was given `d`
      messages: it stays if and only if `m` is above `d`; and then, whatever else happens that has
      nothing to do with it, it stays exactly until message number `m`. */
  lemma LimitDecides(before: seq<Action>, x: Sub, m: int, later: seq<Action>)
    requires IsRun(Start, before) && x in After(Start, before).all
    requires var s := After(Start, before);
             && Enabled(s, Unsubscribe(x.conn, x.sid, m)) && IsRun(Next(s, Unsubscribe(x.conn, x.sid, m)), later)
             && AllAside(later, x)
    ensures var s := After(Start, before);
            var s', d := Next(s, Unsubscribe(x.conn, x.sid, m)), Get(s.delivered, x);
            && (x in s'.all <==> d < m)
            && (d < m ==> (x in After(s', later).all <==> d + Given(later, x) < m) && d + Given(later, x) <= m)
  {
    InvRun(Start, before);
    var s := After(Start, before);
    var a := Unsubscribe(x.conn, x.sid, m);
    assert Lists(s, x);
    InvStep(s, a);
    KeepHolds(NotLike(x), s.all);
    if Get(s.delivered, x) < m {
      LimitRun(Next(s, a), x, later);
    }
  }

  /** A step that can take `x` out only for having reached its limit. */
  predicate Near(a: Action, x: Sub) {
    match a
    case Unsubscribe(c, sid, _) => c != x.conn || sid != x.sid
    case Close(c) => c != x.conn
    case Refuse(sub) => sub.conn != x.conn
    case Count(sub) => !Like(x, sub) || sub == x
    case _ => true
  }

  predicate AllNear(run: seq<Action>, x: Sub) {
    run == [] || (Near(run[0], x) && AllNear(run[1..], x))
  }

  predicate AtLimit(s: State, x: Sub) { 0 < Get(s.limit, x) <= Get(s.delivered, x) }

  /** Registered with nothing due that would take it out, or at its limit. */
  predicate Entitled(s: State, x: Sub) {
    AtLimit(s, x) || (x in s.all && forall y :: y in s.due ==> !Like(x, y))
  }

  lemma AtLimitStep(s: State, a: Action, x: Sub)
    requires Named(s) && Enabled(s, a) && Near(a, x)
    ensures Get(Next(s, a).limit, x) == Get(s.limit, x) && Get(Next(s, a).delivered, x) >= Get(s.delivered, x)
  {
  }

  lemma NearStep(s: State, a: Action, x: Sub)
    requires Inv(s) && Entitled(s, x) && Enabled(s, a) && Near(a, x)
    ensures Entitled(Next(s, a), x)
  {
    AtLimitStep(s, a, x);
    if !AtLimit(s, x) && !a.Subscribe? {
      MembersAfter(s, a, x);
      if a.Deliver? {
        assert Lists(s, a.sub) && Lists(s, x);
      }
    }
  }

  /** Whatever happens, early or late, but for an UNSUB of its sid, the end of its connection and
      the expiry of an older subscription like it: a registered subscription leaves only once as
      many messages as its limit says were counted. */
  lemma {:induction false} NotBeforeLimit(s: State, x: Sub, later: seq<Action>)
    requires Inv(s) && Entitled(s, x) && IsRun(s, later) && AllNear(later, x)
    ensures Entitled(After(s, later), x)
    ensures x !in After(s, later).all ==> 0 < Get(s.limit, x) <= Get(After(s, later).delivered, x)
    decreases |later|
  {
    if later != [] {
      NearStep(s, later[0], x);
      AtLimitStep(s, later[0], x);
      InvStep(s, later[0]);
      NotBeforeLimit(Next(s, later[0]), x, later[1..]);
    }
  }

  /** And one without a limit stays. */
  lemma UnlimitedStays(before: seq<Action>, x: Sub, later: seq<Action>)
    requires IsRun(Start, before) && x in After(Start, before).all && Get(After(Start, before).limit, x) == 0
    requires IsRun(After(Start, before), later) && AllAside(later, x)
    ensures x in After(After(Start, before), later).all
  {
    InvRun(Start, before);
    LimitRun(After(Start, before), x, later);
  }

  // ------------------------------------------------------------- SUB after the close ---

  /** A step that takes `x` out, if `x` is there and its connection is closed: an UNSUB of its
      sid without a limit, later in the batch, or the late expiry of an older subscription
      with its sid. */
  predicate Takes(a: Action, x: Sub) {
    || (a.Unsubscribe? && a.c == x.conn && a.sid == x.sid && a.max <= 0)
    || (a.Expire? && Like(x, a.sub))
  }

  /** An entry of a closed connection, to which nothing was delivered. */
  predicate Stranded(s: State, x: Sub) {
    Inv(s) && x in s.all && x.conn in s.conns && !s.conns[x.conn].open && x !in s.delivered
  }

  lemma StrandedStep(s: State, x: Sub, a: Action)
    requires Stranded(s, x) && Enabled(s, a)
    ensures if Takes(a, x) then x !in Next(s, a).all else Stranded(Next(s, a), x)
  {
    InvStep(s, a);
    StillClosed(s, x, a);
    if a.Unsubscribe? {
      StrandedUnsub(s, x, a.c, a.sid, a.max);
    } else {
      StrandedOther(s, x, a);
    }
  }

  /** A closed connection stays closed, and nothing is delivered to it. */
  lemma StillClosed(s: State, x: Sub, a: Action)
    requires Enabled(s, a) && x.conn in s.conns && !s.conns[x.conn].open && x !in s.delivered
    ensures var s' := Next(s, a); x.conn in s'.conns && !s'.conns[x.conn].open && x !in s'.delivered
  {
  }

  lemma StrandedUnsub(s: State, x: Sub, c: nat, sid: Bytes, max: int)
    requires Stranded(s, x) && c in s.conns
    ensures x in Unsubscribed(s, c, sid, max).all <==> !Takes(Unsubscribe(c, sid, max), x)
  {
    assert Lists(s, x);
    if sid in s.conns[c].subs {
      KeepHolds(NotLike(s.conns[c].subs[sid]), s.all);
    }
  }

  lemma StrandedOther(s: State, x: Sub, a: Action)
    requires Stranded(s, x) && Enabled(s, a) && !a.Unsubscribe?
    ensures x in Next(s, a).all <==> !Takes(a, x)
  {
    if !a.Subscribe? {
      MembersAfter(s, a, x);
    }
  }

  /** No step brings a subscription back. */
  lemma GoneStep(s: State, x: Sub, a: Action)
    requires x !in s.all && x.id < s.nextId && Enabled(s, a)
    ensures x !in Next(s, a).all && x.id < Next(s, a).nextId
  {
    if x in Next(s, a).all {
      EntryStep(s, a, x);
    }
  }

  lemma {:induction false} GoneRun(s: State, x: Sub, later: seq<Action>)
    requires x !in s.all && x.id < s.nextId && IsRun(s, later)
    ensures x !in After(s, later).all
    decreases |later|
  {
    if later != [] {
      GoneStep(s, x, later[0]);
      GoneRun(Next(s, later[0]), x, later[1..]);
    }
  }

  lemma {:induction false} StrandedRun(s: State, x: Sub, later: seq<Action>)
    requires Stranded(s, x) && IsRun(s, later)
    ensures x in After(s, later).all <==> forall i :: 0 <= i < |later| ==> !Takes(later[i], x)
    decreases |later|
  {
    if later != [] {
      var a, s' := later[0], Next(s, later[0]);
      StrandedStep(s, x, a);
      if Takes(a, x) {
        assert Lists(s, x);
        GoneRun(s', x, later[1..]);
      } else {
        StrandedRun(s', x, later[1..]);
        assert forall i :: 0 <= i < |later[1..]| ==> later[1..][i] == later[i + 1];
        assert forall i :: 0 < i < |later| ==> later[i] == later[1..][i - 1];
      }
    }
  }

  /** After any run: a SUB that a batch still runs on a connection another task has closed
      registers all the same. The entry then stays, whatever else happens, if and only if no
      UNSUB without a limit of that connection and sid follows, and no late expiry of an older
      subscription like it. */
  lemma SubAfterCloseStaysIff(before: seq<Action>, c: nat, subject: Bytes, queue: Option<Bytes>, sid: Bytes,
                              later: seq<Action>)
    requires IsRun(Start, before)
    requires var s := After(Start, before);
             && c in s.conns && !s.conns[c].open && sid !in s.conns[c].subs && LegalSub(subject, queue)
             && IsRun(Subscribed(s, c, subject, queue, sid), later)
    ensures var s := After(Start, before);
            var s', x := Subscribed(s, c, subject, queue, sid), Made(s.nextId, subject, queue, sid, c);
            && Enabled(s, Subscribe(c, subject, queue, sid)) && s'.all == s.all + [x]
            && x.conn == c && x.subject == subject && x.queue == queue && x.sid == sid
            && (x in After(s', later).all <==> forall i :: 0 <= i < |later| ==> !Takes(later[i], x))
  {
    var s := After(Start, before);
    var s', x := Subscribed(s, c, subject, queue, sid), Made(s.nextId, subject, queue, sid, c);
    InvRun(Start, before);
    SubscribeStep(s, c, subject, queue, sid);
    assert Stranded(s', x);
    StrandedRun(s', x, later);
  }

  /** Such a run: accepted, closed by another task, and then a SUB of the batch. */
  lemma SubAfterCloseLeaks(subject: Bytes, sid: Bytes) returns (run: seq<Action>)
    requires IsValid(subject)
    ensures IsRun(Start, run)
    ensures var s := After(Start, run); s.all == [Made(0, subject, None, sid, 0)] && 0 in s.conns && !s.conns[0].open
  {
    var x := Made(0, subject, None, sid, 0);
    assert IsRun(Start, []) && After(Start, []) == Start;
    RunSnoc(Start, [], Accept(0));
    run := [] + [Accept(0)];
    RunSnoc(Start, run, Close(0));
    run := run + [Close(0)];
    RunSnoc(Start, run, Subscribe(0, subject, None, sid));
    run := run + [Subscribe(0, subject, None, sid)];
    assert Inserted([], x) == [x];
  }

  /** The usual way the two meet: a delivery is refused, which closes the connection; its batch
      goes on to make another subscription on the sid; and the removal of the refused one
      takes that. */
  lemma RefusalTakesNewer(subject: Bytes, sid: Bytes) returns (run: seq<Action>)
    requires IsValid(subject)
    ensures IsRun(Start, run)
    ensures var s, x := After(Start, run), Made(0, subject, None, sid, 0);
            && s.all == [Made(1, subject, None, sid, 0)] && !IsOpen(s, 0)
            && Enabled(s, Expire(x)) && Next(s, Expire(x)).all == []
  {
    var x, y := Made(0, subject, None, sid, 0), Made(1, subject, None, sid, 0);
    run := Subscribes(subject, sid);
    RunSnoc(Start, run, Refuse(x));
    run := run + [Refuse(x)];
    NoneLike(x);
    assert Inserted([], y) == [y];
    RunSnoc(Start, run, Subscribe(0, subject, None, sid));
    run := run + [Subscribe(0, subject, None, sid)];
    assert Keep(NotLike(x), [y]) == [] by {
      assert [y][1..] == [] && Like(y, x);
    }
  }

  // ------------------------------------------------------------------ the handlers ---

  /** The delivery counter and the limit of one subscription. */
  class Meter {
    var delivered: nat
    var limit: nat

    constructor ()
      ensures delivered == 0 && limit == 0
    {
      delivered, limit := 0, 0;
    }

    /** Raises the limit, or says that the subscription is over. */
    method SetLimit(max: int) returns (over: bool)
      modifies this`limit
      ensures over <==> max <= delivered
      ensures limit == if over then 0 else max
    {
      if max > 0 && max > delivered {
        limit := max;
        over := false;
      } else {
        limit := 0;
        over := true;
      }
    }

    /** Counts a delivery: the limit is reached at the delivery whose number it is. */
    method Account() returns (spent: bool)
      modifies this`delivered
      ensures delivered == old(delivered) + 1
      ensures old(delivered) < limit ==> (spent <==> delivered == limit)
      ensures limit == 0 ==> !spent
    {
      delivered := delivered + 1;
      spent := limit != 0 && delivered >= limit;
    }
  }

  class Session {
    const c: nat
    var open: bool
    var subs: map<Bytes, Sub>

    constructor (c: nat)
      ensures this.c == c && open && subs == map[]
    {
      this.c := c;
      open, subs := true, map[];
    }

    ghost predicate Mirrors(reg: Index, s: State)
      reads this, reg
    {
      reg.Valid() && reg.all == s.all && c in s.conns && s.conns[c] == Conn(open, subs)
    }

    method Subscribe(reg: Index, id: nat, subject: Bytes, queue: Option<Bytes>, sid: Bytes, ghost s: State)
      returns (legal: bool)
      requires Mirrors(reg, s) && id == s.nextId
      modifies this, reg
      ensures Mirrors(reg, Subscribed(s, c, subject, queue, sid))
      ensures legal <==> IsValid(subject) && (queue.Some? ==> IsValid(queue.value))
      ensures !legal || sid in old(subs) ==> subs == old(subs) && reg.all == old(reg.all)
      ensures legal && sid !in old(subs) ==>
                && sid in subs && subs == old(subs)[sid := subs[sid]]
                && subs[sid].conn == c && subs[sid].subject == subject && subs[sid].queue == queue && subs[sid].sid == sid
      ensures legal && sid !in old(subs) && (forall x :: x in old(reg.all) && x.conn == c ==> x.sid != sid) ==>
                reg.all == old(reg.all) + [subs[sid]]
    {
      legal := IsValid(subject) && (queue.None? || IsValid(queue.value));
      if legal && sid !in subs {
        var sub := Made(id, subject, queue, sid, c);
        var inserted := reg.Insert(sub);
        if inserted {
          subs := subs[sid := sub];
        }
      }
    }

    method Unsubscribe(reg: Index, sid: Bytes, max: int, meter: Meter, ghost s: State)
      requires Mirrors(reg, s)
      requires sid in subs ==> meter.delivered == Get(s.delivered, subs[sid])
      modifies this, reg, meter
      ensures Mirrors(reg, Unsubscribed(s, c, sid, max))
      ensures sid in old(subs) ==> meter.limit == Get(Unsubscribed(s, c, sid, max).limit, old(subs)[sid])
    {
      if sid in subs {
        var sub := subs[sid];
        var over := meter.SetLimit(max);
        if over {
          subs := subs - {sid};
          reg.Remove(sub);
        }
      }
    }

    method Close(reg: Index, ghost s: State)
      requires Mirrors(reg, s) && open
      modifies this, reg
      ensures Mirrors(reg, Closed(s, c)) && !open
    {
      open := false;
      reg.RemoveConn(c);
      subs := map[];
    }
  }
}
