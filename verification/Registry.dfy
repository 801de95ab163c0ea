/** The subscription registry: a map of literal subjects and a list of wildcard filters,
    standing for one list of subscriptions in the order they were registered. */
module Registry {
  import opened ByteStrings
  import opened Subjects

  /** A subscription. `id` is its identity: two SUBs never make the same one. Whether the
      filter has a wildcard is worked out once, when it is made. */
  datatype Sub = Sub(id: nat, subject: Bytes, queue: Option<Bytes>, sid: Bytes, conn: nat, wild: bool)

  function Made(id: nat, subject: Bytes, queue: Option<Bytes>, sid: Bytes, conn: nat): Sub {
    Sub(id, subject, queue, sid, conn, HasWildcard(subject))
  }

  predicate WellMade(s: Sub) { s.wild == HasWildcard(s.subject) }

  /** Ways of choosing among subscriptions. */
  datatype Pick =
    | Under(subject: Bytes)        // literal filters equal to the subject
    | Wilds                        // wildcard filters
    | WildFor(subject: Bytes)      // wildcard filters that match
    | Interested(subject: Bytes)   // filters that match
    | NotOf(conn: nat)             // other connections'
    | NotLike(sub: Sub)            // all that removing `sub` leaves
    | Swept(conn: nat, keys: set<Bytes>)  // all but this connection's under these literals

  predicate Holds(q: Pick, s: Sub) {
    match q
    case Under(k) => !s.wild && s.subject == k
    case Wilds => s.wild
    case WildFor(k) => s.wild && Matches(s.subject, k)
    case Interested(k) => Matches(s.subject, k)
    case NotOf(c) => s.conn != c
    case NotLike(sub) => !Like(s, sub)
    case Swept(c, keys) => !(s.conn == c && !s.wild && s.subject in keys)
  }

  /** What removing `sub` takes: same connection and sid, in the list `sub` belongs to. */
  predicate Like(s: Sub, sub: Sub) {
    s.sid == sub.sid && s.conn == sub.conn && (if sub.wild then s.wild else !s.wild && s.subject == sub.subject)
  }

  predicate Same(a: Sub, b: Sub) {
    a.sid == b.sid && a.subject == b.subject && a.conn == b.conn
  }

  function Keep(q: Pick, xs: seq<Sub>): (r: seq<Sub>)
    ensures |r| <= |xs|
  {
    if xs == [] then [] else (if Holds(q, xs[0]) then [xs[0]] else []) + Keep(q, xs[1..])
  }

  lemma {:induction false} KeepHolds(q: Pick, xs: seq<Sub>)
    ensures forall s :: s in Keep(q, xs) <==> s in xs && Holds(q, s)
  {
    if xs != [] {
      KeepHolds(q, xs[1..]);
      assert xs == [xs[0]] + xs[1..];
    }
  }

  lemma KeepLegal(q: Pick, xs: seq<Sub>)
    requires Legal(xs)
    ensures Legal(Keep(q, xs))
  {
    KeepHolds(q, xs);
  }

  lemma {:induction false} KeepAppend(q: Pick, a: seq<Sub>, b: seq<Sub>)
    ensures Keep(q, a + b) == Keep(q, a) + Keep(q, b)
  {
    if a == [] {
      assert a + b == b;
    } else {
      assert (a + b)[1..] == a[1..] + b && (a + b)[0] == a[0];
      KeepAppend(q, a[1..], b);
      Assoc(if Holds(q, a[0]) then [a[0]] else [], Keep(q, a[1..]), Keep(q, b));
    }
  }

  lemma KeepSnoc(q: Pick, a: seq<Sub>, s: Sub)
    ensures Keep(q, a + [s]) == Keep(q, a) + if Holds(q, s) then [s] else []
  {
    KeepAppend(q, a, [s]);
    assert [s][1..] == [];
  }

  lemma {:induction false} KeepCommutes(q: Pick, r: Pick, xs: seq<Sub>)
    ensures Keep(q, Keep(r, xs)) == Keep(r, Keep(q, xs))
  {
    if xs != [] {
      KeepCommutes(q, r, xs[1..]);
      KeepAppend(q, if Holds(r, xs[0]) then [xs[0]] else [], Keep(r, xs[1..]));
      KeepAppend(r, if Holds(q, xs[0]) then [xs[0]] else [], Keep(q, xs[1..]));
    }
  }

  /** Two ways of choosing that agree on a list choose the same of it. */
  lemma {:induction false} KeepAgrees(q: Pick, r: Pick, xs: seq<Sub>)
    requires forall s :: s in xs ==> (Holds(q, s) <==> Holds(r, s))
    ensures Keep(q, xs) == Keep(r, xs)
  {
    if xs != [] {
      assert xs[0] in xs;
      KeepAgrees(q, r, xs[1..]);
    }
  }

  lemma {:induction false} KeepAll(q: Pick, xs: seq<Sub>)
    requires forall s :: s in xs ==> Holds(q, s)
    ensures Keep(q, xs) == xs
  {
    if xs != [] {
      assert xs[0] in xs;
      KeepAll(q, xs[1..]);
    }
  }

  /** The subscriptions with that queue; `None` gives the plain ones. */
  function OfQueue(xs: seq<Sub>, q: Option<Bytes>): seq<Sub> {
    if xs == [] then [] else (if xs[0].queue == q then [xs[0]] else []) + OfQueue(xs[1..], q)
  }

  lemma {:induction false} OfQueueAppend(a: seq<Sub>, b: seq<Sub>, q: Option<Bytes>)
    ensures OfQueue(a + b, q) == OfQueue(a, q) + OfQueue(b, q)
  {
    if a == [] {
      assert a + b == b;
    } else {
      assert (a + b)[1..] == a[1..] + b && (a + b)[0] == a[0];
      OfQueueAppend(a[1..], b, q);
      Assoc(if a[0].queue == q then [a[0]] else [], OfQueue(a[1..], q), OfQueue(b, q));
    }
  }

  // ------------------------------------------------------------------ operations ---

  predicate Legal(all: seq<Sub>) {
    forall s :: s in all ==> IsValid(s.subject) && WellMade(s)
  }

  /** One more subscription, unless the connection holds that subject under that sid. */
  function Inserted(all: seq<Sub>, sub: Sub): seq<Sub> {
    if exists s :: s in all && Same(s, sub) then all else all + [sub]
  }

  /** The subscriptions a published subject resolves to: literals, then wildcards. */
  function Resolved(all: seq<Sub>, subject: Bytes): seq<Sub> {
    Keep(Under(subject), all) + Keep(WildFor(subject), all)
  }

  /** Looking the subject up among the literals and scanning the wildcards finds exactly
      the subscriptions whose filter matches: literals before wildcards, and each kind in
      the order of registration. */
  lemma IndexAgrees(all: seq<Sub>, subject: Bytes)
    requires Legal(all)
    ensures forall s :: s in Resolved(all, subject) <==> s in all && Matches(s.subject, subject)
    ensures var found := Keep(Interested(subject), all);
            Resolved(all, subject) == Keep(Under(subject), found) + Keep(Wilds, found)
            && multiset(Resolved(all, subject)) == multiset(found)
  {
    var found := Keep(Interested(subject), all);
    KeepHolds(Interested(subject), all);
    KeepHolds(Under(subject), all);
    KeepHolds(WildFor(subject), all);
    forall s | s in all
      ensures Holds(Under(subject), s) <==> !s.wild && Matches(s.subject, subject)
    {
      if !s.wild {
        LiteralMatches(s.subject, subject);
      }
    }
    KeepCommutes(Under(subject), Interested(subject), all);
    KeepAll(Interested(subject), Keep(Under(subject), all));
    WildsOfFound(all, subject);
    SplitByKind(found, subject);
  }

  lemma {:induction false} WildsOfFound(all: seq<Sub>, subject: Bytes)
    ensures Keep(Wilds, Keep(Interested(subject), all)) == Keep(WildFor(subject), all)
  {
    if all != [] {
      WildsOfFound(all[1..], subject);
      KeepAppend(Wilds, if Holds(Interested(subject), all[0]) then [all[0]] else [], Keep(Interested(subject), all[1..]));
    }
  }

  lemma {:induction false} SplitByKind(xs: seq<Sub>, subject: Bytes)
    requires forall s :: s in xs ==> (Holds(Under(subject), s) <==> !s.wild)
    ensures multiset(Keep(Under(subject), xs)) + multiset(Keep(Wilds, xs)) == multiset(xs)
  {
    if xs != [] {
      var x, ys := xs[0], xs[1..];
      SplitByKind(ys, subject);
      assert x in xs;
      assert xs == [x] + ys;
      assert multiset(xs) == multiset{x} + multiset(ys);
    }
  }

  // ------------------------------------------------------------------- the index ---

  type Literals = map<Bytes, seq<Sub>>

  function ListAt(literal: Literals, k: Bytes): seq<Sub> {
    if k in literal then literal[k] else []
  }

  /** The map with the list of `k` replaced, or dropped when nothing is left of it. */
  function Trimmed(literal: Literals, k: Bytes, left: seq<Sub>): Literals {
    if left == [] then literal - {k} else literal[k := left]
  }

  /** The map and the list hold each subscription once, under its own subject, and no
      literal has an empty list. */
  ghost predicate Indexed(literal: Literals, wildcard: seq<Sub>, all: seq<Sub>) {
    && Legal(all)
    && wildcard == Keep(Wilds, all)
    && (forall k :: k in literal ==> literal[k] != [])
    && (forall k :: ListAt(literal, k) == Keep(Under(k), all))
  }

  /** Whether a subscription is there already can be read off the one list it would join. */
  lemma SameIsListed(literal: Literals, wildcard: seq<Sub>, all: seq<Sub>, sub: Sub)
    requires Indexed(literal, wildcard, all) && WellMade(sub)
    ensures (exists s :: s in all && Same(s, sub))
       <==> exists s :: s in (if sub.wild then wildcard else ListAt(literal, sub.subject)) && Same(s, sub)
  {
    var list := if sub.wild then wildcard else ListAt(literal, sub.subject);
    KeepHolds(if sub.wild then Wilds else Under(sub.subject), all);
    assert ListAt(literal, sub.subject) == Keep(Under(sub.subject), all);
    forall s | s in all && Same(s, sub)
      ensures s in list
    {
      assert WellMade(s);
    }
  }

  lemma InsertedIndexed(literal: Literals, wildcard: seq<Sub>, all: seq<Sub>, sub: Sub)
    requires Indexed(literal, wildcard, all) && IsValid(sub.subject) && WellMade(sub)
    ensures sub.wild ==> Indexed(literal, wildcard + [sub], all + [sub])
    ensures !sub.wild ==> Indexed(Appended(literal, sub), wildcard, all + [sub])
  {
    KeepSnoc(Wilds, all, sub);
    assert wildcard + [] == wildcard;
    var literal' := if sub.wild then literal else Appended(literal, sub);
    forall k
      ensures ListAt(literal', k) == Keep(Under(k), all + [sub])
    {
      AppendedAt(literal, all, sub, k);
    }
  }

  function Appended(literal: Literals, sub: Sub): Literals {
    literal[sub.subject := ListAt(literal, sub.subject) + [sub]]
  }

  lemma AppendedAt(literal: Literals, all: seq<Sub>, sub: Sub, k: Bytes)
    requires ListAt(literal, k) == Keep(Under(k), all)
    ensures ListAt(if sub.wild then literal else Appended(literal, sub), k) == Keep(Under(k), all + [sub])
  {
    KeepSnoc(Under(k), all, sub);
    assert ListAt(literal, k) + [] == ListAt(literal, k);
  }

  /** Removing `sub` touches no list but its own. */
  lemma OthersUntouched(q: Pick, sub: Sub, all: seq<Sub>)
    requires (q == Wilds && !sub.wild) || (q.Under? && (sub.wild || q.subject != sub.subject))
    ensures Keep(q, Keep(NotLike(sub), all)) == Keep(q, all)
  {
    KeepCommutes(q, NotLike(sub), all);
    KeepHolds(q, all);
    KeepAll(NotLike(sub), Keep(q, all));
  }

  lemma RemovedIndexed(literal: Literals, wildcard: seq<Sub>, all: seq<Sub>, sub: Sub)
    requires Indexed(literal, wildcard, all)
    ensures sub.wild ==> Indexed(literal, Keep(NotLike(sub), wildcard), Keep(NotLike(sub), all))
    ensures !sub.wild ==>
              Indexed(Trimmed(literal, sub.subject, Keep(NotLike(sub), ListAt(literal, sub.subject))),
                      wildcard, Keep(NotLike(sub), all))
  {
    KeepLegal(NotLike(sub), all);
    if sub.wild {
      KeepCommutes(Wilds, NotLike(sub), all);
      forall k
        ensures ListAt(literal, k) == Keep(Under(k), Keep(NotLike(sub), all))
      {
        assert ListAt(literal, k) == Keep(Under(k), all);
        OthersUntouched(Under(k), sub, all);
      }
    } else {
      OthersUntouched(Wilds, sub, all);
      TrimmedListed(literal, wildcard, all, sub);
    }
  }

  /** What one removal does to the lists and to the count. */
  lemma Removal(literal: Literals, wildcard: seq<Sub>, all: seq<Sub>, sub: Sub)
    requires Indexed(literal, wildcard, all)
    ensures var left := Keep(NotLike(sub), all);
            if sub.wild then
              && Indexed(literal, Keep(NotLike(sub), wildcard), left)
              && |all| - |left| == |wildcard| - |Keep(NotLike(sub), wildcard)|
            else if sub.subject in literal then
              && Indexed(Trimmed(literal, sub.subject, Keep(NotLike(sub), literal[sub.subject])), wildcard, left)
              && |all| - |left| == |literal[sub.subject]| - |Keep(NotLike(sub), literal[sub.subject])|
            else
              Indexed(literal, wildcard, left) && |all| == |left|
  {
    RemovedIndexed(literal, wildcard, all, sub);
    RemovedFrom(if sub.wild then Wilds else Under(sub.subject), sub, all);
    assert ListAt(literal, sub.subject) == Keep(Under(sub.subject), all);
    if !sub.wild && sub.subject !in literal {
      assert Trimmed(literal, sub.subject, []) == literal;
    }
  }

  lemma TrimmedListed(literal: Literals, wildcard: seq<Sub>, all: seq<Sub>, sub: Sub)
    requires Indexed(literal, wildcard, all) && !sub.wild
    ensures var literal' := Trimmed(literal, sub.subject, Keep(NotLike(sub), ListAt(literal, sub.subject)));
            forall k :: ListAt(literal', k) == Keep(Under(k), Keep(NotLike(sub), all))
  {
    var left := Keep(NotLike(sub), ListAt(literal, sub.subject));
    var literal' := Trimmed(literal, sub.subject, left);
    forall k
      ensures ListAt(literal', k) == Keep(Under(k), Keep(NotLike(sub), all))
    {
      assert ListAt(literal, k) == Keep(Under(k), all);
      if k == sub.subject {
        KeepCommutes(Under(k), NotLike(sub), all);
        assert ListAt(literal', k) == left;
      } else {
        OthersUntouched(Under(k), sub, all);
        assert ListAt(literal', k) == ListAt(literal, k);
      }
    }
  }

  lemma SweptIndexed(literal: Literals, wildcard: seq<Sub>, was: seq<Sub>, conn: nat, done: set<Bytes>, k: Bytes)
    requires Indexed(literal, wildcard, Keep(Swept(conn, done), was)) && k !in done
    ensures var left := Keep(NotOf(conn), ListAt(literal, k));
            && Indexed(Trimmed(literal, k, left), wildcard, Keep(Swept(conn, done + {k}), was))
            && |Keep(Swept(conn, done), was)| - |Keep(Swept(conn, done + {k}), was)| == |ListAt(literal, k)| - |left|
  {
    var cur, next := Keep(Swept(conn, done), was), Keep(Swept(conn, done + {k}), was);
    var left := Keep(NotOf(conn), ListAt(literal, k));
    assert ListAt(literal, k) == Keep(Under(k), cur);
    SweepOne(conn, done, k, was);
    SweptWilds(conn, done, was);
    SweptWilds(conn, done + {k}, was);
    KeepHolds(Swept(conn, done), was);
    KeepHolds(Swept(conn, done + {k}), was);
    forall j
      ensures ListAt(Trimmed(literal, k, left), j) == Keep(Under(j), next)
    {
      assert ListAt(literal, j) == Keep(Under(j), cur);
      SweptList(conn, done, k, j, was);
    }
  }

  lemma FullySwept(literal: Literals, wildcard: seq<Sub>, was: seq<Sub>, conn: nat, keys: set<Bytes>)
    requires Indexed(literal, wildcard, Keep(Swept(conn, keys), was)) && Legal(was)
    requires forall s :: s in was && !s.wild ==> s.subject in keys
    ensures Indexed(literal, Keep(NotOf(conn), wildcard), Keep(NotOf(conn), was))
    ensures |Keep(Swept(conn, keys), was)| - |Keep(NotOf(conn), was)| == |wildcard| - |Keep(NotOf(conn), wildcard)|
  {
    KeepLegal(NotOf(conn), was);
    SweptWilds(conn, keys, was);
    SweepWilds(conn, keys, was);
    KeepCommutes(Wilds, NotOf(conn), was);
    forall k
      ensures ListAt(literal, k) == Keep(Under(k), Keep(NotOf(conn), was))
    {
      assert ListAt(literal, k) == Keep(Under(k), Keep(Swept(conn, keys), was));
      SweptDone(conn, keys, k, was);
    }
  }

  lemma LiteralsHaveKeys(literal: Literals, wildcard: seq<Sub>, all: seq<Sub>)
    requires Indexed(literal, wildcard, all)
    ensures forall s :: s in all && !s.wild ==> s.subject in literal
  {
    forall s | s in all && !s.wild
      ensures s.subject in literal
    {
      KeepHolds(Under(s.subject), all);
      assert ListAt(literal, s.subject) == Keep(Under(s.subject), all);
    }
  }

  // ------------------------------------------------------------------ the object ---

  class Index {
    var literal: map<Bytes, seq<Sub>>
    var wildcard: seq<Sub>
    var total: nat
    var generation: nat
    /** The subscriptions, in the order they were registered. */
    ghost var all: seq<Sub>
    /** The subscriptions at each generation so far. */
    ghost var history: seq<seq<Sub>>

    constructor ()
      ensures Valid() && all == [] && generation == 0
    {
      literal, wildcard, total, generation := map[], [], 0, 0;
      all, history := [], [[]];
    }

    ghost predicate Valid()
      reads this
    {
      && Indexed(literal, wildcard, all) && total == |all|
      && |history| == generation + 1 && history[generation] == all
    }

    method Insert(sub: Sub) returns (legal: bool)
      requires Valid() && WellMade(sub)
      modifies this
      ensures Valid() && legal == IsValid(sub.subject)
      ensures all == if legal then Inserted(old(all), sub) else old(all)
      ensures legal ==>
                if exists s :: s in old(all) && s.conn == sub.conn && s.sid == sub.sid && s.subject == sub.subject
                then all == old(all) else all == old(all) + [sub]
      ensures generation == old(generation) + if all == old(all) then 0 else 1
      ensures old(history) <= history
    {
      if !IsValid(sub.subject) {
        return false;
      }
      legal := true;
      SameIsListed(literal, wildcard, all, sub);
      InsertedIndexed(literal, wildcard, all, sub);
      var entry := if sub.wild then wildcard else if sub.subject in literal then literal[sub.subject] else [];
      if !(exists s :: s in entry && Same(s, sub)) {
        if sub.wild {
          wildcard := wildcard + [sub];
        } else {
          literal := literal[sub.subject := entry + [sub]];
        }
        total := total + 1;
        all := all + [sub];
        Changed();
      }
    }

    /** Every change to the set moves the generation on. */
    method Changed()
      requires Indexed(literal, wildcard, all) && total == |all| && |history| == generation + 1
      modifies this`generation, this`history
      ensures Valid() && generation == old(generation) + 1 && history == old(history) + [all]
    {
      generation := generation + 1;
      history := history + [all];
    }

    method Remove(sub: Sub)
      requires Valid()
      modifies this
      ensures Valid() && all == Keep(NotLike(sub), old(all))
      ensures generation == old(generation) + 1 && history == old(history) + [all]
    {
      RemoveSub(sub);
      Changed();
    }

    /** Takes one subscription out: what that sid referred to, wherever it is listed. */
    method RemoveSub(sub: Sub)
      requires Indexed(literal, wildcard, all) && total == |all|
      modifies this`literal, this`wildcard, this`total, this`all
      ensures Indexed(literal, wildcard, all) && total == |all| && all == Keep(NotLike(sub), old(all))
    {
      Removal(literal, wildcard, all, sub);
      if sub.wild {
        var left := Keep(NotLike(sub), wildcard);
        total := total - (|wildcard| - |left|);
        wildcard := left;
      } else if sub.subject in literal {
        var list := literal[sub.subject];
        var left := Keep(NotLike(sub), list);
        total := total - (|list| - |left|);
        literal := Trimmed(literal, sub.subject, left);
      }
      all := Keep(NotLike(sub), all);
    }

    /** Drops everything a connection held. */
    method RemoveConn(conn: nat)
      requires Valid()
      modifies this
      ensures Valid() && all == Keep(NotOf(conn), old(all))
      ensures generation == old(generation) + if all == old(all) then 0 else 1
      ensures old(history) <= history
    {
      ghost var was := all;
      LiteralsHaveKeys(literal, wildcard, all);
      ghost var keys := literal.Keys;
      var removed := SweepLiterals(conn);
      FullySwept(literal, wildcard, was, conn, keys);
      var left := Keep(NotOf(conn), wildcard);
      removed := removed + (|wildcard| - |left|);
      wildcard := left;
      all := Keep(NotOf(conn), was);
      total := total - removed;
      if removed != 0 {
        Changed();
      } else {
        KeptAllOf(NotOf(conn), was);
      }
    }

    /** The pass over the literal lists, which also drops those that end up empty. */
    method SweepLiterals(conn: nat) returns (removed: nat)
      requires Valid()
      modifies this`literal
      ensures Indexed(literal, wildcard, Keep(Swept(conn, old(literal.Keys)), all))
      ensures removed == |all| - |Keep(Swept(conn, old(literal.Keys)), all)|
    {
      var keys := literal.Keys;
      removed := 0;
      ghost var done: set<Bytes> := {};
      KeepAll(Swept(conn, done), all);
      while keys != {}
        invariant keys <= literal.Keys && keys !! done && keys + done == old(literal.Keys)
        invariant Indexed(literal, wildcard, Keep(Swept(conn, done), all))
        invariant removed == |all| - |Keep(Swept(conn, done), all)|
        decreases |keys|
      {
        var k :| k in keys;
        var left := Keep(NotOf(conn), literal[k]);
        removed := removed + (|literal[k]| - |left|);
        SweptIndexed(literal, wildcard, all, conn, done, k);
        literal := Trimmed(literal, k, left);
        done := done + {k};
        keys := keys - {k};
      }
      assert done == old(literal.Keys);
    }

    /** The subscriptions a subject resolves to, and whether a queue group is among them. */
    method Resolve(subject: Bytes) returns (subs: seq<Sub>, queue: bool)
      requires Valid()
      ensures subs == Resolved(all, subject) && queue == AnyQueued(subs)
    {
      subs, queue := [], false;
      assert ListAt(literal, subject) == Keep(Under(subject), all);
      if subject in literal {
        subs, queue := literal[subject], AnyQueued(literal[subject]);
      }
      KeepHolds(Wilds, all);
      subs, queue := ScanWildcards(wildcard, subject, subs, queue);
      WildForOfWilds(all, subject);
    }
  }

  /** Adds the wildcards that match to the literals found. */
  method ScanWildcards(wildcard: seq<Sub>, subject: Bytes, literals: seq<Sub>, queued: bool)
    returns (subs: seq<Sub>, queue: bool)
    requires queued == AnyQueued(literals) && forall s :: s in wildcard ==> s.wild
    ensures subs == literals + Keep(WildFor(subject), wildcard) && queue == AnyQueued(subs)
  {
    subs, queue := literals, queued;
    for i := 0 to |wildcard|
      invariant subs == literals + Keep(WildFor(subject), wildcard[..i]) && queue == AnyQueued(subs)
    {
      var sub := wildcard[i];
      assert sub in wildcard;
      OneMoreWild(literals, wildcard, i, subject);
      if Matches(sub.subject, subject) {
        AnyQueuedSnoc(subs, sub);
        queue := queue || sub.queue.Some?;
        subs := subs + [sub];
      }
    }
    assert wildcard[..|wildcard|] == wildcard;
  }

  predicate AnyQueued(subs: seq<Sub>) {
    exists i :: 0 <= i < |subs| && subs[i].queue.Some?
  }

  lemma AnyQueuedSnoc(subs: seq<Sub>, sub: Sub)
    ensures AnyQueued(subs + [sub]) == (AnyQueued(subs) || sub.queue.Some?)
  {
    var more := subs + [sub];
    assert more[|subs|] == sub;
    assert forall i :: 0 <= i < |subs| ==> more[i] == subs[i];
  }

  lemma OneMoreWild(literals: seq<Sub>, wildcard: seq<Sub>, i: nat, subject: Bytes)
    requires i < |wildcard| && wildcard[i].wild
    ensures literals + Keep(WildFor(subject), wildcard[..i + 1])
         == literals + Keep(WildFor(subject), wildcard[..i])
            + if Matches(wildcard[i].subject, subject) then [wildcard[i]] else []
  {
    assert wildcard[..i + 1] == wildcard[..i] + [wildcard[i]];
    KeepSnoc(WildFor(subject), wildcard[..i], wildcard[i]);
  }

  lemma {:induction false} WildForOfWilds(all: seq<Sub>, subject: Bytes)
    ensures Keep(WildFor(subject), Keep(Wilds, all)) == Keep(WildFor(subject), all)
  {
    if all != [] {
      WildForOfWilds(all[1..], subject);
      KeepAppend(WildFor(subject), if all[0].wild then [all[0]] else [], Keep(Wilds, all[1..]));
    }
  }

  /** Everything removed with `sub` is removed from the one list it belongs to. */
  lemma {:induction false} RemovedFrom(q: Pick, sub: Sub, xs: seq<Sub>)
    requires q == if sub.wild then Wilds else Under(sub.subject)
    ensures |xs| - |Keep(NotLike(sub), xs)| == |Keep(q, xs)| - |Keep(NotLike(sub), Keep(q, xs))|
  {
    if xs != [] {
      RemovedFrom(q, sub, xs[1..]);
      KeepAppend(NotLike(sub), if Holds(q, xs[0]) then [xs[0]] else [], Keep(q, xs[1..]));
    }
  }

  lemma {:induction false} KeptAllOf(q: Pick, xs: seq<Sub>)
    requires |Keep(q, xs)| == |xs|
    ensures Keep(q, xs) == xs
  {
    if xs != [] {
      assert Holds(q, xs[0]);
      KeptAllOf(q, xs[1..]);
      assert xs == [xs[0]] + xs[1..];
    }
  }

  lemma {:induction false} SweepOne(conn: nat, done: set<Bytes>, k: Bytes, xs: seq<Sub>)
    requires k !in done
    ensures |Keep(Swept(conn, done), xs)| - |Keep(Swept(conn, done + {k}), xs)|
         == |Keep(Under(k), Keep(Swept(conn, done), xs))| - |Keep(NotOf(conn), Keep(Under(k), Keep(Swept(conn, done), xs)))|
  {
    if xs != [] {
      SweepOne(conn, done, k, xs[1..]);
      var q := Swept(conn, done);
      var one := if Holds(q, xs[0]) then [xs[0]] else [];
      KeepAppend(Under(k), one, Keep(q, xs[1..]));
      KeepAppend(NotOf(conn), Keep(Under(k), one), Keep(Under(k), Keep(q, xs[1..])));
    }
  }

  /** The lists once one more key is swept. */
  lemma {:induction false} SweptList(conn: nat, done: set<Bytes>, k: Bytes, j: Bytes, xs: seq<Sub>)
    requires k !in done
    ensures Keep(Under(j), Keep(Swept(conn, done + {k}), xs))
         == if j == k then Keep(NotOf(conn), Keep(Under(j), Keep(Swept(conn, done), xs)))
            else Keep(Under(j), Keep(Swept(conn, done), xs))
  {
    if xs != [] {
      SweptList(conn, done, k, j, xs[1..]);
      var q, r := Swept(conn, done), Swept(conn, done + {k});
      var one := if Holds(q, xs[0]) then [xs[0]] else [];
      KeepAppend(Under(j), if Holds(r, xs[0]) then [xs[0]] else [], Keep(r, xs[1..]));
      KeepAppend(Under(j), one, Keep(q, xs[1..]));
      KeepAppend(NotOf(conn), Keep(Under(j), one), Keep(Under(j), Keep(q, xs[1..])));
    }
  }

  lemma {:induction false} SweptWilds(conn: nat, done: set<Bytes>, xs: seq<Sub>)
    ensures Keep(Wilds, Keep(Swept(conn, done), xs)) == Keep(Wilds, xs)
  {
    if xs != [] {
      SweptWilds(conn, done, xs[1..]);
      KeepAppend(Wilds, if Holds(Swept(conn, done), xs[0]) then [xs[0]] else [], Keep(Swept(conn, done), xs[1..]));
    }
  }

  /** With every literal swept, what is left to remove is among the wildcards. */
  lemma {:induction false} SweepWilds(conn: nat, keys: set<Bytes>, xs: seq<Sub>)
    requires forall s :: s in xs && !s.wild ==> s.subject in keys
    ensures |Keep(Swept(conn, keys), xs)| - |Keep(NotOf(conn), xs)|
         == |Keep(Wilds, xs)| - |Keep(NotOf(conn), Keep(Wilds, xs))|
  {
    if xs != [] {
      assert xs[0] in xs;
      SweepWilds(conn, keys, xs[1..]);
      KeepAppend(NotOf(conn), if xs[0].wild then [xs[0]] else [], Keep(Wilds, xs[1..]));
    }
  }

  lemma {:induction false} SweptDone(conn: nat, keys: set<Bytes>, k: Bytes, xs: seq<Sub>)
    requires forall s :: s in xs && !s.wild ==> s.subject in keys
    ensures Keep(Under(k), Keep(Swept(conn, keys), xs)) == Keep(Under(k), Keep(NotOf(conn), xs))
  {
    if xs != [] {
      assert xs[0] in xs;
      SweptDone(conn, keys, k, xs[1..]);
      var q := Swept(conn, keys);
      KeepAppend(Under(k), if Holds(q, xs[0]) then [xs[0]] else [], Keep(q, xs[1..]));
      KeepAppend(Under(k), if Holds(NotOf(conn), xs[0]) then [xs[0]] else [], Keep(NotOf(conn), xs[1..]));
    }
  }
}
