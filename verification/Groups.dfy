/** Queue groups: one member of each group is chosen per message. */
module Groups {
  import opened ByteStrings
  import opened Decimal
  import opened Registry

  /** One question put to a member: for which group, whether it asks for room as well, and
      as which of the questions of that pass. */
  datatype Ask = Ask(group: Bytes, easily: bool, k: nat)

  /** Who can be given the message at all, and whose connection has room for it, at the moment
      of each question: connections close, fill and drain in between. */
  datatype Load = Load(eligible: Ask -> set<nat>, room: Ask -> set<nat>)

  predicate Can(l: Load, s: Sub, a: Ask) {
    s.id in l.eligible(a) && (a.easily ==> s.id in l.room(a))
  }

  /** The members of a group, by position. */
  function Members(subs: seq<Sub>, group: Bytes, from: nat): (ms: seq<nat>)
    requires from <= |subs|
    ensures forall i :: 0 <= i < |ms| ==> from <= ms[i] < |subs| && subs[ms[i]].queue == Some(group)
    decreases |subs| - from
  {
    if from == |subs| then []
    else (if subs[from].queue == Some(group) then [from] else []) + Members(subs, group, from + 1)
  }

  /** The members are all the group's subscriptions. */
  lemma {:induction false} MembersAll(subs: seq<Sub>, group: Bytes, from: nat, k: nat)
    requires from <= |subs|
    ensures k in Members(subs, group, from) <==> from <= k < |subs| && subs[k].queue == Some(group)
    decreases |subs| - from
  {
    if from < |subs| {
      MembersAll(subs, group, from + 1, k);
      var here := if subs[from].queue == Some(group) then [from] else [];
      InJoin(here, Members(subs, group, from + 1), k);
    }
  }

  lemma InJoin(a: seq<nat>, b: seq<nat>, k: nat)
    ensures k in a + b <==> k in a || k in b
  {
  }

  /** The k-th position probed: the sum wraps at the machine word before the remainder is
      taken. */
  function Probe(start: nat, k: nat, n: nat): nat
    requires n > 0
  {
    (start + k) % U64 % n
  }

  /** The first probe, from the k-th on, that meets the condition. */
  function FirstFrom(subs: seq<Sub>, ms: seq<nat>, l: Load, start: nat, k: nat, g: Bytes, easily: bool): (r: Option<nat>)
    requires k <= |ms| && forall i :: 0 <= i < |ms| ==> ms[i] < |subs|
    ensures r.Some? ==> r.value in ms && Met(l, subs, ms, r.value, start, k, g, easily)
    ensures r.None? ==> forall j :: k <= j < |ms| ==> !Meets(l, subs, ms[Probe(start, j, |ms|)], Ask(g, easily, j))
    decreases |ms| - k
  {
    if k == |ms| then None
    else
      var m := ms[Probe(start, k, |ms|)];
      if Meets(l, subs, m, Ask(g, easily, k)) then
        assert FirstYes(l, subs, ms, k, start, k, g, easily);
        Some(m)
      else FirstFrom(subs, ms, l, start, k + 1, g, easily)
  }

  predicate Meets(l: Load, subs: seq<Sub>, m: nat, a: Ask) {
    m < |subs| && Can(l, subs[m], a)
  }

  /** The first question, from the k-th on, to be answered with yes is the j-th. */
  predicate FirstYes(l: Load, subs: seq<Sub>, ms: seq<nat>, j: nat, start: nat, k: nat, g: Bytes, easily: bool) {
    && k <= j < |ms| && Meets(l, subs, ms[Probe(start, j, |ms|)], Ask(g, easily, j))
    && forall i :: k <= i < j ==> !Meets(l, subs, ms[Probe(start, i, |ms|)], Ask(g, easily, i))
  }

  /** And was put to member `m`. */
  predicate Met(l: Load, subs: seq<Sub>, ms: seq<nat>, m: nat, start: nat, k: nat, g: Bytes, easily: bool) {
    exists j :: 0 <= j < |ms| && ms[Probe(start, j, |ms|)] == m && FirstYes(l, subs, ms, j, start, k, g, easily)
  }

  /** A member that can take it now, or failing that one that can take it at all. */
  function Chosen(subs: seq<Sub>, ms: seq<nat>, l: Load, start: nat, g: Bytes): Option<nat>
    requires forall i :: 0 <= i < |ms| ==> ms[i] < |subs|
  {
    var r := FirstFrom(subs, ms, l, start, 0, g, true);
    if r.Some? then r else FirstFrom(subs, ms, l, start, 0, g, false)
  }

  /** What is delivered to of `subs[i..]`, the groups in `seen` having been served. */
  function Picked(subs: seq<Sub>, l: Load, start: nat, i: nat, seen: seq<Bytes>): seq<Sub>
    requires i <= |subs|
    decreases |subs| - i
  {
    if i == |subs| then []
    else if subs[i].queue.None? then [subs[i]] + Picked(subs, l, start, i + 1, seen)
    else
      var g := subs[i].queue.value;
      if g in seen then Picked(subs, l, start, i + 1, seen)
      else PickedOf(subs, g, l, start, i) + Picked(subs, l, start, i + 1, seen + [g])
  }

  function PickedOf(subs: seq<Sub>, g: Bytes, l: Load, start: nat, i: nat): seq<Sub>
    requires i <= |subs|
  {
    var pick := Chosen(subs, Members(subs, g, i), l, start, g);
    if pick.Some? then [subs[pick.value]] else []
  }

  // ----------------------------------------------------------------- the rotation ---

  predicate Probed(start: nat, n: nat, m: nat)
    requires n > 0
  {
    exists k :: 0 <= k < n && Probe(start, k, n) == m
  }

  /** Probing from `start` meets every one of `n` members. */
  predicate Covers(start: nat, n: nat)
    requires n > 0
  {
    forall m :: 0 <= m < n ==> Probed(start, n, m)
  }

  /** No sum leaves the word, or the word is a multiple of the group's size. */
  predicate Rotates(start: nat, n: nat)
    requires n > 0
  {
    start + n <= U64 || U64 % n == 0
  }

  lemma ModUnique(x: int, n: int, q: int, r: int)
    requires n > 0 && x == q * n + r && 0 <= r < n
    ensures x % n == r
  {
    var d, m := x / n, x % n;
    assert x == d * n + m;
    assert (d - q) * n == r - m;
    assert d - q >= 1 ==> (d - q) * n >= n;
    assert d - q <= -1 ==> (d - q) * n <= -n;
  }

  /** `n` consecutive numbers have every remainder once. */
  lemma Consecutive(start: nat, n: nat, m: nat) returns (k: nat)
    requires m < n
    ensures k < n && (start + k) % n == m
  {
    var r := start % n;
    var q := start / n;
    assert start == q * n + r;
    if r <= m {
      k := m - r;
      ModUnique(start + k, n, q, m);
    } else {
      k := n + m - r;
      assert (q + 1) * n == q * n + n;
      ModUnique(start + k, n, q + 1, m);
    }
  }

  lemma RotatesCovers(start: nat, n: nat)
    requires 0 < n && start < U64 && Rotates(start, n)
    ensures Covers(start, n)
  {
    forall m | 0 <= m < n
      ensures Probed(start, n, m)
    {
      var k := Consecutive(start, n, m);
      if start + k < U64 {
        assert (start + k) % U64 == start + k;
      } else {
        WrapKeeps(start + k, n);
      }
      assert Probe(start, k, n) == m;
    }
  }

  /** When `n` divides the word, wrapping changes no remainder. */
  lemma WrapKeeps(x: nat, n: nat)
    requires 0 < n && U64 % n == 0
    ensures x % U64 % n == x % n
  {
    var w, y := U64 / n, x % U64;
    assert U64 == w * n;
    var d := x / U64;
    assert x == d * U64 + y;
    var q, r := y / n, y % n;
    assert y == q * n + r;
    assert d * U64 == d * (w * n) == (d * w) * n;
    assert x == (d * w) * n + q * n + r;
    assert (d * w + q) * n == (d * w) * n + q * n;
    ModUnique(x, n, d * w + q, r);
  }

  /** Otherwise a sum does wrap, and two probes that are not the same meet the same member,
      so that some member is never met. */
  lemma MissesOne(start: nat, n: nat) returns (m: nat)
    requires 0 < n <= U64 && start < U64 && !Rotates(start, n)
    ensures m < n && forall k :: 0 <= k < n ==> Probe(start, k, n) != m
  {
    // The first `w` probes run up to the end of the word, the others start over at 0.
    var w := U64 - start;
    var e := U64 % n;
    var q := U64 / n;
    assert U64 == q * n + e && 0 < w < n && 0 < e < n;
    if w <= e {
      // Residues e - w .. e - 1, then 0 .. n - w - 1.
      m := n - 1;
      forall k | 0 <= k < n
        ensures Probe(start, k, n) != m
      {
        ProbeAt(start, k, n, w, e, q);
      }
    } else {
      // Residues e - w + n .. n - 1 and 0 .. e - 1, then 0 .. n - w - 1.
      m := if e >= n - w then e else n - w;
      forall k | 0 <= k < n
        ensures Probe(start, k, n) != m
      {
        ProbeAt(start, k, n, w, e, q);
      }
    }
  }

  lemma ProbeAt(start: nat, k: nat, n: nat, w: nat, e: nat, q: nat)
    requires 0 < n <= U64 && start + w == U64 && 0 < w < n && 0 < e < n && U64 == q * n + e && k < n
    ensures k >= w ==> Probe(start, k, n) == k - w
    ensures k < w && k + e >= w ==> Probe(start, k, n) == k + e - w
    ensures k < w && k + e < w ==> Probe(start, k, n) == k + e - w + n
  {
    if k >= w {
      assert start + k == U64 + (k - w);
      ModUnique(start + k, U64, 1, k - w);
      ModUnique(k - w, n, 0, k - w);
    } else {
      assert (start + k) % U64 == start + k;
      assert start + k == q * n + (k + e - w);
      if k + e >= w {
        ModUnique(start + k, n, q, k + e - w);
      } else {
        assert (q - 1) * n == q * n - n;
        ModUnique(start + k, n, q - 1, k + e - w + n);
      }
    }
  }

  /** Every member of a group is probed exactly when the sums stay in the word, or the word
      is a multiple of the group's size. */
  lemma CoversIff(start: nat, n: nat)
    requires 0 < n <= U64 && start < U64
    ensures Covers(start, n) <==> Rotates(start, n)
  {
    if Rotates(start, n) {
      RotatesCovers(start, n);
    } else {
      var m := MissesOne(start, n);
      assert !Probed(start, n, m);
    }
  }

  // ------------------------------------------------------------------- the choice ---

  lemma OfQueueOne(s: Sub, q: Option<Bytes>)
    ensures OfQueue([s], q) == if s.queue == q then [s] else []
  {
    assert [s][1..] == [];
  }

  lemma OfQueuePickedOf(subs: seq<Sub>, g: Bytes, l: Load, start: nat, i: nat, q: Option<Bytes>)
    requires i <= |subs|
    ensures OfQueue(PickedOf(subs, g, l, start, i), q) == if q == Some(g) then PickedOf(subs, g, l, start, i) else []
  {
    var p := PickedOf(subs, g, l, start, i);
    if p != [] {
      var pick := Chosen(subs, Members(subs, g, i), l, start, g);
      OfQueueOne(subs[pick.value], q);
    }
  }

  lemma {:induction false} PlainKept(subs: seq<Sub>, l: Load, start: nat, i: nat, seen: seq<Bytes>)
    requires i <= |subs|
    ensures OfQueue(Picked(subs, l, start, i, seen), None) == OfQueue(subs[i..], None)
    decreases |subs| - i
  {
    if i < |subs| {
      assert subs[i..][0] == subs[i] && subs[i..][1..] == subs[i + 1..];
      if subs[i].queue.None? {
        PlainKept(subs, l, start, i + 1, seen);
        OfQueueOne(subs[i], None);
        OfQueueAppend([subs[i]], Picked(subs, l, start, i + 1, seen), None);
      } else {
        var g := subs[i].queue.value;
        PlainKept(subs, l, start, i + 1, seen);
        PlainKept(subs, l, start, i + 1, seen + [g]);
        OfQueuePickedOf(subs, g, l, start, i, None);
        OfQueueAppend(PickedOf(subs, g, l, start, i), Picked(subs, l, start, i + 1, seen + [g]), None);
      }
    }
  }

  /** A group that was served is not served again. */
  lemma {:induction false} ServedOnce(subs: seq<Sub>, l: Load, start: nat, i: nat, seen: seq<Bytes>, g: Bytes)
    requires i <= |subs| && g in seen
    ensures OfQueue(Picked(subs, l, start, i, seen), Some(g)) == []
    decreases |subs| - i
  {
    if i < |subs| {
      if subs[i].queue.None? {
        ServedOnce(subs, l, start, i + 1, seen, g);
        OfQueueOne(subs[i], Some(g));
        OfQueueAppend([subs[i]], Picked(subs, l, start, i + 1, seen), Some(g));
      } else {
        var h := subs[i].queue.value;
        if h in seen {
          ServedOnce(subs, l, start, i + 1, seen, g);
        } else {
          ServedOnce(subs, l, start, i + 1, seen + [h], g);
          OfQueuePickedOf(subs, h, l, start, i, Some(g));
          OfQueueAppend(PickedOf(subs, h, l, start, i), Picked(subs, l, start, i + 1, seen + [h]), Some(g));
        }
      }
    }
  }

  lemma SkipOther(subs: seq<Sub>, g: Bytes, l: Load, start: nat, i: nat)
    requires i < |subs| && subs[i].queue != Some(g)
    ensures PickedOf(subs, g, l, start, i) == PickedOf(subs, g, l, start, i + 1)
  {
    assert [] + Members(subs, g, i + 1) == Members(subs, g, i + 1);
  }

  /** What a group gets is one choice among all its members. */
  lemma {:induction false} ServedAtFirst(subs: seq<Sub>, l: Load, start: nat, i: nat, seen: seq<Bytes>, g: Bytes)
    requires i <= |subs| && g !in seen
    ensures OfQueue(Picked(subs, l, start, i, seen), Some(g)) == PickedOf(subs, g, l, start, i)
    decreases |subs| - i
  {
    if i == |subs| {
      assert Members(subs, g, i) == [];
    } else if subs[i].queue == Some(g) {
      ServedOnce(subs, l, start, i + 1, seen + [g], g);
      OfQueuePickedOf(subs, g, l, start, i, Some(g));
      OfQueueAppend(PickedOf(subs, g, l, start, i), Picked(subs, l, start, i + 1, seen + [g]), Some(g));
    } else {
      SkipOther(subs, g, l, start, i);
      ServedLater(subs, l, start, i, seen, g);
    }
  }

  lemma {:induction false} ServedLater(subs: seq<Sub>, l: Load, start: nat, i: nat, seen: seq<Bytes>, g: Bytes)
    requires i < |subs| && g !in seen && subs[i].queue != Some(g)
    ensures OfQueue(Picked(subs, l, start, i, seen), Some(g)) == PickedOf(subs, g, l, start, i + 1)
    decreases |subs| - i, 0
  {
    if subs[i].queue.None? {
      ServedAtFirst(subs, l, start, i + 1, seen, g);
      OfQueueOne(subs[i], Some(g));
      OfQueueAppend([subs[i]], Picked(subs, l, start, i + 1, seen), Some(g));
    } else {
      var h := subs[i].queue.value;
      if h in seen {
        ServedAtFirst(subs, l, start, i + 1, seen, g);
      } else {
        ServedAtFirst(subs, l, start, i + 1, seen + [h], g);
        OfQueuePickedOf(subs, h, l, start, i, Some(g));
        OfQueueAppend(PickedOf(subs, h, l, start, i), Picked(subs, l, start, i + 1, seen + [h]), Some(g));
      }
    }
  }

  /** Member `m` answers every question of a pass with yes. */
  predicate Steady(l: Load, subs: seq<Sub>, m: nat, g: Bytes, easily: bool, n: nat) {
    forall k :: 0 <= k < n ==> Meets(l, subs, m, Ask(g, easily, k))
  }

  /** Probing that covers the group finds someone, if anyone would always answer with yes. */
  lemma CoveringFinds(subs: seq<Sub>, ms: seq<nat>, l: Load, start: nat, g: Bytes, easily: bool, m: nat)
    requires |ms| > 0 && Covers(start, |ms|) && m in ms && Steady(l, subs, m, g, easily, |ms|)
    requires forall i :: 0 <= i < |ms| ==> ms[i] < |subs|
    ensures FirstFrom(subs, ms, l, start, 0, g, easily).Some?
  {
    var at :| 0 <= at < |ms| && ms[at] == m;
    assert Probed(start, |ms|, at);
    var k :| 0 <= k < |ms| && Probe(start, k, |ms|) == at;
    assert ms[Probe(start, k, |ms|)] == m && Meets(l, subs, m, Ask(g, easily, k));
  }

  /** The subscription was the first to be asked, in probe order, that could take the message. */
  predicate SaidYes(subs: seq<Sub>, l: Load, s: Sub, start: nat, g: Bytes, easily: bool) {
    exists m :: 0 <= m < |subs| && subs[m] == s && Met(l, subs, Members(subs, g, 0), m, start, 0, g, easily)
  }

  /** Some member would answer every question of the pass with yes. */
  predicate AnyCan(subs: seq<Sub>, g: Bytes, l: Load, easily: bool) {
    exists m :: m in Members(subs, g, 0) && Steady(l, subs, m, g, easily, |Members(subs, g, 0)|)
  }

  /** For every list, every start, and whatever the connections do meanwhile: the plain
      subscriptions are all kept, in order; each group gets at most one, which said it could
      take the message; if the probes rotate, it gets one if some member would always have
      said so, and one that said it had room if some member would always have said that. */
  lemma GroupChoice(subs: seq<Sub>, l: Load, start: nat, g: Bytes)
    requires start < U64
    ensures var out := Picked(subs, l, start, 0, []);
            var mine, n := OfQueue(out, Some(g)), |Members(subs, g, 0)|;
            && OfQueue(out, None) == OfQueue(subs, None)
            && |mine| <= 1
            && (mine != [] ==> mine[0] in subs && mine[0].queue == Some(g)
                               && (SaidYes(subs, l, mine[0], start, g, true) || SaidYes(subs, l, mine[0], start, g, false)))
            && (0 < n <= U64 && Rotates(start, n) ==>
                  && (AnyCan(subs, g, l, false) ==> mine != [])
                  && (AnyCan(subs, g, l, true) ==> mine != [] && SaidYes(subs, l, mine[0], start, g, true)))
  {
    PlainKept(subs, l, start, 0, []);
    assert subs[0..] == subs;
    ServedAtFirst(subs, l, start, 0, [], g);
    var ms := Members(subs, g, 0);
    var first, second := FirstFrom(subs, ms, l, start, 0, g, true), FirstFrom(subs, ms, l, start, 0, g, false);
    if 0 < |ms| <= U64 && Rotates(start, |ms|) {
      RotatesCovers(start, |ms|);
      forall m, easily | m in ms && Steady(l, subs, m, g, easily, |ms|)
        ensures FirstFrom(subs, ms, l, start, 0, g, easily).Some?
      {
        CoveringFinds(subs, ms, l, start, g, easily, m);
      }
      assert AnyCan(subs, g, l, true) ==> first.Some?;
      assert AnyCan(subs, g, l, false) ==> second.Some?;
    }
  }

  /** The k-th member asked of a group: members in order, the sum wrapping at 64 bits. */
  function AskedMember(subs: seq<Sub>, g: Bytes, start: nat, k: nat): Sub
    requires k < |Members(subs, g, 0)|
  {
    var ms := Members(subs, g, 0);
    subs[ms[(start + k) % 0x1_0000_0000_0000_0000 % |ms|]]
  }

  /** The k-th member asked can take the message, and easily if so asked, when it is asked. */
  predicate Yes(subs: seq<Sub>, g: Bytes, l: Load, start: nat, easily: bool, k: nat)
    requires k < |Members(subs, g, 0)|
  {
    var s, a := AskedMember(subs, g, start, k), Ask(g, easily, k);
    s.id in l.eligible(a) && (easily ==> s.id in l.room(a))
  }

  predicate NobodyUpTo(subs: seq<Sub>, g: Bytes, l: Load, start: nat, easily: bool, n: nat)
    requires n <= |Members(subs, g, 0)|
  {
    forall k :: 0 <= k < n ==> !Yes(subs, g, l, start, easily, k)
  }

  /** The k-th member asked is the first that can take the message easily, or nobody can easily and
      it is the first that can at all. */
  predicate FirstBest(subs: seq<Sub>, g: Bytes, l: Load, start: nat, k: nat)
    requires k < |Members(subs, g, 0)|
  {
    var n := |Members(subs, g, 0)|;
    || (Yes(subs, g, l, start, true, k) && NobodyUpTo(subs, g, l, start, true, k))
    || (NobodyUpTo(subs, g, l, start, true, n) && Yes(subs, g, l, start, false, k) && NobodyUpTo(subs, g, l, start, false, k))
  }

  /** What a group gets is the first of its members, asked in this order, that has room; if none
      has, the first that can take it at all; and if none can, nothing. */
  lemma FirstIsServed(subs: seq<Sub>, l: Load, start: nat, g: Bytes)
    ensures var mine, n := OfQueue(Picked(subs, l, start, 0, []), Some(g)), |Members(subs, g, 0)|;
            if NobodyUpTo(subs, g, l, start, true, n) && NobodyUpTo(subs, g, l, start, false, n) then mine == []
            else exists k :: 0 <= k < n && mine == [AskedMember(subs, g, start, k)] && FirstBest(subs, g, l, start, k)
  {
    ServedAtFirst(subs, l, start, 0, [], g);
    var ms := Members(subs, g, 0);
    var first, second := FirstFrom(subs, ms, l, start, 0, g, true), FirstFrom(subs, ms, l, start, 0, g, false);
    forall k, easily | 0 <= k < |ms|
      ensures Yes(subs, g, l, start, easily, k) <==> Meets(l, subs, ms[Probe(start, k, |ms|)], Ask(g, easily, k))
    {
    }
    if first.Some? || second.Some? {
      var easily, pick := first.Some?, if first.Some? then first.value else second.value;
      assert Met(l, subs, ms, pick, start, 0, g, easily);
      var k :| 0 <= k < |ms| && ms[Probe(start, k, |ms|)] == pick && FirstYes(l, subs, ms, k, start, 0, g, easily);
      assert FirstBest(subs, g, l, start, k);
    }
  }

  /** If nothing changes while the choice is made, a group whose probes rotate gets one exactly
      when a member is eligible, and one with room exactly when an eligible member has room. */
  lemma GroupChoiceAtOnce(subs: seq<Sub>, eligible: set<nat>, room: set<nat>, start: nat, g: Bytes)
    requires start < U64 && 0 < |Members(subs, g, 0)| <= U64 && Rotates(start, |Members(subs, g, 0)|)
    ensures var mine := OfQueue(Picked(subs, Load(_ => eligible, _ => room), start, 0, []), Some(g));
            && (mine != [] <==> exists m :: 0 <= m < |subs| && subs[m].queue == Some(g) && subs[m].id in eligible)
            && (mine != [] && mine[0].id in room
                <==> exists m :: 0 <= m < |subs| && subs[m].queue == Some(g) && subs[m].id in eligible && subs[m].id in room)
  {
    var l := Load(_ => eligible, _ => room);
    var members := Members(subs, g, 0);
    GroupChoice(subs, l, start, g);
    ServedAtFirst(subs, l, start, 0, [], g);
    forall m | 0 <= m < |subs| && subs[m].queue == Some(g) && subs[m].id in eligible
      ensures AnyCan(subs, g, l, false) && (subs[m].id in room ==> AnyCan(subs, g, l, true))
    {
      MembersAll(subs, g, 0, m);
      assert Steady(l, subs, m, g, false, |members|);
      assert subs[m].id in room ==> Steady(l, subs, m, g, true, |members|);
    }
  }

  // --------------------------------------------------------------------- in its place ---

  /** No subscription before this one is of its group. */
  predicate OpensGroup(subs: seq<Sub>, i: nat)
    requires i < |subs|
  {
    forall k :: 0 <= k < i ==> subs[k].queue != subs[i].queue
  }

  /** What the i-th subscription puts on the list: itself if it is plain, the choice of its group
      if it is the first of it. */
  function Slot(subs: seq<Sub>, l: Load, start: nat, i: nat): seq<Sub>
    requires i < |subs|
  {
    if subs[i].queue.None? then [subs[i]]
    else if OpensGroup(subs, i) then PickedOf(subs, subs[i].queue.value, l, start, 0)
    else []
  }

  function Slots(subs: seq<Sub>, l: Load, start: nat, i: nat): seq<Sub>
    requires i <= |subs|
    decreases |subs| - i
  {
    if i == |subs| then [] else Slot(subs, l, start, i) + Slots(subs, l, start, i + 1)
  }

  /** The groups seen are those of the subscriptions so far. */
  ghost predicate SeenAre(subs: seq<Sub>, i: nat, seen: seq<Bytes>)
    requires i <= |subs|
  {
    forall g :: g in seen <==> exists k :: 0 <= k < i && subs[k].queue == Some(g)
  }

  lemma {:induction false} MembersFrom(subs: seq<Sub>, g: Bytes, i: nat)
    requires i <= |subs| && forall k :: 0 <= k < i ==> subs[k].queue != Some(g)
    ensures Members(subs, g, 0) == Members(subs, g, i)
  {
    if i > 0 {
      MembersFrom(subs, g, i - 1);
      assert [] + Members(subs, g, i) == Members(subs, g, i);
    }
  }

  lemma SeenMore(subs: seq<Sub>, i: nat, seen: seq<Bytes>)
    requires i < |subs| && SeenAre(subs, i, seen)
    ensures SeenAre(subs, i + 1, SeenThen(subs, i, seen))
    ensures subs[i].queue.Some? ==> (OpensGroup(subs, i) <==> subs[i].queue.value !in seen)
  {
  }

  /** The groups seen once the i-th subscription is. */
  function SeenThen(subs: seq<Sub>, i: nat, seen: seq<Bytes>): seq<Bytes>
    requires i < |subs|
  {
    if subs[i].queue.None? || subs[i].queue.value in seen then seen else seen + [subs[i].queue.value]
  }

  /** The i-th subscription puts the same on the list either way. */
  lemma SlotIs(subs: seq<Sub>, l: Load, start: nat, i: nat, seen: seq<Bytes>)
    requires i < |subs| && SeenAre(subs, i, seen)
    ensures Picked(subs, l, start, i, seen) == Slot(subs, l, start, i) + Picked(subs, l, start, i + 1, SeenThen(subs, i, seen))
  {
    SeenMore(subs, i, seen);
    if subs[i].queue.Some? {
      if OpensGroup(subs, i) {
        MembersFrom(subs, subs[i].queue.value, i);
      } else {
        assert [] + Picked(subs, l, start, i + 1, seen) == Picked(subs, l, start, i + 1, seen);
      }
    }
  }

  lemma {:induction false} PickedFromSlots(subs: seq<Sub>, l: Load, start: nat, i: nat, seen: seq<Bytes>)
    requires i <= |subs| && SeenAre(subs, i, seen)
    ensures Picked(subs, l, start, i, seen) == Slots(subs, l, start, i)
    decreases |subs| - i
  {
    if i < |subs| {
      SlotIs(subs, l, start, i, seen);
      SeenMore(subs, i, seen);
      PickedFromSlots(subs, l, start, i + 1, SeenThen(subs, i, seen));
    }
  }

  /** The list is the subscriptions in their order, each group's choice where its first member is. */
  lemma InItsPlace(subs: seq<Sub>, l: Load, start: nat)
    ensures Picked(subs, l, start, 0, []) == Slots(subs, l, start, 0)
  {
    PickedFromSlots(subs, l, start, 0, []);
  }

  predicate Served(subs: seq<Sub>, g: Bytes, l: Load, start: nat) {
    OfQueue(Picked(subs, l, start, 0, []), Some(g)) != []
  }

  /** A group is never passed over while a member can take the message, whoever that is,
      exactly when the probes rotate. */
  lemma NobodyMissedIff(subs: seq<Sub>, start: nat, g: Bytes)
    requires start < U64 && 0 < |Members(subs, g, 0)| <= U64
    requires forall i, j :: 0 <= i < j < |subs| ==> subs[i].id != subs[j].id
    ensures (forall l :: AnyCan(subs, g, l, false) ==> Served(subs, g, l, start))
       <==> Rotates(start, |Members(subs, g, 0)|)
  {
    if Rotates(start, |Members(subs, g, 0)|) {
      forall l | AnyCan(subs, g, l, false)
        ensures Served(subs, g, l, start)
      {
        GroupChoice(subs, l, start, g);
      }
    } else {
      var l := Missed(subs, start, g);
    }
  }

  lemma Missed(subs: seq<Sub>, start: nat, g: Bytes) returns (l: Load)
    requires start < U64 && 0 < |Members(subs, g, 0)| <= U64 && !Rotates(start, |Members(subs, g, 0)|)
    requires forall i, j :: 0 <= i < j < |subs| ==> subs[i].id != subs[j].id
    ensures AnyCan(subs, g, l, false) && !Served(subs, g, l, start)
  {
    var ms := Members(subs, g, 0);
    var miss := MissesOne(start, |ms|);
    var only := subs[ms[miss]].id;
    l := Load(_ => {only}, _ => {});
    assert ms[miss] in ms && Steady(l, subs, ms[miss], g, false, |ms|);
    ServedAtFirst(subs, l, start, 0, [], g);
    MembersDistinct(subs, g, 0);
    OnlyMissed(subs, ms, l, start, 0, miss, g, false);
    OnlyMissed(subs, ms, l, start, 0, miss, g, true);
  }

  predicate Increasing(ms: seq<nat>) {
    forall i, j :: 0 <= i < j < |ms| ==> ms[i] < ms[j]
  }

  lemma {:induction false} MembersDistinct(subs: seq<Sub>, g: Bytes, from: nat)
    requires from <= |subs|
    ensures Increasing(Members(subs, g, from))
    decreases |subs| - from
  {
    if from < |subs| {
      MembersDistinct(subs, g, from + 1);
      var rest := Members(subs, g, from + 1);
      assert [] + rest == rest;
      IncreasingCons(from, rest);
    }
  }

  lemma IncreasingCons(x: nat, rest: seq<nat>)
    requires Increasing(rest) && forall i :: 0 <= i < |rest| ==> x < rest[i]
    ensures Increasing([x] + rest)
  {
  }

  lemma {:induction false} OnlyMissed(subs: seq<Sub>, ms: seq<nat>, l: Load, start: nat, k: nat, miss: nat, g: Bytes,
                                           easily: bool)
    requires k <= |ms| && miss < |ms| && forall i :: 0 <= i < |ms| ==> ms[i] < |subs|
    requires Increasing(ms)
    requires forall i, j :: 0 <= i < j < |subs| ==> subs[i].id != subs[j].id
    requires forall a :: l.eligible(a) == {subs[ms[miss]].id}
    requires forall j :: 0 <= j < |ms| ==> Probe(start, j, |ms|) != miss
    ensures FirstFrom(subs, ms, l, start, k, g, easily).None?
    decreases |ms| - k
  {
    if k < |ms| {
      OnlyMissed(subs, ms, l, start, k + 1, miss, g, easily);
      var at := Probe(start, k, |ms|);
      assert if at < miss then ms[at] < ms[miss] else ms[miss] < ms[at];
      assert subs[ms[at]].id != subs[ms[miss]].id;
      assert !Meets(l, subs, ms[at], Ask(g, easily, k));
    }
  }

  // --------------------------------------------------------------------- the loop ---

  /** The sampling as the server does it, with the groups seen so far in a list. */
  method PickGroups(subs: seq<Sub>, l: Load, start: nat) returns (out: seq<Sub>)
    ensures out == Picked(subs, l, start, 0, [])
  {
    out := [];
    var groups: seq<Bytes> := [];
    for i := 0 to |subs|
      invariant out + Picked(subs, l, start, i, groups) == Picked(subs, l, start, 0, [])
    {
      match subs[i].queue {
        case None =>
          Assoc(out, [subs[i]], Picked(subs, l, start, i + 1, groups));
          out := out + [subs[i]];
        case Some(group) =>
          if group !in groups {
            Assoc(out, PickedOf(subs, group, l, start, i), Picked(subs, l, start, i + 1, groups + [group]));
            groups := groups + [group];
            var members := FindMembers(subs, group, i);
            var pick := FindFirst(subs, members, l, start, group, true);
            if pick.None? {
              pick := FindFirst(subs, members, l, start, group, false);
            }
            if pick.Some? {
              out := out + [subs[pick.value]];
            } else {
              assert out + [] == out;
            }
          }
      }
    }
  }

  method FindMembers(subs: seq<Sub>, group: Bytes, i: nat) returns (members: seq<nat>)
    requires i <= |subs|
    ensures members == Members(subs, group, i)
  {
    members := [];
    for k := i to |subs|
      invariant members + Members(subs, group, k) == Members(subs, group, i)
    {
      assert [] + Members(subs, group, k + 1) == Members(subs, group, k + 1);
      if subs[k].queue == Some(group) {
        Assoc(members, [k], Members(subs, group, k + 1));
        members := members + [k];
      }
    }
  }

  method FindFirst(subs: seq<Sub>, ms: seq<nat>, l: Load, start: nat, g: Bytes, easily: bool) returns (r: Option<nat>)
    requires forall i :: 0 <= i < |ms| ==> ms[i] < |subs|
    ensures r == FirstFrom(subs, ms, l, start, 0, g, easily)
  {
    for k := 0 to |ms|
      invariant FirstFrom(subs, ms, l, start, 0, g, easily) == FirstFrom(subs, ms, l, start, k, g, easily)
    {
      var m := ms[(start + k) % U64 % |ms|];
      if Meets(l, subs, m, Ask(g, easily, k)) {
        return Some(m);
      }
    }
    r := None;
  }
}
