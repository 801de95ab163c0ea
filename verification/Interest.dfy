/** The interest cache as the object a publishing task keeps between publishes. */
module Interest {
  import opened ByteStrings
  import opened Registry
  import opened Groups
  import opened Routing

  class Interest {
    /** The generation `subs` was resolved against; none yet at first. */
    var generation: Option<nat>
    var subject: Bytes
    var subs: seq<Sub>
    var queue: bool
    var chosen: seq<Sub>

    constructor ()
      ensures generation == None
    {
      generation, subject, subs, queue, chosen := None, [], [], false, [];
    }

    /** The cache answers its subject with the set of the generation it recorded. */
    ghost predicate Coherent(reg: Index)
      reads this, reg
    {
      generation.Some? ==>
        && generation.value < |reg.history|
        && subs == Resolved(reg.history[generation.value], subject)
        && queue == AnyQueued(subs)
    }

    /** The look-up a route begins with: resolve if the generation or the subject moved on,
        then sample the queue groups beside the cache, not in it. */
    method Lookup(reg: Index, published: Bytes, l: Load, start: nat) returns (list: seq<Sub>)
      requires reg.Valid() && Coherent(reg)
      modifies this
      ensures Coherent(reg) && subject == published && subs == Resolved(reg.all, published)
      ensures list == if AnyQueued(subs) then Picked(subs, l, start, 0, []) else subs
      ensures generation == old(generation) && subject == old(subject) ==> subs == old(subs)
    {
      if generation != Some(reg.generation) || subject != published {
        subs, queue := reg.Resolve(published);
        generation, subject := Some(reg.generation), published;
      }
      if queue {
        chosen := PickGroups(subs, l, start);
        list := chosen;
      } else {
        list := subs;
      }
    }
  }

  /** Any sample the groups give is one a route may deliver to: all the plain ones in order,
      and at most one of each group. */
  lemma PickedIsChoice(subs: seq<Sub>, l: Load, start: nat)
    requires Distinct(subs)
    ensures IsChoice(if AnyQueued(subs) then Picked(subs, l, start, 0, []) else subs, subs)
  {
    PickedFrom(subs, l, start, 0, []);
    PlainKept(subs, l, start, 0, []);
    assert subs[0..] == subs;
    var out := Picked(subs, l, start, 0, []);
    forall i, j | 0 <= i < j < |out| && out[i].queue.Some?
      ensures out[i].queue != out[j].queue
    {
      if out[i].queue == out[j].queue {
        ServedAtFirst(subs, l, start, 0, [], out[i].queue.value);
        TwoOfQueue(out, i, j);
      }
    }
  }

  /** Two of one queue are two of its list. */
  lemma TwoOfQueue(xs: seq<Sub>, i: nat, j: nat)
    requires i < j < |xs| && xs[i].queue == xs[j].queue
    ensures |OfQueue(xs, xs[i].queue)| >= 2
  {
    var q := xs[i].queue;
    OneOfQueue(xs[..j], i);
    OneOfQueue(xs[j..], 0);
    assert xs[..j] + xs[j..] == xs;
    OfQueueAppend(xs[..j], xs[j..], q);
  }

  lemma OneOfQueue(xs: seq<Sub>, i: nat)
    requires i < |xs|
    ensures |OfQueue(xs, xs[i].queue)| >= 1
  {
    assert xs[..i] + xs[i..] == xs && xs[i..][0] == xs[i];
    OfQueueAppend(xs[..i], xs[i..], xs[i].queue);
  }

  predicate From(x: Sub, subs: seq<Sub>, i: nat) {
    exists k :: i <= k < |subs| && subs[k] == x
  }

  predicate Unserved(x: Sub, seen: seq<Bytes>) {
    x.queue.Some? ==> x.queue.value !in seen
  }

  /** Each once, from `subs[i..]`, and of no group that was served. */
  predicate Clean(out: seq<Sub>, subs: seq<Sub>, i: nat, seen: seq<Bytes>) {
    && Within(out, subs) && Distinct(out)
    && forall k :: 0 <= k < |out| ==> From(out[k], subs, i) && Unserved(out[k], seen)
  }

  lemma CleanBefore(out: seq<Sub>, subs: seq<Sub>, i: nat, seen: seq<Bytes>, more: seq<Bytes>)
    requires Clean(out, subs, i + 1, more) && seen <= more
    ensures Clean(out, subs, i, seen)
  {
    forall k | 0 <= k < |out|
      ensures From(out[k], subs, i) && Unserved(out[k], seen)
    {
      assert From(out[k], subs, i + 1) && Unserved(out[k], more);
    }
  }

  lemma {:induction false} PickedFrom(subs: seq<Sub>, l: Load, start: nat, i: nat, seen: seq<Bytes>)
    requires i <= |subs| && Distinct(subs)
    ensures Clean(Picked(subs, l, start, i, seen), subs, i, seen)
    decreases |subs| - i
  {
    if i < |subs| {
      if subs[i].queue.None? {
        PickedFrom(subs, l, start, i + 1, seen);
        Prepend(subs, i, seen, subs[i], Picked(subs, l, start, i + 1, seen));
      } else if subs[i].queue.value in seen {
        PickedFrom(subs, l, start, i + 1, seen);
        CleanBefore(Picked(subs, l, start, i + 1, seen), subs, i, seen, seen);
      } else {
        var g := subs[i].queue.value;
        PickedFrom(subs, l, start, i + 1, seen + [g]);
        ServedClean(subs, l, start, i, seen, g, Picked(subs, l, start, i + 1, seen + [g]));
      }
    }
  }

  lemma ServedClean(subs: seq<Sub>, l: Load, start: nat, i: nat, seen: seq<Bytes>, g: Bytes, rest: seq<Sub>)
    requires i < |subs| && Distinct(subs) && g !in seen && Clean(rest, subs, i + 1, seen + [g])
    ensures Clean(PickedOf(subs, g, l, start, i) + rest, subs, i, seen)
  {
    var pick := Chosen(subs, Members(subs, g, i), l, start, g);
    if pick.Some? {
      PrependServed(subs, i, seen, g, subs[pick.value], pick.value, rest);
    } else {
      assert [] + rest == rest;
      CleanBefore(rest, subs, i, seen, seen + [g]);
    }
  }

  /** A plain subscription before those that come after it. */
  lemma Prepend(subs: seq<Sub>, i: nat, seen: seq<Bytes>, x: Sub, rest: seq<Sub>)
    requires i < |subs| && Distinct(subs) && x == subs[i] && x.queue.None? && Clean(rest, subs, i + 1, seen)
    ensures Clean([x] + rest, subs, i, seen)
  {
    forall y | y in rest
      ensures y.id != x.id
    {
      var k :| 0 <= k < |rest| && rest[k] == y;
      assert From(rest[k], subs, i + 1);
    }
    DistinctCons(x, rest);
    CleanBefore(rest, subs, i, seen, seen);
  }

  /** The one chosen of a group before what is chosen of other groups. */
  lemma PrependServed(subs: seq<Sub>, i: nat, seen: seq<Bytes>, g: Bytes, x: Sub, at: nat, rest: seq<Sub>)
    requires i <= at < |subs| && Distinct(subs) && x == subs[at] && x.queue == Some(g) && g !in seen
    requires Clean(rest, subs, i + 1, seen + [g])
    ensures Clean([x] + rest, subs, i, seen)
  {
    forall y | y in rest
      ensures y.id != x.id
    {
      var k :| 0 <= k < |rest| && rest[k] == y;
      assert From(rest[k], subs, i + 1) && Unserved(rest[k], seen + [g]);
      assert g in seen + [g];
    }
    DistinctCons(x, rest);
    CleanBefore(rest, subs, i, seen, seen + [g]);
  }
}
