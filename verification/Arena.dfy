/** The bump arena frames are laid down in. */
module Arena {
  import opened ByteStrings
  import opened Retention

  /** A sealed frame: a range of a chunk. */
  datatype View = View(mem: array<byte>, from: nat, to: nat)

  function Size(v: View): nat { if v.from <= v.to then v.to - v.from else 0 }

  function Sizes(vs: seq<View>): (ns: seq<nat>)
    ensures |ns| == |vs|
  {
    if vs == [] then [] else Sizes(vs[..|vs| - 1]) + [Size(vs[|vs| - 1])]
  }

  /** The frame lies in the memory of chunk `h`. */
  predicate InMemory(v: View, mems: seq<array<byte>>, h: nat) {
    h < |mems| && v.mem == mems[h]
  }

  /** The frames lie apart, and those in `mem` before `from`. */
  predicate Apart(views: seq<View>, mem: array<byte>, from: nat) {
    && (forall i :: 0 <= i < |views| && views[i].mem == mem ==> views[i].to <= from)
    && (forall i, j :: 0 <= i < j < |views| && views[i].mem == views[j].mem ==> views[i].to <= views[j].from)
  }

  lemma ApartSealed(views: seq<View>, mem: array<byte>, from: nat, to: nat)
    requires Apart(views, mem, from) && from <= to
    ensures Apart(views + [View(mem, from, to)], mem, to)
  {
  }

  /** The layout is that of the memory: a chunk costs its array, and a frame lies in the array
      of its chunk and takes there what the layout says. */
  predicate LaidOut(views: seq<View>, mems: seq<array<byte>>, slabs: seq<Slab>) {
    Lengths(mems) == Caps(slabs) && Sizes(views) == Used(slabs) && AllHome(views, mems, slabs)
  }

  function Lengths(mems: seq<array<byte>>): (ns: seq<nat>)
    ensures |ns| == |mems|
  {
    if mems == [] then [] else Lengths(mems[..|mems| - 1]) + [mems[|mems| - 1].Length]
  }

  function Caps(slabs: seq<Slab>): (ns: seq<nat>)
    ensures |ns| == |slabs|
  {
    if slabs == [] then [] else Caps(slabs[..|slabs| - 1]) + [Last(slabs).cap]
  }

  predicate AllHome(views: seq<View>, mems: seq<array<byte>>, slabs: seq<Slab>) {
    views == [] || (InMemory(views[|views| - 1], mems, Home(slabs, |views| - 1)) && AllHome(views[..|views| - 1], mems, slabs))
  }

  lemma {:induction false} HomeAt(views: seq<View>, mems: seq<array<byte>>, slabs: seq<Slab>, i: nat)
    requires AllHome(views, mems, slabs) && i < |views|
    ensures InMemory(views[i], mems, Home(slabs, i))
  {
    if i < |views| - 1 {
      HomeAt(views[..|views| - 1], mems, slabs, i);
    }
  }

  /** Chunks and frames that come later leave the frames where they are. */
  lemma {:induction false} HomesStay(views: seq<View>, mems: seq<array<byte>>, slabs: seq<Slab>,
                                     mems': seq<array<byte>>, slabs': seq<Slab>)
    requires AllHome(views, mems, slabs) && mems <= mems'
    requires forall i :: 0 <= i < |views| ==> Home(slabs', i) == Home(slabs, i)
    ensures AllHome(views, mems', slabs')
  {
    if views != [] {
      HomesStay(views[..|views| - 1], mems, slabs, mems', slabs');
    }
  }

  lemma LaidOpened(views: seq<View>, mems: seq<array<byte>>, slabs: seq<Slab>, mem: array<byte>)
    requires LaidOut(views, mems, slabs)
    ensures LaidOut(views, mems + [mem], slabs + [Slab(mem.Length, [])])
  {
    var s := Slab(mem.Length, []);
    var mems', slabs' := mems + [mem], slabs + [s];
    assert mems'[..|mems|] == mems && slabs'[..|slabs|] == slabs;
    HomeOpened(slabs, s, 0);
    assert Used(slabs) + s.used == Used(slabs);
    forall i | 0 <= i < |views|
      ensures Home(slabs', i) == Home(slabs, i)
    {
      HomeOpened(slabs, s, i);
    }
    HomesStay(views, mems, slabs, mems', slabs');
  }

  lemma LaidFilled(views: seq<View>, mems: seq<array<byte>>, slabs: seq<Slab>, v: View)
    requires LaidOut(views, mems, slabs) && slabs != [] && |mems| == |slabs| && v.mem == mems[|mems| - 1]
    ensures LaidOut(views + [v], mems, Filled(slabs, Size(v)))
  {
    var more, slabs' := views + [v], Filled(slabs, Size(v));
    assert more[..|more| - 1] == views && slabs'[..|slabs| - 1] == slabs[..|slabs| - 1];
    HomeFilled(slabs, Size(v), |views|);
    forall i | 0 <= i < |views|
      ensures Home(slabs', i) == Home(slabs, i)
    {
      HomeFilled(slabs, Size(v), i);
    }
    HomesStay(views, mems, slabs, mems, slabs');
  }

  /** The rest of a chunk. What has been written and not handed over is `mem[from..to]`. */
  class Tail {
    var mem: array<byte>
    var from: nat
    var to: nat

    constructor (cap: nat)
      ensures Valid() && Pending() == [] && Room() == cap && from == 0 && fresh(mem)
    {
      mem := new byte[cap](_ => 0);
      from, to := 0, 0;
    }

    ghost predicate Valid()
      reads this
    {
      from <= to <= mem.Length
    }

    ghost function Pending(): Bytes
      requires Valid()
      reads this, mem
    {
      mem[from..to]
    }

    function Room(): nat
      requires Valid()
      reads this
    {
      mem.Length - to
    }

    /** Writes behind what is there, within the chunk: what was handed over stays. */
    method Put(b: Bytes)
      requires Valid() && |b| <= Room()
      modifies this`to, mem
      ensures Valid() && Pending() == old(Pending()) + b && Room() == old(Room()) - |b|
      ensures mem[..from] == old(mem[..from])
    {
      forall k | 0 <= k < |b| {
        mem[to + k] := b[k];
      }
      assert mem[..to] == old(mem[..to]) && mem[to..to + |b|] == b;
      Beside(mem[..], old(mem[..]), from, to, b);
      to := to + |b|;
    }
  }

  /** What stands before the place written to is as it was. */
  lemma Beside(now: Bytes, was: Bytes, from: nat, to: nat, b: Bytes)
    requires from <= to && to + |b| <= |now| == |was| && now[..to] == was[..to] && now[to..to + |b|] == b
    ensures now[from..to + |b|] == was[from..to] + b && now[..from] == was[..from]
  {
    assert now[from..to + |b|] == now[from..to] + now[to..to + |b|];
    assert now[from..to] == now[..to][from..] && was[from..to] == was[..to][from..];
    assert now[..from] == now[..to][..from] && was[..from] == was[..to][..from];
  }

  class Arena {
    var chunk: Tail
    ghost var views: seq<View>
    /** What each frame said when it was sealed. */
    ghost var texts: seq<Bytes>
    ghost var slabs: seq<Slab>
    /** The memory of each chunk. */
    ghost var mems: seq<array<byte>>

    constructor ()
      ensures Valid() && Laid() && Idle() && views == [] && slabs == [] && fresh(chunk) && fresh(chunk.mem)
    {
      chunk := new Tail(0);
      views, texts, slabs, mems := [], [], [], [];
    }

    ghost function Chunks(): set<array<byte>>
      reads this, chunk
    {
      {chunk.mem} + set v | v in views :: v.mem
    }

    /** Sealed frames still say what they said, lie apart, and lie before what is being
        written. */
    ghost predicate Valid()
      reads this, chunk, Chunks()
    {
      && chunk.Valid() && |views| == |texts|
      && (forall i :: 0 <= i < |views| ==> Intact(views[i], texts[i]))
      && Apart(views, chunk.mem, chunk.from)
      && (if slabs == [] then chunk.mem.Length == 0
          else Last(slabs).cap == chunk.mem.Length && Sum(Last(slabs).used) == chunk.from)
    }

    /** The chunks recorded are the arrays the frames lie in, the current one last. */
    ghost predicate Laid()
      reads this, chunk`mem
    {
      LaidOut(views, mems, slabs) && (mems != [] ==> mems[|mems| - 1] == chunk.mem)
    }

    /** Everything written has been handed over. */
    ghost predicate Idle()
      reads this, chunk
    {
      chunk.from == chunk.to
    }

    static ghost predicate Intact(v: View, text: Bytes)
      reads v.mem
    {
      v.from <= v.to <= v.mem.Length && v.mem[v.from..v.to] == text
    }

    /** Room for `need` bytes, in a new chunk if the current one has less. */
    method Reserve(need: nat) returns (tail: Tail)
      requires Valid() && Idle() && need > 0
      modifies this`chunk, this`slabs, this`mems
      ensures Valid() && Idle() && tail == chunk && tail.Room() >= need
      ensures if slabs == old(slabs) then tail == old(chunk) && tail.mem == old(chunk.mem)
              else fresh(tail) && fresh(tail.mem) && tail.mem.Length == Max(need, CHUNK)
      ensures slabs == Opened(old(slabs), need)
      ensures mems == old(mems) + if slabs == old(slabs) then [] else [chunk.mem]
    {
      if chunk.mem.Length - chunk.to < need {
        var cap := if need > CHUNK then need else CHUNK;
        chunk := new Tail(cap);
        slabs := slabs + [Slab(cap, [])];
        mems := mems + [chunk.mem];
      }
      tail := chunk;
    }

    /** Making room and sealing a frame keep the record of the chunks true. */
    twostate lemma StillLaid(new v: View, need: nat)
      requires old(Laid()) && v.mem == chunk.mem && views == old(views) + [v]
      requires slabs == Filled(Opened(old(slabs), need), Size(v))
      requires mems == old(mems) + if Opened(old(slabs), need) == old(slabs) then [] else [chunk.mem]
      requires if Opened(old(slabs), need) == old(slabs) then chunk.mem == old(chunk.mem)
               else chunk.mem.Length == Max(need, CHUNK)
      ensures Laid()
    {
      var room := Opened(old(slabs), need);
      if room != old(slabs) {
        LaidOpened(old(views), old(mems), old(slabs), chunk.mem);
      } else {
        assert mems == old(mems);
      }
      LaidFilled(old(views), mems, room, v);
    }

    /** Whatever was written at the tail, the arena is in order. */
    twostate lemma Undisturbed()
      requires old(Valid()) && unchanged(this) && unchanged(chunk`mem) && unchanged(chunk`from)
      requires chunk.Valid() && chunk.mem[..chunk.from] == old(chunk.mem[..chunk.from])
      requires forall v :: v in views && v.mem != chunk.mem ==> unchanged(v.mem)
      ensures Valid()
    {
      forall i | 0 <= i < |views|
        ensures Intact(views[i], texts[i])
      {
        var v := views[i];
        assert old(Intact(v, texts[i]));
        if v.mem == chunk.mem {
          assert v.mem[v.from..v.to] == v.mem[..chunk.from][v.from..v.to];
        }
      }
    }

    /** Hands over what was written since the last seal. */
    method Seal() returns (v: View)
      requires Valid() && slabs != []
      modifies chunk`from, this`views, this`texts, this`slabs
      ensures Valid() && Idle() && v.mem == chunk.mem && Size(v) == |old(chunk.Pending())|
      ensures views == old(views) + [v] && texts == old(texts) + [old(chunk.Pending())]
      ensures slabs == Filled(old(slabs), |old(chunk.Pending())|)
      ensures Intact(v, old(chunk.Pending()))
    {
      ghost var text := chunk.Pending();
      v := View(chunk.mem, chunk.from, chunk.to);
      SumSnoc(Last(slabs).used, |text|);
      ApartSealed(views, chunk.mem, chunk.from, chunk.to);
      texts := texts + [text];
      views := views + [v];
      slabs := Filled(slabs, |text|);
      chunk.from := chunk.to;
      assert forall i :: 0 <= i < |views| - 1 ==> views[i] == old(views)[i] && texts[i] == old(texts)[i];
      assert forall i :: 0 <= i < |views| - 1 ==> Intact(views[i], texts[i]);
    }
  }
}
