/** How much memory a connection's undelivered frames keep alive. A chunk lives as long as
    any frame in it does, and frames are released in the order they were laid down. */
module Retention {

  const CHUNK: nat := 8 * 1024

  /** What a frame asks for beyond its own length, at most. */
  const SLACK: nat := 41

  /** A chunk: what it cost, and the lengths of the frames in it. */
  datatype Slab = Slab(cap: nat, used: seq<nat>)

  function Sum(xs: seq<nat>): nat {
    if xs == [] then 0 else xs[0] + Sum(xs[1..])
  }

  lemma {:induction false} SumSnoc(xs: seq<nat>, x: nat)
    ensures Sum(xs + [x]) == Sum(xs) + x
  {
    if xs == [] {
      assert xs + [x] == [x];
    } else {
      assert (xs + [x])[1..] == xs[1..] + [x];
      SumSnoc(xs[1..], x);
    }
  }

  function Max(a: nat, b: nat): nat { if a > b then a else b }

  function Last(slabs: seq<Slab>): Slab
    requires slabs != []
  {
    slabs[|slabs| - 1]
  }

  /** Room for `need` bytes in the current chunk. */
  predicate HasRoom(slabs: seq<Slab>, need: nat) {
    slabs != [] && Last(slabs).cap >= Sum(Last(slabs).used) + need
  }

  /** A chunk for `need` bytes: the current one if it has room, or a new one. */
  function Opened(slabs: seq<Slab>, need: nat): (r: seq<Slab>)
    ensures r != []
  {
    if HasRoom(slabs, need) then slabs else slabs + [Slab(Max(need, CHUNK), [])]
  }

  /** The frame written into the current chunk. */
  function Filled(slabs: seq<Slab>, len: nat): seq<Slab>
    requires slabs != []
  {
    slabs[|slabs| - 1 := Last(slabs).(used := Last(slabs).used + [len])]
  }

  function Place(slabs: seq<Slab>, need: nat, len: nat): seq<Slab> {
    Filled(Opened(slabs, need), len)
  }

  /** What a frame asked for, and what it took. */
  datatype Request = Request(need: nat, len: nat)

  /** A frame takes no more than it asked for and little less. */
  predicate Modest(r: Request) { r.len <= r.need <= r.len + SLACK && r.need > SLACK }

  function Layout(rs: seq<Request>): seq<Slab> {
    if rs == [] then [] else Place(Layout(rs[..|rs| - 1]), rs[|rs| - 1].need, rs[|rs| - 1].len)
  }

  predicate SlabOk(s: Slab) {
    && s.used != [] && Sum(s.used) <= s.cap && s.cap >= CHUNK
    && (s.cap > CHUNK ==> |s.used| == 1 && s.cap <= Sum(s.used) + SLACK)
  }

  /** A chunk that was given up was too full for the frame that came next. */
  predicate Crowded(s: Slab, next: Slab) {
    next.used != [] && s.cap < Sum(s.used) + next.used[0] + SLACK
  }

  predicate Packed(slabs: seq<Slab>) {
    && (forall i :: 0 <= i < |slabs| ==> SlabOk(slabs[i]))
    && (forall i :: 0 <= i < |slabs| - 1 ==> Crowded(slabs[i], slabs[i + 1]))
  }

  lemma PlacePacked(slabs: seq<Slab>, r: Request)
    requires Packed(slabs) && Modest(r)
    ensures Packed(Place(slabs, r.need, r.len))
  {
    var out := Place(slabs, r.need, r.len);
    if HasRoom(slabs, r.need) {
      var s := Last(slabs);
      SumSnoc(s.used, r.len);
      assert SlabOk(s);
      var s' := s.(used := s.used + [r.len]);
      assert SlabOk(s');
      assert s'.used[0] == s.used[0];
      forall i | 0 <= i < |out| - 1
        ensures Crowded(out[i], out[i + 1])
      {
        assert Crowded(slabs[i], slabs[i + 1]);
      }
    } else {
      var s' := Slab(Max(r.need, CHUNK), [] + [r.len]);
      assert [] + [r.len] == [r.len] && Sum([r.len]) == r.len;
      assert out == slabs + [s'];
      assert SlabOk(s');
      forall i | 0 <= i < |out| - 1
        ensures Crowded(out[i], out[i + 1])
      {
        if i < |slabs| - 1 {
          assert Crowded(slabs[i], slabs[i + 1]);
        }
      }
    }
  }

  lemma {:induction false} LayoutPacked(rs: seq<Request>)
    requires forall i :: 0 <= i < |rs| ==> Modest(rs[i])
    ensures Packed(Layout(rs))
  {
    if rs != [] {
      LayoutPacked(rs[..|rs| - 1]);
      PlacePacked(Layout(rs[..|rs| - 1]), rs[|rs| - 1]);
    }
  }

  /** The chunks' cost. */
  function Pinned(slabs: seq<Slab>): nat {
    if slabs == [] then 0 else slabs[0].cap + Pinned(slabs[1..])
  }

  /** The bytes of the frames in them. */
  function Held(slabs: seq<Slab>): nat {
    if slabs == [] then 0 else Sum(slabs[0].used) + Held(slabs[1..])
  }

  lemma PackedTail(slabs: seq<Slab>)
    requires Packed(slabs) && slabs != []
    ensures Packed(slabs[1..])
  {
    forall i | 0 <= i < |slabs[1..]| - 1
      ensures Crowded(slabs[1..][i], slabs[1..][i + 1])
    {
      assert Crowded(slabs[i + 1], slabs[i + 2]);
    }
  }

  lemma FirstBelow(s: Slab)
    requires SlabOk(s)
    ensures s.used[0] <= Sum(s.used)
  {
  }

  /** Whole chunks cost twice the bytes in them, with the slack of each and a chunk more;
      the first frame of all counts once only. */
  lemma {:induction false} PinnedBound(slabs: seq<Slab>)
    requires Packed(slabs) && slabs != []
    ensures Pinned(slabs) + slabs[0].used[0] <= 2 * Held(slabs) + SLACK * |slabs| + CHUNK
  {
    var s := slabs[0];
    assert SlabOk(s);
    FirstBelow(s);
    if |slabs| == 1 {
      assert slabs[1..] == [];
    } else {
      PackedTail(slabs);
      PinnedBound(slabs[1..]);
      assert Crowded(slabs[0], slabs[1]);
      assert slabs[1..][0] == slabs[1];
    }
  }

  /** A pair of neighbours holds almost a chunk, so there are few chunks for the bytes. */
  lemma {:induction false} SlabCount(slabs: seq<Slab>)
    requires Packed(slabs) && slabs != []
    ensures (|slabs| - 1) * (CHUNK - SLACK) + slabs[0].used[0] <= 2 * Held(slabs)
  {
    var s := slabs[0];
    assert SlabOk(s);
    FirstBelow(s);
    if |slabs| == 1 {
      assert slabs[1..] == [];
    } else {
      PackedTail(slabs);
      SlabCount(slabs[1..]);
      assert Crowded(slabs[0], slabs[1]) && slabs[1..][0] == slabs[1];
      assert (|slabs| - 1) * (CHUNK - SLACK) == (|slabs| - 2) * (CHUNK - SLACK) + (CHUNK - SLACK);
    }
  }

  /** The live bytes when all frames before frame `cut` of chunk `j` have been written. */
  function Live(slabs: seq<Slab>, j: nat, cut: nat): nat
    requires j < |slabs| && cut <= |slabs[j].used|
  {
    Sum(slabs[j].used[cut..]) + Held(slabs[j + 1..])
  }

  lemma {:induction false} PackedFrom(slabs: seq<Slab>, j: nat)
    requires Packed(slabs) && j <= |slabs|
    ensures Packed(slabs[j..])
  {
    if j == 0 {
      assert slabs[0..] == slabs;
    } else {
      PackedTail(slabs);
      PackedFrom(slabs[1..], j - 1);
      assert slabs[j..] == slabs[1..][j - 1..];
    }
  }

  /** A chunk of which some frames are live is of the usual size, or holds one frame. */
  lemma LoneOrChunk(s: Slab, cut: nat)
    requires SlabOk(s) && cut < |s.used|
    ensures s.cap <= CHUNK + Sum(s.used[cut..]) + SLACK
  {
    if s.cap > CHUNK {
      assert cut == 0 && s.used[0..] == s.used;
    }
  }

  /** The same for chunks of which the first is live from frame `cut` on. */
  lemma SuffixBound(tail: seq<Slab>, cut: nat)
    requires Packed(tail) && tail != [] && cut < |tail[0].used|
    ensures Pinned(tail) <= 2 * Live(tail, 0, cut) + 2 * CHUNK + SLACK * |tail|
    ensures (|tail| - 2) * (CHUNK - SLACK) <= 2 * Live(tail, 0, cut)
  {
    var rest := tail[1..];
    assert SlabOk(tail[0]);
    LoneOrChunk(tail[0], cut);
    if rest == [] {
      assert Pinned(tail) == tail[0].cap;
    } else {
      PackedTail(tail);
      PinnedBound(rest);
      SlabCount(rest);
    }
  }

  /** What the frames from frame `cut` of chunk `j` on keep allocated is at most twice their
      bytes, two chunks, and the slack of each chunk, of which there are at most two more
      than almost-chunks in twice the bytes. */
  predicate PinsTwice(slabs: seq<Slab>, j: nat, cut: nat)
    requires j < |slabs| && cut <= |slabs[j].used|
  {
    var live, n := Live(slabs, j, cut), |slabs| - j;
    Pinned(slabs[j..]) <= 2 * live + 2 * CHUNK + SLACK * n && (n - 2) * (CHUNK - SLACK) <= 2 * live
  }

  /** For any frames at all, laid down and released in order. */
  lemma RetentionBound(rs: seq<Request>, j: nat, cut: nat)
    requires forall i :: 0 <= i < |rs| ==> Modest(rs[i])
    requires j < |Layout(rs)| && cut < |Layout(rs)[j].used|
    ensures PinsTwice(Layout(rs), j, cut)
  {
    LayoutPacked(rs);
    var slabs := Layout(rs);
    PackedFrom(slabs, j);
    var tail := slabs[j..];
    assert tail[0] == slabs[j] && tail[1..] == slabs[j + 1..];
    SuffixBound(tail, cut);
  }

  /** The frames of all chunks, in the order they were laid down. */
  function Used(slabs: seq<Slab>): seq<nat> {
    if slabs == [] then [] else slabs[0].used + Used(slabs[1..])
  }

  /** The chunk the k-th frame lies in. */
  function Home(slabs: seq<Slab>, k: nat): nat {
    if slabs == [] || k < |slabs[0].used| then 0 else 1 + Home(slabs[1..], k - |slabs[0].used|)
  }

  /** And which of that chunk's frames it is. */
  function Spot(slabs: seq<Slab>, k: nat): nat {
    if slabs == [] || k < |slabs[0].used| then k else Spot(slabs[1..], k - |slabs[0].used|)
  }

  lemma {:induction false} SumJoin(a: seq<nat>, b: seq<nat>)
    ensures Sum(a + b) == Sum(a) + Sum(b)
  {
    if a == [] {
      assert a + b == b;
    } else {
      assert (a + b)[1..] == a[1..] + b;
      SumJoin(a[1..], b);
    }
  }

  lemma {:induction false} HeldIsUsed(slabs: seq<Slab>)
    ensures Held(slabs) == Sum(Used(slabs))
  {
    if slabs != [] {
      HeldIsUsed(slabs[1..]);
      SumJoin(slabs[0].used, Used(slabs[1..]));
    }
  }

  /** The bytes of the frames from the k-th on are the live bytes from its place on. */
  lemma {:induction false} SuffixIsLive(slabs: seq<Slab>, k: nat)
    requires k < |Used(slabs)|
    ensures var j, cut := Home(slabs, k), Spot(slabs, k);
            j < |slabs| && cut < |slabs[j].used| && Live(slabs, j, cut) == Sum(Used(slabs)[k..])
  {
    var first, rest := slabs[0].used, slabs[1..];
    if k < |first| {
      assert Used(slabs)[k..] == first[k..] + Used(rest);
      SumJoin(first[k..], Used(rest));
      HeldIsUsed(rest);
    } else {
      SuffixIsLive(rest, k - |first|);
      assert Used(slabs)[k..] == Used(rest)[k - |first|..];
      var j := Home(rest, k - |first|);
      assert slabs[j + 1] == rest[j] && slabs[j + 2..] == rest[j + 1..];
    }
  }

  lemma {:induction false} HomesRise(slabs: seq<Slab>, k: nat, i: nat)
    requires k <= i < |Used(slabs)|
    ensures Home(slabs, k) <= Home(slabs, i) < |slabs|
  {
    var n := |slabs[0].used|;
    if i >= n {
      HomesRise(slabs[1..], if k >= n then k - n else 0, i - n);
    }
  }

  /** A further chunk moves no frame. */
  lemma {:induction false} HomeOpened(slabs: seq<Slab>, s: Slab, k: nat)
    ensures Used(slabs + [s]) == Used(slabs) + s.used
    ensures k < |Used(slabs)| ==> Home(slabs + [s], k) == Home(slabs, k) < |slabs|
    ensures k == |Used(slabs)| && s.used != [] ==> Home(slabs + [s], k) == |slabs|
  {
    if slabs == [] {
      assert slabs + [s] == [s] && [s][1..] == [];
    } else {
      assert (slabs + [s])[1..] == slabs[1..] + [s];
      HomeOpened(slabs[1..], s, if k >= |slabs[0].used| then k - |slabs[0].used| else 0);
      assert slabs[0].used + (Used(slabs[1..]) + s.used) == Used(slabs) + s.used;
    }
  }

  /** Nor does a further frame. */
  lemma HomeFilled(slabs: seq<Slab>, len: nat, k: nat)
    requires slabs != []
    ensures Used(Filled(slabs, len)) == Used(slabs) + [len]
    ensures k < |Used(slabs)| ==> Home(Filled(slabs, len), k) == Home(slabs, k) < |slabs|
    ensures k == |Used(slabs)| ==> Home(Filled(slabs, len), k) == |slabs| - 1
  {
    var front, last := slabs[..|slabs| - 1], Last(slabs);
    var more := last.(used := last.used + [len]);
    assert slabs == front + [last] && Filled(slabs, len) == front + [more];
    HomeOpened(front, last, k);
    HomeOpened(front, more, k);
    if |Used(front)| <= k < |Used(slabs)| {
      HomeLast(front, last, k);
      HomeLast(front, more, k);
    } else if k == |Used(slabs)| {
      HomeLast(front, more, k);
    }
    assert Used(front) + (last.used + [len]) == Used(slabs) + [len];
  }

  lemma {:induction false} HomeLast(front: seq<Slab>, s: Slab, k: nat)
    requires |Used(front)| <= k < |Used(front)| + |s.used|
    ensures Home(front + [s], k) == |front|
  {
    if front == [] {
      assert front + [s] == [s];
    } else {
      assert (front + [s])[1..] == front[1..] + [s];
      HomeLast(front[1..], s, k - |front[0].used|);
    }
  }

  /** Whatever suffix of the frames is live. */
  predicate AllPin(slabs: seq<Slab>) {
    forall j, cut :: 0 <= j < |slabs| && 0 <= cut < |slabs[j].used| ==> PinsTwice(slabs, j, cut)
  }

  lemma AllRetained(rs: seq<Request>)
    requires forall i :: 0 <= i < |rs| ==> Modest(rs[i])
    ensures AllPin(Layout(rs))
  {
    var slabs := Layout(rs);
    forall j, cut | 0 <= j < |slabs| && 0 <= cut < |slabs[j].used|
      ensures PinsTwice(slabs, j, cut)
    {
      RetentionBound(rs, j, cut);
    }
  }

  /** Retired chunks are nearly full once the frame that did not fit is counted. */
  lemma RetiredIsFull(rs: seq<Request>, i: nat)
    requires forall i :: 0 <= i < |rs| ==> Modest(rs[i])
    requires i + 1 < |Layout(rs)|
    ensures var slabs := Layout(rs);
            slabs[i + 1].used != [] && Sum(slabs[i].used) + slabs[i + 1].used[0] > CHUNK - SLACK
  {
    LayoutPacked(rs);
    assert Crowded(Layout(rs)[i], Layout(rs)[i + 1]) && SlabOk(Layout(rs)[i]);
  }

  // ------------------------------------------------------------------- it is that bad ---

  function Halves(n: nat): seq<Request> {
    if n == 0 then [] else Halves(n - 1) + [Request(4138, 4100)]
  }

  function HalfSlabs(n: nat): seq<Slab> {
    if n == 0 then [] else HalfSlabs(n - 1) + [Slab(CHUNK, [4100])]
  }

  lemma {:induction false} HalvesLayout(n: nat)
    ensures Layout(Halves(n)) == HalfSlabs(n)
  {
    if n > 0 {
      HalvesLayout(n - 1);
      var rs := Halves(n);
      assert rs[..|rs| - 1] == Halves(n - 1);
      var slabs := HalfSlabs(n - 1);
      assert n > 1 ==> Last(slabs) == Slab(CHUNK, [4100]);
      assert Sum([4100]) == 4100;
      assert !HasRoom(slabs, 4138);
      assert [] + [4100] == [4100];
    }
  }

  lemma {:induction false} AppendPinned(slabs: seq<Slab>, s: Slab)
    ensures Pinned(slabs + [s]) == Pinned(slabs) + s.cap && Held(slabs + [s]) == Held(slabs) + Sum(s.used)
  {
    if slabs == [] {
      assert slabs + [s] == [s] && [s][1..] == [];
    } else {
      assert (slabs + [s])[1..] == slabs[1..] + [s];
      AppendPinned(slabs[1..], s);
    }
  }

  /** Frames a little over half a chunk take a chunk each: what they keep is not their bytes
      and one chunk more, but almost twice their bytes, however many there are. */
  lemma {:induction false} HalvesPin(n: nat)
    ensures Pinned(Layout(Halves(n))) == n * CHUNK && Held(Layout(Halves(n))) == n * 4100
    ensures n >= 3 ==> Pinned(Layout(Halves(n))) > Held(Layout(Halves(n))) + CHUNK
  {
    HalvesLayout(n);
    HalfSlabsPin(n);
  }

  lemma {:induction false} HalfSlabsPin(n: nat)
    ensures Pinned(HalfSlabs(n)) == n * CHUNK && Held(HalfSlabs(n)) == n * 4100
  {
    if n > 0 {
      HalfSlabsPin(n - 1);
      assert Sum([4100]) == 4100;
      AppendPinned(HalfSlabs(n - 1), Slab(CHUNK, [4100]));
    }
  }
}
