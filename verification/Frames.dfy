/** Building frames: a message laid down in the subscriber's tail, a status frame in a
    buffer of its own. */
module Frames {
  import opened ByteStrings
  import opened Decimal
  import opened Delivery
  import opened Arena
  import opened Retention

  method PutSpaced(tail: Tail, b: Bytes)
    requires tail.Valid() && 1 + |b| <= tail.Room()
    modifies tail`to, tail.mem
    ensures tail.Valid() && tail.mem[..tail.from] == old(tail.mem[..tail.from]) && tail.Room() == old(tail.Room()) - 1 - |b|
    ensures tail.Pending() == old(tail.Pending()) + ([SP] + b)
  {
    Assoc(tail.Pending(), [SP], b);
    tail.Put([SP]);
    tail.Put(b);
  }

  function Opening(verb: Bytes, subject: Bytes, sid: Bytes): Bytes {
    verb + ([SP] + subject) + ([SP] + sid)
  }

  method PutOpening(tail: Tail, verb: Bytes, subject: Bytes, sid: Bytes)
    requires tail.Valid() && tail.Pending() == [] && |Opening(verb, subject, sid)| <= tail.Room()
    modifies tail`to, tail.mem
    ensures tail.Valid() && tail.mem[..tail.from] == old(tail.mem[..tail.from])
    ensures tail.Room() == old(tail.Room()) - |Opening(verb, subject, sid)|
    ensures tail.Pending() == Opening(verb, subject, sid)
  {
    tail.Put(verb);
    PutSpaced(tail, subject);
    PutSpaced(tail, sid);
  }

  /** An argument that may be left out. */
  function Optional(given: bool, arg: Bytes): Bytes {
    if given then [SP] + arg else []
  }

  method PutOptional(tail: Tail, given: bool, arg: Bytes)
    requires tail.Valid() && |Optional(given, arg)| <= tail.Room()
    modifies tail`to, tail.mem
    ensures tail.Valid() && tail.mem[..tail.from] == old(tail.mem[..tail.from]) && tail.Room() == old(tail.Room()) - |Optional(given, arg)|
    ensures tail.Pending() == old(tail.Pending()) + Optional(given, arg)
  {
    if given {
      PutSpaced(tail, arg);
    }
  }

  /** The reply subject, if any, and the header size, if any. */
  function Options(reply: Bytes, headers: bool, size: Bytes): Bytes {
    Optional(reply != [], reply) + Optional(headers, size)
  }

  method PutOptions(tail: Tail, reply: Bytes, headers: bool, size: Bytes)
    requires tail.Valid() && |Options(reply, headers, size)| <= tail.Room()
    modifies tail`to, tail.mem
    ensures tail.Valid() && tail.mem[..tail.from] == old(tail.mem[..tail.from])
    ensures tail.Room() == old(tail.Room()) - |Options(reply, headers, size)|
    ensures tail.Pending() == old(tail.Pending()) + Options(reply, headers, size)
  {
    ghost var was := tail.Pending();
    ghost var a, b := Optional(reply != [], reply), Optional(headers, size);
    Assoc(was, a, b);
    PutOptional(tail, reply != [], reply);
    assert tail.Pending() == was + a;
    PutOptional(tail, headers, size);
    assert tail.Pending() == was + a + b;
  }

  /** A control line up to its size, in the order it is written. */
  function Line(headers: bool, subject: Bytes, sid: Bytes, reply: Bytes, hdr: nat): Bytes {
    Opening(if headers then HMSG else MSG, subject, sid) + Options(reply, headers, Digits(hdr))
  }

  method PutLine(tail: Tail, headers: bool, subject: Bytes, sid: Bytes, reply: Bytes, hdr: nat)
    requires tail.Valid() && tail.Pending() == [] && hdr < U64
    requires |Line(headers, subject, sid, reply, hdr)| <= tail.Room()
    modifies tail`to, tail.mem
    ensures tail.Valid() && tail.mem[..tail.from] == old(tail.mem[..tail.from])
    ensures tail.Pending() == Line(headers, subject, sid, reply, hdr)
    ensures tail.Room() == old(tail.Room()) - |Line(headers, subject, sid, reply, hdr)|
  {
    PutOpening(tail, if headers then HMSG else MSG, subject, sid);
    var size := PushU64([], hdr);
    PutOptions(tail, reply, headers, size);
  }

  /** A size and the end of the line, the payload and the end of the frame. */
  function Ending(body: Bytes): Bytes {
    ([SP] + Digits(|body|)) + CRLF + body + CRLF
  }

  /** Writes an argument or a payload and the end of its line. */
  method PutEnded(tail: Tail, b: Bytes)
    requires tail.Valid() && |b| + 2 <= tail.Room()
    modifies tail`to, tail.mem
    ensures tail.Valid() && tail.mem[..tail.from] == old(tail.mem[..tail.from])
    ensures tail.Pending() == old(tail.Pending()) + (b + CRLF) && tail.Room() == old(tail.Room()) - |b| - 2
  {
    Assoc(tail.Pending(), b, CRLF);
    tail.Put(b);
    tail.Put(CRLF);
  }

  method PutEnding(tail: Tail, body: Bytes)
    requires tail.Valid() && |body| < U64 && |Ending(body)| <= tail.Room()
    modifies tail`to, tail.mem
    ensures tail.Valid() && tail.mem[..tail.from] == old(tail.mem[..tail.from])
    ensures tail.Pending() == old(tail.Pending()) + Ending(body)
  {
    ghost var was := tail.Pending();
    var total := PushU64([], |body|);
    EndingAfter(was, total, body);
    tail.Put([SP]);
    PutEnded(tail, total);
    PutEnded(tail, body);
  }

  lemma EndingAfter(was: Bytes, size: Bytes, body: Bytes)
    ensures was + [SP] + (size + CRLF) + (body + CRLF) == was + (([SP] + size) + CRLF + body + CRLF)
  {
  }

  /** What is written is the frame the message becomes. */
  lemma WrittenIsFrame(f: Frame, reply: Bytes)
    requires f.Message? && reply == if f.reply.Some? then f.reply.value else []
    ensures Line(Tagged(f), f.subject, f.sid, reply, f.hdr) + Ending(Load(f)) == FrameOf(f)
  {
    var after := ReplyPart(f) + HeaderPart(f);
    assert Options(reply, Tagged(f), Digits(f.hdr)) == after;
    Spread(f.subject, f.sid, ReplyPart(f), HeaderPart(f));
    Joined(Verb(f), [SP] + f.subject, [SP] + f.sid, after, Digits(|Load(f)|), Load(f));
  }

  lemma Spread(subject: Bytes, sid: Bytes, reply: Bytes, headers: Bytes)
    ensures [SP] + subject + [SP] + sid + reply + headers == ([SP] + subject) + ([SP] + sid) + (reply + headers)
  {
  }

  lemma Joined(verb: Bytes, a: Bytes, b: Bytes, after: Bytes, size: Bytes, load: Bytes)
    ensures (verb + a + b + after) + (([SP] + size) + CRLF + load + CRLF)
         == verb + (a + b + after + [SP] + size) + CRLF + load + CRLF
  {
  }

  /** The message, written piece by piece into room asked for beforehand. No write outgrows
      that room, the view handed over holds the frame and nothing else, and the frames laid
      down before it keep what they said. */
  method BuildFrame(arena: Arena, f: Frame) returns (v: View)
    requires arena.Valid() && arena.Laid() && arena.Idle() && f.Message? && |f.body| < 1_000_000_000
    modifies arena, arena.chunk, arena.chunk.mem
    ensures arena.Valid() && arena.Laid() && arena.Idle()
    ensures arena.views == old(arena.views) + [v] && arena.texts == old(arena.texts) + [FrameOf(f)]
    ensures arena.slabs == Place(old(arena.slabs), Need(f), |FrameOf(f)|)
    ensures Arena.Intact(v, FrameOf(f)) && SameOrNew(arena)
  {
    var headers := f.hdr > 0 && f.headers;
    var body := if f.hdr > 0 && !headers then f.body[f.hdr..] else f.body;
    var reply := if f.reply.Some? then f.reply.value else [];
    var need := 48 + |f.subject| + |f.sid| + |reply| + |body| + 2 * |CRLF|;
    Prepared(f, headers, body, reply, need);
    v := Lay(arena, need, headers, f.subject, f.sid, reply, f.hdr, body);
    arena.StillLaid(v, need);
  }

  /** What the builder works out beforehand. */
  lemma Prepared(f: Frame, headers: bool, body: Bytes, reply: Bytes, need: nat)
    requires f.Message? && |f.body| < 1_000_000_000
    requires headers == (f.hdr > 0 && f.headers)
    requires body == if f.hdr > 0 && !headers then f.body[f.hdr..] else f.body
    requires reply == if f.reply.Some? then f.reply.value else []
    requires need == 48 + |f.subject| + |f.sid| + |reply| + |body| + 2 * |CRLF|
    ensures Line(headers, f.subject, f.sid, reply, f.hdr) + Ending(body) == FrameOf(f)
    ensures |FrameOf(f)| <= need == Need(f) && |body| <= |f.body| && f.hdr <= |f.body|
  {
    FrameFits(f);
    WrittenIsFrame(f, reply);
  }

  /** The chunk at hand is the one there was, or a new one. */
  twostate predicate SameOrNew(arena: Arena)
    reads arena, arena.chunk
  {
    || (arena.chunk == old(arena.chunk) && arena.chunk.mem == old(arena.chunk.mem))
    || (fresh(arena.chunk) && fresh(arena.chunk.mem))
  }

  /** The view is in the chunk at hand, which is recorded if it is new. */
  twostate predicate Grew(arena: Arena, new v: View, need: nat)
    reads arena, arena.chunk
  {
    var same := Opened(old(arena.slabs), need) == old(arena.slabs);
    && v.mem == arena.chunk.mem && arena.mems == old(arena.mems) + (if same then [] else [arena.chunk.mem])
    && if same then arena.chunk.mem == old(arena.chunk.mem) else arena.chunk.mem.Length == Max(need, CHUNK)
  }

  method Lay(arena: Arena, need: nat, headers: bool, subject: Bytes, sid: Bytes, reply: Bytes, hdr: nat, body: Bytes)
    returns (v: View)
    requires arena.Valid() && arena.Idle() && hdr < U64 && |body| < U64
    requires |Line(headers, subject, sid, reply, hdr) + Ending(body)| <= need
    modifies arena, arena.chunk, arena.chunk.mem
    ensures arena.Valid() && arena.Idle() && Grew(arena, v, need)
    ensures var text := Line(headers, subject, sid, reply, hdr) + Ending(body);
            && arena.views == old(arena.views) + [v] && arena.texts == old(arena.texts) + [text]
            && arena.slabs == Place(old(arena.slabs), need, |text|)
            && Arena.Intact(v, text) && Size(v) == |text|
    ensures SameOrNew(arena)
  {
    var tail := arena.Reserve(need);
    label Reserved:
    PutLine(tail, headers, subject, sid, reply, hdr);
    PutEnding(tail, body);
    arena.Undisturbed@Reserved();
    v := arena.Seal();
  }

  /** The status frame, in a buffer that grows: its two sizes are printed before its block
      is, and are the size of that block. */
  method BuildStatus(inbox: Bytes, sid: Bytes, published: Bytes) returns (buf: Bytes)
    ensures buf == FrameOf(Status(inbox, sid, published))
  {
    var size := 32 + |published|;
    buf := HMSG + [SP];
    buf := buf + inbox;
    buf := buf + [SP];
    buf := buf + sid;
    buf := buf + ([SP] + Digits(size) + [SP] + Digits(size) + CRLF);
    buf := buf + STATUS;
    buf := buf + published;
    buf := buf + (CRLF + CRLF);
    buf := buf + CRLF;
    StatusWritten(inbox, sid, published, Digits(size));
    StatusSize(Status(inbox, sid, published));
  }

  lemma StatusWritten(inbox: Bytes, sid: Bytes, published: Bytes, d: Bytes)
    ensures HMSG + [SP] + inbox + [SP] + sid + ([SP] + d + [SP] + d + CRLF) + STATUS + published + (CRLF + CRLF) + CRLF
         == HMSG + ([SP] + inbox + [SP] + sid + [] + ([SP] + d) + [SP] + d) + CRLF
            + (STATUS + published + CRLF + CRLF) + CRLF
  {
    var line := HMSG + ([SP] + inbox + [SP] + sid + [] + ([SP] + d) + [SP] + d) + CRLF;
    assert HMSG + [SP] + inbox + [SP] + sid + ([SP] + d + [SP] + d + CRLF) == line;
    var block := STATUS + published + CRLF + CRLF;
    assert line + STATUS + published + (CRLF + CRLF) == line + block;
  }

  // ---------------------------------------------------------------- whole runs ---

  type Delivered = f: Frame | f.Message? witness Message([], [], None, 0, [], false)

  function Asks(f: Delivered): Request {
    Request(Need(f), |FrameOf(f)|)
  }

  /** What a list of messages asks for and takes. */
  function Requests(fs: seq<Delivered>): seq<Request> {
    if fs == [] then [] else Requests(fs[..|fs| - 1]) + [Asks(fs[|fs| - 1])]
  }

  predicate Sized(f: Delivered) { |f.body| < 1_000_000_000 }

  lemma AsksModest(f: Delivered)
    requires Sized(f)
    ensures Modest(Asks(f))
  {
    FrameFits(f);
  }

  lemma {:induction false} RequestsModest(fs: seq<Delivered>)
    requires forall i :: 0 <= i < |fs| ==> Sized(fs[i])
    ensures forall i :: 0 <= i < |Requests(fs)| ==> Modest(Requests(fs)[i])
  {
    if fs != [] {
      RequestsModest(fs[..|fs| - 1]);
      AsksModest(fs[|fs| - 1]);
    }
  }

  /** One more message built is one more placed. */
  lemma OneMore(fs: seq<Delivered>, f: Delivered)
    ensures Layout(Requests(fs + [f])) == Place(Layout(Requests(fs)), Asks(f).need, Asks(f).len)
  {
    assert (fs + [f])[..|fs|] == fs;
    LayoutSnoc(Requests(fs), Asks(f));
  }

  lemma LayoutSnoc(rs: seq<Request>, r: Request)
    ensures Layout(rs + [r]) == Place(Layout(rs), r.need, r.len)
  {
    assert (rs + [r])[..|rs|] == rs;
  }

  /** For every run of messages built and released in order: the memory the live ones pin. */
  lemma DeliveriesPin(fs: seq<Delivered>, j: nat, cut: nat)
    requires forall i :: 0 <= i < |fs| ==> Sized(fs[i])
    requires j < |Layout(Requests(fs))| && cut < |Layout(Requests(fs))[j].used|
    ensures PinsTwice(Layout(Requests(fs)), j, cut)
  {
    RequestsModest(fs);
    RetentionBound(Requests(fs), j, cut);
  }

  lemma {:induction false} TextsSnoc(fs: seq<Frame>, f: Frame)
    ensures Texts(fs + [f]) == Texts(fs) + [FrameOf(f)]
  {
    if fs != [] {
      assert (fs + [f])[1..] == fs[1..] + [f];
      TextsSnoc(fs[1..], f);
    }
  }

  /** The arena holds the frames of `fs` as they were built, in the chunks of the layout. */
  ghost predicate Holds(arena: Arena, fs: seq<Delivered>)
    reads arena
  {
    arena.texts == Texts(fs) && arena.slabs == Layout(Requests(fs))
  }

  method BuildNext(arena: Arena, f: Delivered, ghost done: seq<Delivered>) returns (v: View)
    requires arena.Valid() && arena.Laid() && arena.Idle() && Holds(arena, done) && Sized(f)
    modifies arena, arena.chunk, arena.chunk.mem
    ensures arena.Valid() && arena.Laid() && arena.Idle() && Holds(arena, done + [f]) && SameOrNew(arena)
    ensures arena.views == old(arena.views) + [v]
  {
    OneMore(done, f);
    TextsSnoc(done, f);
    v := BuildFrame(arena, f);
  }

  lemma Onward<T>(done: seq<T>, fs: seq<T>)
    ensures fs == [] ==> done + fs == done
    ensures fs != [] ==> (done + [fs[0]]) + fs[1..] == done + fs
  {
  }

  /** A connection's deliveries, one after another: after those of `done`, those of `fs`. */
  method BuildAll(arena: Arena, fs: seq<Delivered>, ghost done: seq<Delivered>)
    requires arena.Valid() && arena.Laid() && arena.Idle() && Holds(arena, done)
    requires forall i :: 0 <= i < |fs| ==> Sized(fs[i])
    modifies arena, arena.chunk, arena.chunk.mem
    ensures arena.Valid() && arena.Laid() && arena.Idle() && Holds(arena, done + fs)
    decreases |fs|
  {
    Onward(done, fs);
    if fs != [] {
      var v := BuildNext(arena, fs[0], done);
      BuildAll(arena, fs[1..], done + [fs[0]]);
    }
  }

  lemma {:induction false} CapsArePinned(slabs: seq<Slab>, j: nat)
    requires j <= |slabs|
    ensures Sum(Caps(slabs)[j..]) == Pinned(slabs[j..])
  {
    if j < |slabs| {
      var front, last := slabs[..|slabs| - 1], Last(slabs);
      CapsArePinned(front, j);
      assert slabs[j..] == front[j..] + [last];
      AppendPinned(front[j..], last);
      assert Caps(slabs)[j..] == Caps(front)[j..] + [last.cap];
      SumSnoc(Caps(front)[j..], last.cap);
    }
  }

  /** What is still to be written are the frames from the k-th on: all their views lie in the
      chunks `mems[j..]`, and these are, together, at most twice the bytes of those views, two
      chunks, and 41 bytes for each chunk; and there are few of them. */
  predicate PinnedFrom(views: seq<View>, mems: seq<array<byte>>, k: nat, j: nat)
    requires k <= |views| && j <= |mems|
  {
    var live, n := Sum(Sizes(views)[k..]), |mems| - j;
    && (forall i :: k <= i < |views| ==> LiesIn(views[i], mems[j..]))
    && Sum(Lengths(mems)[j..]) <= 2 * live + 2 * CHUNK + SLACK * n && (n - 2) * (CHUNK - SLACK) <= 2 * live
  }

  predicate LiesIn(v: View, mems: seq<array<byte>>) { v.mem in mems }

  lemma ArenaPins(arena: Arena, fs: seq<Delivered>, k: nat)
    requires arena.Laid() && Holds(arena, fs) && (forall i :: 0 <= i < |fs| ==> Sized(fs[i])) && k < |arena.views|
    ensures var j := Home(arena.slabs, k); j <= |arena.mems| && PinnedFrom(arena.views, arena.mems, k, j)
  {
    RequestsModest(fs);
    AllRetained(Requests(fs));
    PinsLaid(arena.views, arena.mems, arena.slabs, k);
  }

  lemma PinsLaid(views: seq<View>, mems: seq<array<byte>>, slabs: seq<Slab>, k: nat)
    requires LaidOut(views, mems, slabs) && AllPin(slabs) && k < |views|
    ensures var j := Home(slabs, k); j <= |mems| && PinnedFrom(views, mems, k, j)
  {
    var j, cut := Home(slabs, k), Spot(slabs, k);
    SuffixIsLive(slabs, k);
    assert PinsTwice(slabs, j, cut);
    CapsArePinned(slabs, j);
    AllLieIn(views, mems, slabs, k);
  }

  lemma AllLieIn(views: seq<View>, mems: seq<array<byte>>, slabs: seq<Slab>, k: nat)
    requires AllHome(views, mems, slabs) && k < |views| == |Used(slabs)| && |mems| == |slabs|
    ensures var j := Home(slabs, k); j <= |mems| && forall i :: k <= i < |views| ==> LiesIn(views[i], mems[j..])
  {
    var j := Home(slabs, k);
    HomesRise(slabs, k, k);
    forall i | k <= i < |views|
      ensures LiesIn(views[i], mems[j..])
    {
      HomesRise(slabs, k, i);
      HomeAt(views, mems, slabs, i);
      assert mems[j..][Home(slabs, i) - j] == views[i].mem;
    }
  }

  /** A message a little over half a chunk. */
  predicate Half(f: Delivered) {
    |f.subject| + |f.sid| == 2 && f.reply == None && f.hdr == 0 && |f.body| == 4084
  }

  lemma HalfAsks(f: Delivered)
    requires Half(f)
    ensures Asks(f) == Request(4138, 4100)
  {
    assert |Digits(4084)| == 4 by {
      assert |Digits(40)| == 2 && |Digits(408)| == 3;
    }
    assert Load(f) == f.body;
    assert |Head(f)| == 3 + 1 + |f.subject| + 1 + |f.sid| + 1 + 4;
  }

  lemma {:induction false} HalvesAre(fs: seq<Delivered>)
    requires forall i :: 0 <= i < |fs| ==> Half(fs[i])
    ensures Requests(fs) == Halves(|fs|)
  {
    if fs != [] {
      HalvesAre(fs[..|fs| - 1]);
      HalfAsks(fs[|fs| - 1]);
    }
  }

  /** Such messages take a chunk each: what they pin is almost twice their bytes, however
      many there are, and not their bytes and one chunk. */
  lemma HalvesTakeAChunkEach(fs: seq<Delivered>)
    requires forall i :: 0 <= i < |fs| ==> Half(fs[i])
    ensures var slabs := Layout(Requests(fs));
            && Pinned(slabs) == |fs| * CHUNK && Held(slabs) == |fs| * 4100
            && (|fs| >= 3 ==> Pinned(slabs) > Held(slabs) + CHUNK)
  {
    HalvesAre(fs);
    HalvesPin(|fs|);
  }
}
