/** Byte strings: what every buffer, frame and subject of the server is made of. */
module ByteStrings {

  newtype byte = x: int | 0 <= x < 256

  type Bytes = seq<byte>

  datatype Option<+T> = None | Some(value: T)

  const TAB: byte := 9
  const LF: byte := 10
  const CR: byte := 13
  const SP: byte := 32
  const CRLF: Bytes := [CR, LF]

  /** A string as it goes over the wire. */
  function Ascii(s: string): (b: Bytes)
    requires forall i :: 0 <= i < |s| ==> s[i] < 128 as char
    ensures |b| == |s| && forall i :: 0 <= i < |s| ==> b[i] as int == s[i] as int
  {
    seq(|s|, i requires 0 <= i < |s| => (s[i] as int) as byte)
  }

  lemma Assoc<T>(a: seq<T>, b: seq<T>, c: seq<T>)
    ensures a + (b + c) == (a + b) + c
  {
  }

  /** The buffers of a list, end to end. */
  function Flatten(parts: seq<Bytes>): Bytes {
    if parts == [] then [] else parts[0] + Flatten(parts[1..])
  }

  lemma {:induction false} FlattenAppend(a: seq<Bytes>, b: seq<Bytes>)
    ensures Flatten(a + b) == Flatten(a) + Flatten(b)
  {
    if a == [] {
      assert a + b == b;
    } else {
      assert (a + b)[1..] == a[1..] + b;
      FlattenAppend(a[1..], b);
    }
  }

  lemma FlattenSnoc(a: seq<Bytes>, b: Bytes)
    ensures Flatten(a + [b]) == Flatten(a) + b
  {
    FlattenAppend(a, [b]);
  }

  /** Position of the first CRLF pair at or after `from`. */
  function FindCrlfFrom(s: Bytes, from: nat): (at: Option<nat>)
    requires from <= |s|
    ensures at.Some? ==> from <= at.value && at.value + 1 < |s| && s[at.value] == CR && s[at.value + 1] == LF
    ensures at.Some? ==> forall i :: from <= i < at.value ==> !(s[i] == CR && s[i + 1] == LF)
    ensures at.None? ==> forall i :: from <= i < |s| - 1 ==> !(s[i] == CR && s[i + 1] == LF)
    decreases |s| - from
  {
    if from + 1 >= |s| then None
    else if s[from] == CR && s[from + 1] == LF then Some(from)
    else FindCrlfFrom(s, from + 1)
  }

  function FindCrlf(s: Bytes): Option<nat> {
    FindCrlfFrom(s, 0)
  }

  /** The first CRLF pair is the same however many bytes follow it. */
  lemma FindCrlfIs(s: Bytes, at: nat)
    requires at + 1 < |s| && s[at] == CR && s[at + 1] == LF
    requires forall i :: 0 <= i < at ==> !(s[i] == CR && s[i + 1] == LF)
    ensures FindCrlf(s) == Some(at)
  {
    var r := FindCrlf(s);
    assert s[at] == CR && s[at + 1] == LF;
    assert r.Some? && r.value <= at;
    assert s[r.value] == CR && s[r.value + 1] == LF;
  }
}
