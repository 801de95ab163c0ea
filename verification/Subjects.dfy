/** Subjects and filters: their grammar and which subjects a filter matches. */
module Subjects {
  import opened ByteStrings

  const SEP: byte := 46
  const PWC: byte := 42
  const FWC: byte := 62
  const ILLEGAL: set<byte> := {9, 10, 12, 13, 32}

  /** The tokens of a subject: what lies between separators. Never none. */
  function Split(s: Bytes): (ts: seq<Bytes>)
    ensures |ts| >= 1
  {
    if s == [] then [[]]
    else if s[0] == SEP then [[]] + Split(s[1..])
    else var ts := Split(s[1..]); [[s[0]] + ts[0]] + ts[1..]
  }

  function Join(ts: seq<Bytes>): Bytes
    requires |ts| >= 1
  {
    if |ts| == 1 then ts[0] else ts[0] + [SEP] + Join(ts[1..])
  }

  lemma {:induction false} JoinCons(b: byte, ts: seq<Bytes>)
    requires |ts| >= 1
    ensures Join([[b] + ts[0]] + ts[1..]) == [b] + Join(ts)
  {
    var us := [[b] + ts[0]] + ts[1..];
    assert us[0] == [b] + ts[0] && us[1..] == ts[1..] && |us| == |ts|;
    if |ts| > 1 {
      var tail := [SEP] + Join(ts[1..]);
      assert Join(us) == us[0] + [SEP] + Join(ts[1..]) == us[0] + tail;
      assert Join(ts) == ts[0] + [SEP] + Join(ts[1..]) == ts[0] + tail;
      assert ([b] + ts[0]) + tail == [b] + (ts[0] + tail);
    }
  }

  lemma JoinEmpty(ts: seq<Bytes>)
    requires |ts| >= 1
    ensures Join([[]] + ts) == [SEP] + Join(ts)
  {
    assert ([[]] + ts)[1..] == ts;
    assert [] + [SEP] == [SEP];
  }

  lemma {:induction false} JoinSplit(s: Bytes)
    ensures Join(Split(s)) == s
  {
    if s != [] {
      JoinSplit(s[1..]);
      JoinEmpty(Split(s[1..]));
      JoinCons(s[0], Split(s[1..]));
      assert s == [s[0]] + s[1..];
    }
  }

  predicate LegalToken(t: Bytes) {
    t != [] && (|t| > 1 ==> forall i :: 0 <= i < |t| ==> t[i] !in ILLEGAL)
  }

  /** Legal: no empty token, no blank inside a longer one, `>` only at the end. */
  predicate IsValid(s: Bytes) {
    ValidTokens(Split(s))
  }

  predicate ValidTokens(ts: seq<Bytes>) {
    && (forall i :: 0 <= i < |ts| ==> LegalToken(ts[i]))
    && (forall i :: 0 <= i < |ts| - 1 ==> ts[i] != [FWC])
  }

  predicate HasWildcard(s: Bytes) { AnyWild(Split(s)) }

  predicate AnyWild(ts: seq<Bytes>) {
    exists i :: 0 <= i < |ts| && (ts[i] == [PWC] || ts[i] == [FWC])
  }

  predicate IsValidPublish(s: Bytes) {
    IsValid(s) && !HasWildcard(s)
  }

  /** Token by token, the way the server walks filter and subject. */
  predicate TokensMatch(f: seq<Bytes>, s: seq<Bytes>) {
    if f == [] then s == []
    else s != [] && (f[0] == [FWC] || ((f[0] == s[0] || f[0] == [PWC]) && TokensMatch(f[1..], s[1..])))
  }

  predicate Matches(filter: Bytes, subject: Bytes) {
    TokensMatch(Split(filter), Split(subject))
  }

  /** What matching means: `*` is any one token, a final `>` is one token or more. */
  predicate Means(f: seq<Bytes>, s: seq<Bytes>)
    requires |f| >= 1
  {
    var n := |f| - 1;
    if f[n] == [FWC] then |s| > n && forall i :: 0 <= i < n ==> f[i] == [PWC] || f[i] == s[i]
    else |s| == |f| && forall i :: 0 <= i < |f| ==> f[i] == [PWC] || f[i] == s[i]
  }

  /** The obvious matcher the tests compare against, by index. */
  predicate Naive(f: seq<Bytes>, s: seq<Bytes>, i: nat)
    requires i <= |f|
    decreases |f| - i
  {
    if i == |f| then |f| == |s|
    else if f[i] == [FWC] then i < |s| && |f| - 1 == i
    else i < |s| && (f[i] == [PWC] || f[i] == s[i]) && Naive(f, s, i + 1)
  }

  lemma {:induction false} TokensMean(f: seq<Bytes>, s: seq<Bytes>)
    requires |f| >= 1 && forall i :: 0 <= i < |f| - 1 ==> f[i] != [FWC]
    ensures TokensMatch(f, s) <==> Means(f, s)
  {
    if |f| > 1 && s != [] {
      TokensMean(f[1..], s[1..]);
      var n := |f| - 1;
      assert f[1..][n - 1] == f[n];
      if Means(f, s) {
        assert f[0] == [PWC] || f[0] == s[0];
        forall i | 0 <= i < |f[1..]| && (f[n] == [FWC] ==> i < n - 1)
          ensures f[1..][i] == [PWC] || f[1..][i] == s[1..][i]
        {
          assert f[1..][i] == f[i + 1] && s[1..][i] == s[i + 1];
        }
      }
      if TokensMatch(f, s) {
        forall i | 0 <= i < |f| && (f[n] == [FWC] ==> i < n)
          ensures f[i] == [PWC] || f[i] == s[i]
        {
          assert i > 0 ==> f[i] == f[1..][i - 1] && s[i] == s[1..][i - 1];
        }
      }
    } else if |f| == 1 {
      assert f[1..] == [];
      if s != [] {
        assert TokensMatch([], s[1..]) <==> s[1..] == [];
      }
    }
  }

  lemma {:induction false} NaiveMatches(f: seq<Bytes>, s: seq<Bytes>, i: nat)
    requires i <= |f| && i <= |s| && forall k :: 0 <= k < |f| - 1 ==> f[k] != [FWC]
    ensures Naive(f, s, i) <==> TokensMatch(f[i..], s[i..])
    decreases |f| - i
  {
    if i < |f| && i < |s| {
      assert f[i..][0] == f[i] && s[i..][0] == s[i];
      assert f[i..][1..] == f[i + 1..] && s[i..][1..] == s[i + 1..];
      NaiveMatches(f, s, i + 1);
    }
  }

  /** On every valid filter and every subject, the walk, the obvious matcher and the
      meaning agree. */
  lemma MatcherRefines(filter: Bytes, subject: Bytes)
    requires IsValid(filter)
    ensures Matches(filter, subject) <==> Means(Split(filter), Split(subject))
    ensures Matches(filter, subject) <==> Naive(Split(filter), Split(subject), 0)
  {
    var f, s := Split(filter), Split(subject);
    TokensMean(f, s);
    NaiveMatches(f, s, 0);
    assert f[0..] == f && s[0..] == s;
  }

  /** A valid literal filter matches one subject: itself. */
  lemma LiteralMatches(filter: Bytes, subject: Bytes)
    requires IsValid(filter) && !HasWildcard(filter)
    ensures Matches(filter, subject) <==> filter == subject
  {
    var f, s := Split(filter), Split(subject);
    MatcherRefines(filter, subject);
    assert forall i :: 0 <= i < |f| ==> f[i] != [PWC] && f[i] != [FWC];
    JoinSplit(filter);
    JoinSplit(subject);
    assert Means(f, s) ==> f == s;
  }

  /** The walk and the obvious matcher agree on every subject exactly when no `>` stands
      before the last token, which is what validity asks of a filter. */
  lemma RefinesIff(f: seq<Bytes>)
    requires |f| >= 1
    ensures (forall s :: TokensMatch(f, s) <==> Naive(f, s, 0)) <==> (forall i :: 0 <= i < |f| - 1 ==> f[i] != [FWC])
  {
    if forall i :: 0 <= i < |f| - 1 ==> f[i] != [FWC] {
      forall s
        ensures TokensMatch(f, s) <==> Naive(f, s, 0)
      {
        NaiveMatches(f, s, 0);
        assert f[0..] == f && s[0..] == s;
      }
    } else {
      var k := FirstFwc(f);
      var s := f[..k] + [[]];
      WalkSwallows(f, s, k);
      NaiveRefuses(f, s, 0, k);
    }
  }

  lemma FirstFwc(f: seq<Bytes>) returns (k: nat)
    requires exists i :: 0 <= i < |f| - 1 && f[i] == [FWC]
    ensures k < |f| - 1 && f[k] == [FWC] && forall i :: 0 <= i < k ==> f[i] != [FWC]
  {
    k := 0;
    while f[k] != [FWC]
      invariant k < |f| - 1 && forall i :: 0 <= i < k ==> f[i] != [FWC]
      decreases |f| - k
    {
      k := k + 1;
    }
  }

  lemma {:induction false} WalkSwallows(f: seq<Bytes>, s: seq<Bytes>, k: nat)
    requires k < |f| && k < |s| && f[k] == [FWC] && forall i :: 0 <= i < k ==> s[i] == f[i]
    ensures TokensMatch(f, s)
  {
    if k > 0 {
      WalkSwallows(f[1..], s[1..], k - 1);
    }
  }

  lemma {:induction false} NaiveRefuses(f: seq<Bytes>, s: seq<Bytes>, i: nat, k: nat)
    requires i <= k < |f| - 1 && f[k] == [FWC] && forall j :: 0 <= j < k ==> f[j] != [FWC]
    ensures !Naive(f, s, i)
    decreases k - i
  {
    if i < k {
      NaiveRefuses(f, s, i + 1, k);
    }
  }

  // -------------------------------------------------------------- the grammar in bytes ---

  /** Byte `i` is a token by itself. */
  predicate Alone(s: Bytes, i: nat)
    requires i < |s|
  {
    (i == 0 || s[i - 1] == 46) && (i == |s| - 1 || s[i + 1] == 46)
  }

  predicate White(b: byte) { b == 9 || b == 10 || b == 12 || b == 13 || b == 32 }

  /** What a byte of a legal subject may be, where it is: a dot has something on both sides, white
      space is a token by itself, and a `>` that is a token is the last. */
  predicate ByteOk(s: Bytes, i: nat)
    requires i < |s|
  {
    && (s[i] == 46 ==> 0 < i < |s| - 1 && s[i + 1] != 46)
    && (White(s[i]) ==> Alone(s, i))
    && (s[i] == 62 && Alone(s, i) ==> i == |s| - 1)
  }

  predicate ValidBytes(s: Bytes) {
    s != [] && forall i :: 0 <= i < |s| ==> ByteOk(s, i)
  }

  predicate WildAt(s: Bytes, i: nat)
    requires i < |s|
  {
    (s[i] == 42 || s[i] == 62) && Alone(s, i)
  }

  predicate WildBytes(s: Bytes) {
    exists i :: 0 <= i < |s| && WildAt(s, i)
  }

  /** The position of the first separator, or the length. */
  function Dot(s: Bytes): (i: nat)
    ensures i <= |s| && (i < |s| ==> s[i] == SEP) && forall k :: 0 <= k < i ==> s[k] != SEP
  {
    if s == [] || s[0] == SEP then 0 else 1 + Dot(s[1..])
  }

  /** After a separator, a byte is what it is without what comes before. */
  lemma AfterDot(s: Bytes, i: nat, k: nat)
    requires i < k < |s| && s[i] == 46
    ensures Alone(s[i + 1..], k - i - 1) <==> Alone(s, k)
    ensures WildAt(s[i + 1..], k - i - 1) <==> WildAt(s, k)
    ensures ByteOk(s[i + 1..], k - i - 1) <==> ByteOk(s, k) && (k == i + 1 ==> s[k] != 46)
  {
  }

  /** Before the first separator, a byte is alone exactly if it is the only one. */
  lemma BeforeDot(s: Bytes, i: nat, k: nat)
    requires k < i <= |s| && (i < |s| ==> s[i] == 46) && forall j :: 0 <= j < i ==> s[j] != 46
    ensures Alone(s, k) <==> i == 1
  {
  }

  predicate AllOk(s: Bytes, from: nat, to: nat)
    requires to <= |s|
  {
    forall i :: from <= i < to ==> ByteOk(s, i)
  }

  /** What a byte of the first of several tokens, or of the only one, may be. */
  lemma HeadByte(s: Bytes, i: nat, k: nat)
    requires i == Dot(s) && k < i
    ensures ByteOk(s, k) <==> (s[k] in ILLEGAL ==> i == 1) && (s[k] == FWC && i == 1 ==> i == |s|)
  {
    BeforeDot(s, i, k);
  }

  lemma HeadOk(s: Bytes, i: nat)
    requires i == Dot(s) && i > 0
    ensures AllOk(s, 0, i) <==> LegalToken(s[..i]) && (i < |s| ==> s[..i] != [FWC])
  {
    var t := s[..i];
    assert forall k :: 0 <= k < i ==> t[k] == s[k];
    if AllOk(s, 0, i) {
      forall k | 0 <= k < i
        ensures t[k] in ILLEGAL ==> i == 1
      {
        HeadByte(s, i, k);
      }
      HeadByte(s, i, 0);
    }
    if LegalToken(t) && (i < |s| ==> t != [FWC]) {
      forall k | 0 <= k < i
        ensures ByteOk(s, k)
      {
        assert i == 1 ==> t == [s[0]];
        HeadByte(s, i, k);
      }
    }
  }

  lemma TailOk(s: Bytes, i: nat)
    requires i < |s| && s[i] == 46
    ensures AllOk(s, i + 1, |s|) && i + 1 < |s| && s[i + 1] != 46 <==> ValidBytes(s[i + 1..])
  {
    var r := s[i + 1..];
    if AllOk(s, i + 1, |s|) && i + 1 < |s| && s[i + 1] != 46 {
      forall k | 0 <= k < |r|
        ensures ByteOk(r, k)
      {
        AfterDot(s, i, k + i + 1);
      }
    }
    if ValidBytes(r) {
      forall k | i + 1 <= k < |s|
        ensures ByteOk(s, k)
      {
        AfterDot(s, i, k);
      }
      assert ByteOk(r, 0);
    }
  }

  lemma FirstToken(s: Bytes, i: nat)
    requires i == Dot(s) && i < |s|
    ensures ValidBytes(s) <==> LegalToken(s[..i]) && s[..i] != [FWC] && ValidBytes(s[i + 1..])
  {
    TailOk(s, i);
    DotOk(s, i);
    if i > 0 {
      HeadOk(s, i);
    }
  }

  lemma DotOk(s: Bytes, i: nat)
    requires i == Dot(s) && i < |s|
    ensures ValidBytes(s) <==> i > 0 && AllOk(s, 0, i) && AllOk(s, i + 1, |s|) && i + 1 < |s| && s[i + 1] != 46
  {
    if ValidBytes(s) {
      assert ByteOk(s, i);
    }
  }

  lemma OnlyToken(s: Bytes)
    requires Dot(s) == |s|
    ensures ValidBytes(s) <==> LegalToken(s)
  {
    assert s[..|s|] == s;
    if s != [] {
      HeadOk(s, |s|);
    }
  }

  lemma ConsValid(t: Bytes, us: seq<Bytes>)
    requires us != []
    ensures ValidTokens([t] + us) <==> LegalToken(t) && t != [FWC] && ValidTokens(us)
  {
    var ts := [t] + us;
    if ValidTokens(ts) {
      assert ts[0] == t;
      assert forall k :: 0 <= k < |us| ==> us[k] == ts[k + 1];
    }
    if LegalToken(t) && t != [FWC] && ValidTokens(us) {
      assert forall k :: 0 < k < |ts| ==> ts[k] == us[k - 1];
    }
  }

  lemma LoneValid(t: Bytes)
    ensures ValidTokens([t]) <==> LegalToken(t)
  {
    assert [t][0] == t;
  }

  lemma ConsWild(t: Bytes, us: seq<Bytes>)
    ensures AnyWild([t] + us) <==> t == [PWC] || t == [FWC] || AnyWild(us)
  {
    var ts := [t] + us;
    assert ts[0] == t;
    if AnyWild(us) {
      var k :| 0 <= k < |us| && (us[k] == [PWC] || us[k] == [FWC]);
      assert ts[k + 1] == us[k];
    }
  }

  lemma ValidFirst(s: Bytes, i: nat)
    requires i == Dot(s) && i < |s|
    ensures IsValid(s) <==> LegalToken(s[..i]) && s[..i] != [FWC] && IsValid(s[i + 1..])
  {
    SplitFirst(s, i);
    ConsValid(s[..i], Split(s[i + 1..]));
  }

  lemma WildcardFirst(s: Bytes, i: nat)
    requires i == Dot(s) && i < |s|
    ensures HasWildcard(s) <==> s[..i] == [PWC] || s[..i] == [FWC] || HasWildcard(s[i + 1..])
  {
    SplitFirst(s, i);
    ConsWild(s[..i], Split(s[i + 1..]));
  }

  lemma OneToken(s: Bytes)
    requires Dot(s) == |s|
    ensures IsValid(s) <==> LegalToken(s)
    ensures HasWildcard(s) <==> s == [PWC] || s == [FWC]
  {
    SplitFirst(s, |s|);
    assert s[..|s|] == s && [s] + [] == [s];
    LoneValid(s);
    ConsWild(s, []);
  }

  /** The grammar, byte by byte. */
  lemma {:induction false} ValidIff(s: Bytes)
    ensures IsValid(s) <==> ValidBytes(s)
    decreases |s|
  {
    var i := Dot(s);
    if i < |s| {
      ValidFirst(s, i);
      FirstToken(s, i);
      ValidIff(s[i + 1..]);
    } else {
      OneToken(s);
      OnlyToken(s);
    }
  }

  /** A subject has a wildcard if and only if a `*` or a `>` is a token by itself. */
  lemma {:induction false} WildcardIff(s: Bytes)
    ensures HasWildcard(s) <==> WildBytes(s)
    decreases |s|
  {
    var i := Dot(s);
    WildFirst(s, i);
    if i < |s| {
      WildcardFirst(s, i);
      WildcardIff(s[i + 1..]);
    } else {
      OneToken(s);
      assert s[..i] == s;
    }
  }

  lemma WildFirst(s: Bytes, i: nat)
    requires i == Dot(s)
    ensures WildBytes(s) <==> s[..i] == [PWC] || s[..i] == [FWC] || (i < |s| && WildBytes(s[i + 1..]))
  {
    if k :| 0 <= k < |s| && WildAt(s, k) {
      WildIsThere(s, i, k);
    }
    if s[..i] == [PWC] || s[..i] == [FWC] {
      assert s[..i][0] == s[0];
      BeforeDot(s, i, 0);
      assert WildAt(s, 0);
    } else if i < |s| && WildBytes(s[i + 1..]) {
      var k :| 0 <= k < |s[i + 1..]| && WildAt(s[i + 1..], k);
      AfterDot(s, i, k + i + 1);
    }
  }

  lemma WildIsThere(s: Bytes, i: nat, k: nat)
    requires i == Dot(s) && k < |s| && WildAt(s, k)
    ensures s[..i] == [PWC] || s[..i] == [FWC] || (i < |s| && WildBytes(s[i + 1..]))
  {
    if k < i {
      BeforeDot(s, i, k);
      assert s[..i] == [s[0]];
    } else {
      AfterDot(s, i, k);
      assert WildAt(s[i + 1..], k - i - 1);
    }
  }

  // ------------------------------------------------------------------- the loops ---

  /** An iterator over the tokens of a subject. */
  class Tokens {
    var rest: Option<Bytes>

    constructor (s: Bytes)
      ensures rest == Some(s)
    {
      rest := Some(s);
    }

    /** The tokens still to come. */
    ghost function Left(): seq<Bytes>
      reads this
    {
      if rest.None? then [] else Split(rest.value)
    }

    method Next() returns (tok: Option<Bytes>)
      modifies this
      ensures tok.None? <==> old(Left()) == []
      ensures tok.Some? ==> [tok.value] + Left() == old(Left())
      ensures tok.None? ==> Left() == []
    {
      if rest.None? {
        return None;
      }
      var s := rest.value;
      var i := 0;
      while i < |s| && s[i] != SEP
        invariant i <= |s| && forall k :: 0 <= k < i ==> s[k] != SEP
      {
        i := i + 1;
      }
      SplitFirst(s, i);
      tok := Some(s[..i]);
      rest := if i < |s| then Some(s[i + 1..]) else None;
    }
  }

  lemma {:induction false} SplitFirst(s: Bytes, i: nat)
    requires i <= |s| && (forall k :: 0 <= k < i ==> s[k] != SEP) && (i < |s| ==> s[i] == SEP)
    ensures Split(s) == [s[..i]] + if i < |s| then Split(s[i + 1..]) else []
  {
    if i > 0 {
      SplitFirst(s[1..], i - 1);
      var more := if i < |s| then Split(s[i + 1..]) else [];
      assert i < |s| ==> s[1..][i..] == s[i + 1..];
      SplitCons(s[0], s[1..][..i - 1], more);
      assert s[..i] == [s[0]] + s[1..][..i - 1];
    }
  }

  lemma SplitCons(b: byte, t: Bytes, more: seq<Bytes>)
    ensures var ts := [t] + more; [[b] + ts[0]] + ts[1..] == [[b] + t] + more
  {
    assert ([t] + more)[1..] == more;
  }

  /** The matcher as two iterators that advance together. */
  method MatchesLoop(filter: Bytes, subject: Bytes) returns (r: bool)
    ensures r == Matches(filter, subject)
  {
    var f := new Tokens(filter);
    var s := new Tokens(subject);
    while true
      invariant f != s
      invariant TokensMatch(f.Left(), s.Left()) == Matches(filter, subject)
      decreases |f.Left()|
    {
      ghost var fs, ss := f.Left(), s.Left();
      var ftok := f.Next();
      var stok := s.Next();
      if ftok.Some? && stok.Some? {
        assert fs[0] == ftok.value && fs[1..] == f.Left() && ss[0] == stok.value && ss[1..] == s.Left();
        if ftok.value == [FWC] {
          return true;
        }
        if ftok.value != stok.value && ftok.value != [PWC] {
          return false;
        }
      } else {
        return ftok.None? && stok.None?;
      }
    }
  }

  /** What the one-pass check has established of the tokens it has seen. */
  predicate Passed(seen: seq<Bytes>, afterFw: bool) {
    && ValidTokens(seen)
    && (afterFw <==> seen != [] && seen[|seen| - 1] == [FWC])
  }

  lemma PassedOneMore(seen: seq<Bytes>, tok: Bytes)
    requires Passed(seen, false) && LegalToken(tok)
    ensures Passed(seen + [tok], tok == [FWC])
  {
  }

  lemma StopsHere(seen: seq<Bytes>, tok: Bytes, left: seq<Bytes>, afterFw: bool)
    requires Passed(seen, afterFw) && (!LegalToken(tok) || afterFw)
    ensures !ValidTokens(seen + ([tok] + left))
  {
    var ts := seen + ([tok] + left);
    assert ts[|seen|] == tok;
    assert afterFw ==> ts[|seen| - 1] == [FWC];
  }

  /** The grammar check as one pass with a flag. */
  method IsValidLoop(s: Bytes) returns (r: bool)
    ensures r == IsValid(s)
  {
    if s == [] {
      assert Split(s)[0] == [];
      return false;
    }
    var it := new Tokens(s);
    var afterFw := false;
    ghost var seen: seq<Bytes> := [];
    assert Split(s) == seen + it.Left();
    while true
      invariant Split(s) == seen + it.Left() && Passed(seen, afterFw)
      decreases |it.Left()|
    {
      var next := it.Next();
      if next.None? {
        assert Split(s) == seen;
        return true;
      }
      var tok := next.value;
      assert Split(s) == seen + ([tok] + it.Left());
      if tok == [] || afterFw {
        StopsHere(seen, tok, it.Left(), afterFw);
        return false;
      }
      if |tok| > 1 {
        if exists i :: 0 <= i < |tok| && tok[i] in ILLEGAL {
          StopsHere(seen, tok, it.Left(), afterFw);
          return false;
        }
      } else if tok[0] == FWC {
        afterFw := true;
      }
      assert |tok| == 1 ==> tok == [tok[0]];
      PassedOneMore(seen, tok);
      Assoc(seen, [tok], it.Left());
      seen := seen + [tok];
    }
  }
}
