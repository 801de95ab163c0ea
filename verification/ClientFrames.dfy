/** The client's printers: publishes framed as the protocol requires. */
module ClientFrames {
  import opened ByteStrings
  import opened Decimal
  import opened Lines
  import opened Publishing

  lemma SpacedThree(a: Bytes, b: Bytes, c: Bytes)
    ensures Spaced([a, b, c]) == ([SP] + a) + ([SP] + b) + ([SP] + c)
  {
    SpacedTwo(a, b);
    SpacedOne(c);
    SpacedJoin([a, b], [c]);
    assert [a, b] + [c] == [a, b, c];
  }

  lemma SpacedFour(a: Bytes, b: Bytes, c: Bytes, d: Bytes)
    ensures Spaced([a, b, c, d]) == ([SP] + a) + ([SP] + b) + ([SP] + c) + ([SP] + d)
  {
    SpacedThree(a, b, c);
    SpacedOne(d);
    SpacedJoin([a, b, c], [d]);
    assert [a, b, c] + [d] == [a, b, c, d];
  }

  method PubFrame(subject: Bytes, reply: Option<Bytes>, body: Bytes) returns (out: Bytes)
    ensures out == Printed(Message(subject, reply, None, body))
  {
    ghost var m := Message(subject, reply, None, body);
    var size := Digits(|body|);
    match reply {
      case Some(r) =>
        out := PUB + (([SP] + subject) + ([SP] + r) + ([SP] + size)) + CRLF;
        SpacedThree(subject, r, size);
        assert ArgsOf(m) == [subject, r, size];
      case None =>
        out := PUB + (([SP] + subject) + ([SP] + size)) + CRLF;
        SpacedTwo(subject, size);
        assert ArgsOf(m) == [subject, size];
    }
    assert out == ControlLine(m) + CRLF;
    out := out + body;
    out := out + CRLF;
  }

  method HpubFrame(subject: Bytes, reply: Option<Bytes>, hdr: Bytes, body: Bytes) returns (out: Bytes)
    ensures out == Printed(Message(subject, reply, Some(hdr), body))
  {
    ghost var m := Message(subject, reply, Some(hdr), body);
    var head, size := Digits(|hdr|), Digits(|hdr| + |body|);
    match reply {
      case Some(r) =>
        out := HPUB + (([SP] + subject) + ([SP] + r) + ([SP] + head) + ([SP] + size)) + CRLF;
        SpacedFour(subject, r, head, size);
        assert ArgsOf(m) == [subject, r, head, size];
      case None =>
        out := HPUB + (([SP] + subject) + ([SP] + head) + ([SP] + size)) + CRLF;
        SpacedThree(subject, head, size);
        assert ArgsOf(m) == [subject, head, size];
    }
    assert out == ControlLine(m) + CRLF;
    Assoc(out, hdr, body);
    out := out + hdr;
    out := out + body;
    out := out + CRLF;
  }
}
