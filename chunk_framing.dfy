/**
 The re-framing `each` applies in chunked mode: every non-empty chunk becomes
 its size in lower-case hexadecimal, a line terminator, the chunk and a line
 terminator, and the body ends with a frame of size zero. This is the layout of
 the chunked transfer coding of section 7.1 of RFC 9112, except for the line
 terminator: the reader writes it as the Ruby single-quoted literal '\r\n',
 which is the four bytes backslash, `r`, backslash, `n`, not CR LF.

 `DecodeFrames` is a reader of that layout with the same four-byte
 terminator; the round-trip lemma shows the frames lose nothing.
 */
module ChunkFraming {
  import opened RubyText

  /** `term = '\r\n'`: four bytes, because single quotes keep backslashes literal. */
  const Term: seq<byte> := Bytes("\\r\\n")

  /** `[size.to_s(16), term, chunk, term].join`. */
  function Frame(c: seq<byte>): seq<byte> {
    Hex(|c|) + Term + c + Term
  }

  /** `['0', term, '', term].join`, the frame that ends the body. */
  const LastFrame: seq<byte> := Bytes("0") + Term + Term

  /** The frames of a body made of the given chunks, the terminating frame last. */
  function FramedBody(chunks: seq<seq<byte>>): seq<seq<byte>> {
    seq(|chunks|, i requires 0 <= i < |chunks| => Frame(chunks[i])) + [LastFrame]
  }

  /** The bytes of the given strings written one after the other. */
  function Concat(parts: seq<seq<byte>>): seq<byte>
    decreases |parts|
  {
    if parts == [] then [] else parts[0] + Concat(parts[1..])
  }

  /** The number of hexadecimal digits at the start of `s`. */
  function HexPrefixLength(s: seq<byte>): (k: nat)
    ensures k <= |s|
    ensures forall i | 0 <= i < k :: IsHexDigit(s[i])
    ensures k < |s| ==> !IsHexDigit(s[k])
    decreases |s|
  {
    if s == [] || !IsHexDigit(s[0]) then 0 else 1 + HexPrefixLength(s[1..])
  }

  /**
   Reads frames in the layout above: a hexadecimal size, the terminator, that
   many bytes and the terminator again, up to a frame of size zero that must
   end the input. Gives the chunks in order, or None when the input is not in
   that layout.
   */
  function DecodeFrames(s: seq<byte>): Option<seq<seq<byte>>>
    decreases |s|
  {
    var k := HexPrefixLength(s);
    var size := ParseHex(s[..k]);
    var r := s[k..];
    var t := |Term|;
    if k == 0 || |r| < t || r[..t] != Term then None
    else if size == 0 then (if r[t..] == Term then Some([]) else None)
    else if |r| < 2 * t + size || r[t + size..2 * t + size] != Term then None
    else match DecodeFrames(r[2 * t + size..])
      case None => None
      case Some(rest) => Some([r[t..t + size]] + rest)
  }

  /** Hexadecimal digits followed by a byte that is not one are read exactly. */
  lemma {:induction false} HexPrefixOfDigits(a: seq<byte>, rest: seq<byte>)
    requires forall i | 0 <= i < |a| :: IsHexDigit(a[i])
    requires rest == [] || !IsHexDigit(rest[0])
    ensures HexPrefixLength(a + rest) == |a|
    decreases |a|
  {
    if a != [] {
      assert (a + rest)[1..] == a[1..] + rest;
      HexPrefixOfDigits(a[1..], rest);
    }
  }

  /** The size field `to_s(16)` writes, followed by a byte that is not a digit, is read back as the size. */
  lemma SizeField(n: nat, rest: seq<byte>)
    requires rest != [] && !IsHexDigit(rest[0])
    ensures var h := Hex(n); var s := h + rest;
      && HexPrefixLength(s) == |h|
      && s[..|h|] == h && ParseHex(s[..|h|]) == n
      && s[|h|..] == rest
  {
    var h := Hex(n);
    HexIsCanonical(n);
    HexPrefixOfDigits(h, rest);
    assert (h + rest)[..|h|] == h;
    HexRoundTrip(n);
  }

  /** The parts of a frame after its size field. */
  lemma FrameParts(c: seq<byte>, more: seq<byte>)
    ensures var r := Term + c + Term + more;
      && |r| == 8 + |c| + |more|
      && r[..4] == Term && r[4..4 + |c|] == c
      && r[4 + |c|..8 + |c|] == Term && r[8 + |c|..] == more
  {
  }

  /** One frame in front of more input is read back as its chunk. */
  lemma DecodeOneFrame(c: seq<byte>, more: seq<byte>)
    requires |c| > 0
    ensures DecodeFrames(Frame(c) + more) ==
      match DecodeFrames(more) case None => None case Some(rest) => Some([c] + rest)
  {
    var r := Term + c + Term + more;
    assert Frame(c) + more == Hex(|c|) + r;
    assert r[0] == '\\' as int;
    SizeField(|c|, r);
    FrameParts(c, more);
  }

  /** The terminating frame alone is read as the end of an empty body. */
  lemma DecodeLastFrame()
    ensures DecodeFrames(LastFrame) == Some([])
  {
    var s := LastFrame;
    assert s == [0x30] + (Term + Term);
    assert Term[0] == '\\' as int;
    HexPrefixOfDigits([0x30], Term + Term);
    assert s[..1] == [0x30];
    assert s[1..] == Term + Term;
  }

  /** The bytes of a framed body are its first frame followed by the bytes of the rest. */
  lemma FramedBodyCons(chunks: seq<seq<byte>>)
    requires chunks != []
    ensures Concat(FramedBody(chunks)) == Frame(chunks[0]) + Concat(FramedBody(chunks[1..]))
  {
    assert FramedBody(chunks)[1..] == FramedBody(chunks[1..]);
  }

  /**
   The chunked body round trip: the frames `each` yields for non-empty chunks,
   followed by the terminating frame, are read back as exactly those chunks.
   */
  lemma {:induction false} DecodeFramedBody(chunks: seq<seq<byte>>)
    requires forall i | 0 <= i < |chunks| :: |chunks[i]| > 0
    ensures DecodeFrames(Concat(FramedBody(chunks))) == Some(chunks)
    decreases |chunks|
  {
    if chunks == [] {
      assert Concat(FramedBody(chunks)) == LastFrame by {
        assert FramedBody(chunks) == [LastFrame];
      }
      DecodeLastFrame();
    } else {
      var tail := Concat(FramedBody(chunks[1..]));
      assert DecodeFrames(tail) == Some(chunks[1..]) by {
        DecodeFramedBody(chunks[1..]);
      }
      assert DecodeFrames(Frame(chunks[0]) + tail) == Some([chunks[0]] + chunks[1..]) by {
        DecodeOneFrame(chunks[0], tail);
      }
      assert [chunks[0]] + chunks[1..] == chunks;
      FramedBodyCons(chunks);
    }
  }
}
