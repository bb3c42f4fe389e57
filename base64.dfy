/**
 * encoding/base64's RawStdEncoding in strict mode, as the Argon2 driver
 * uses it: the alphabet of section 4 of RFC 4648, no padding, and the
 * unused low bits of a final partial group required to be zero. The
 * decoder skips carriage returns and line feeds, as Go's does. Bytes are
 * cut into 6-bit values first and those are written as characters after,
 * so the arithmetic and the alphabet are reasoned about separately.
 */
module Base64 {
  import opened GoTypes

  type byte = bv8
  type sextet = bv6
  /** A position in the alphabet. */
  type index = n: int | 0 <= n < 64

  predicate IsB64(c: char)
  {
    'A' <= c <= 'Z' || 'a' <= c <= 'z' || '0' <= c <= '9' || c == '+' || c == '/'
  }

  /** The 6-bit value a character of the alphabet stands for. */
  function Val(c: char): index
    requires IsB64(c)
  {
    if 'A' <= c <= 'Z' then c as int - 'A' as int
    else if 'a' <= c <= 'z' then c as int - 'a' as int + 26
    else if '0' <= c <= '9' then c as int - '0' as int + 52
    else if c == '+' then 62
    else 63
  }

  /** The character of the alphabet for a 6-bit value. */
  function Char(v: index): (c: char)
    ensures IsB64(c) && Val(c) == v
  {
    if v < 26 then ('A' as int + v) as char
    else if v < 52 then ('a' as int + v - 26) as char
    else if v < 62 then ('0' as int + v - 52) as char
    else if v == 62 then '+'
    else '/'
  }

  /** Val and Char are inverse: the alphabet has 64 distinct characters. */
  lemma CharOfVal(c: char)
    requires IsB64(c)
    ensures Char(Val(c)) == c
  {
  }

  lemma IndexAsSextet(n: index)
    ensures (n as bv6) as int == n
  {
  }

  predicate AllB64(s: string)
  {
    forall i :: 0 <= i < |s| ==> IsB64(s[i])
  }

  function Chars(xs: seq<sextet>): (s: string)
    ensures |s| == |xs| && AllB64(s)
    ensures forall i :: 0 <= i < |xs| ==> s[i] == Char(xs[i] as int)
  {
    seq(|xs|, i requires 0 <= i < |xs| => Char(xs[i] as int))
  }

  function Vals(s: string): (xs: seq<sextet>)
    requires AllB64(s)
    ensures |xs| == |s|
    ensures forall i :: 0 <= i < |s| ==> xs[i] == Val(s[i]) as bv6
  {
    seq(|s|, i requires 0 <= i < |s| => Val(s[i]) as bv6)
  }

  lemma ValsOfChars(xs: seq<sextet>)
    ensures Vals(Chars(xs)) == xs
  {
    forall i | 0 <= i < |xs| ensures Vals(Chars(xs))[i] == xs[i] {
      assert Val(Chars(xs)[i]) == xs[i] as int;
    }
  }

  lemma CharsOfVals(s: string)
    requires AllB64(s)
    ensures Chars(Vals(s)) == s
  {
    forall i | 0 <= i < |s| ensures Chars(Vals(s))[i] == s[i] {
      IndexAsSextet(Val(s[i]));
      CharOfVal(s[i]);
    }
  }

  /** The length of the encoding of n bytes: four characters per three bytes, two or three for a tail. */
  function EncodedLen(n: nat): nat
  {
    n / 3 * 4 + (if n % 3 == 0 then 0 else n % 3 + 1)
  }

  /** The length of what n characters decode to. */
  function DecodedLen(n: nat): nat
  {
    n / 4 * 3 + (if n % 4 == 3 then 2 else if n % 4 == 2 then 1 else 0)
  }

  /** The four 6-bit values of three bytes, most significant bits first. */
  function S0(b0: byte): sextet { (b0 >> 2) as bv6 }
  function S1(b0: byte, b1: byte): sextet { (((b0 & 3) << 4) | (b1 >> 4)) as bv6 }
  function S2(b1: byte, b2: byte): sextet { (((b1 & 15) << 2) | (b2 >> 6)) as bv6 }
  function S3(b2: byte): sextet { (b2 & 63) as bv6 }

  /** The three bytes of four 6-bit values. */
  function B0(x0: sextet, x1: sextet): byte { ((x0 as bv8) << 2) | ((x1 as bv8) >> 4) }
  function B1(x1: sextet, x2: sextet): byte { (((x1 as bv8) & 15) << 4) | ((x2 as bv8) >> 2) }
  function B2(x2: sextet, x3: sextet): byte { (((x2 as bv8) & 3) << 6) | (x3 as bv8) }

  /** Bytes cut into 6-bit values; a final partial group is padded with zero bits. */
  function Sextets(bs: seq<byte>): (xs: seq<sextet>)
    ensures |xs| == EncodedLen(|bs|)
    decreases |bs|
  {
    if |bs| == 0 then []
    else if |bs| == 1 then [S0(bs[0]), S1(bs[0], 0)]
    else if |bs| == 2 then [S0(bs[0]), S1(bs[0], bs[1]), S2(bs[1], 0)]
    else [S0(bs[0]), S1(bs[0], bs[1]), S2(bs[1], bs[2]), S3(bs[2])] + Sextets(bs[3..])
  }

  /**
   * 6-bit values back to bytes, strictly: a lone final value, or non-zero
   * padding bits in a final partial group, is an error.
   */
  function Unsextets(xs: seq<sextet>): (r: Option<seq<byte>>)
    decreases |xs|
  {
    if |xs| == 0 then Some([])
    else if |xs| == 1 then None
    else if |xs| == 2 then
      if (xs[1] & 15) == 0 then Some([B0(xs[0], xs[1])]) else None
    else if |xs| == 3 then
      if (xs[2] & 3) == 0 then Some([B0(xs[0], xs[1]), B1(xs[1], xs[2])]) else None
    else
      match Unsextets(xs[4..])
      case None => None
      case Some(rest) => Some([B0(xs[0], xs[1]), B1(xs[1], xs[2]), B2(xs[2], xs[3])] + rest)
  }

  /** EncodeToString */
  function Encode(bs: seq<byte>): (s: string)
    ensures |s| == EncodedLen(|bs|) && AllB64(s)
  {
    Chars(Sextets(bs))
  }

  /** The strict decoder on input without line breaks: a character outside the alphabet (padding included) is an error. */
  function DecodeStrict(s: string): (r: Option<seq<byte>>)
    ensures r.Some? ==> AllB64(s)
  {
    if AllB64(s) then Unsextets(Vals(s)) else None
  }

  /** The input with every '\r' and '\n' removed. */
  function RemoveNewlines(s: string): (r: string)
    ensures (forall i :: 0 <= i < |s| ==> s[i] != '\r' && s[i] != '\n') ==> r == s
    decreases |s|
  {
    if |s| == 0 then ""
    else (if s[0] == '\r' || s[0] == '\n' then "" else [s[0]]) + RemoveNewlines(s[1..])
  }

  /** Strict DecodeString; the error's offset is not modelled. */
  function DecodeString(s: string): Option<seq<byte>>
  {
    DecodeStrict(RemoveNewlines(s))
  }

  /** Three bytes come back from their four 6-bit values. */
  lemma BytesBack(b0: byte, b1: byte, b2: byte)
    ensures B0(S0(b0), S1(b0, b1)) == b0
    ensures B1(S1(b0, b1), S2(b1, b2)) == b1
    ensures B2(S2(b1, b2), S3(b2)) == b2
    ensures (S1(b0, 0) & 15) == 0 && (S2(b1, 0) & 3) == 0
  {
  }

  /** Four 6-bit values come back from their three bytes. */
  lemma SextetsBack(x0: sextet, x1: sextet, x2: sextet, x3: sextet)
    ensures S0(B0(x0, x1)) == x0
    ensures S1(B0(x0, x1), B1(x1, x2)) == x1
    ensures S2(B1(x1, x2), B2(x2, x3)) == x2
    ensures S3(B2(x2, x3)) == x3
    ensures (x1 & 15) == 0 ==> B1(x1, 0) == 0
    ensures (x2 & 3) == 0 ==> B2(x2, 0) == 0
  {
  }

  /** The bits of the bytes survive being cut into 6-bit values. */
  lemma {:induction false} UnsextetsOfSextets(bs: seq<byte>)
    ensures Unsextets(Sextets(bs)) == Some(bs)
    decreases |bs|
  {
    if |bs| == 1 {
      var one: seq<byte> := [bs[0]];
      assert bs == one;
      BytesBack(bs[0], 0, 0);
    } else if |bs| == 2 {
      var pair: seq<byte> := [bs[0], bs[1]];
      assert bs == pair;
      BytesBack(bs[0], bs[1], 0);
    } else if |bs| >= 3 {
      var head: seq<byte> := [bs[0], bs[1], bs[2]];
      assert bs == head + bs[3..];
      UnsextetsOfSextets(bs[3..]);
      BytesInFront(bs[0], bs[1], bs[2], bs[3..]);
    }
  }

  /** One full group of bytes in front of a tail that already comes back. */
  lemma BytesInFront(b0: byte, b1: byte, b2: byte, tail: seq<byte>)
    requires Unsextets(Sextets(tail)) == Some(tail)
    ensures Unsextets(Sextets([b0, b1, b2] + tail)) == Some([b0, b1, b2] + tail)
  {
    var head: seq<byte> := [b0, b1, b2];
    var bs := head + tail;
    assert bs[..3] == head && bs[3..] == tail;
    var g: seq<sextet> := [S0(b0), S1(b0, b1), S2(b1, b2), S3(b2)];
    var xs := Sextets(bs);
    assert xs == g + Sextets(tail);
    assert xs[4..] == Sextets(tail);
    var decoded: seq<byte> := [B0(g[0], g[1]), B1(g[1], g[2]), B2(g[2], g[3])];
    assert Unsextets(xs) == Some(decoded + tail);
    BytesBack(b0, b1, b2);
    assert decoded == head;
  }

  /** Strict decoding accepts only what the encoder produces, one value per six bits. */
  lemma {:induction false} SextetsOfUnsextets(xs: seq<sextet>)
    requires Unsextets(xs).Some?
    ensures Sextets(Unsextets(xs).value) == xs
    ensures |Unsextets(xs).value| == DecodedLen(|xs|)
    decreases |xs|
  {
    if |xs| == 2 {
      CanonicalPair(xs);
    } else if |xs| == 3 {
      CanonicalTriple(xs);
    } else if |xs| >= 4 {
      var g: seq<sextet> := [xs[0], xs[1], xs[2], xs[3]];
      assert xs == g + xs[4..];
      SextetsOfUnsextets(xs[4..]);
      GroupInFront(xs[0], xs[1], xs[2], xs[3], xs[4..]);
    }
  }

  /** Two values with four zero padding bits are one byte. */
  lemma CanonicalPair(xs: seq<sextet>)
    requires |xs| == 2 && (xs[1] & 15) == 0
    ensures Unsextets(xs) == Some([B0(xs[0], xs[1])])
    ensures Sextets([B0(xs[0], xs[1])]) == xs
  {
    var pair: seq<sextet> := [xs[0], xs[1]];
    assert xs == pair;
    SextetsBack(xs[0], xs[1], 0, 0);
  }

  /** Three values with two zero padding bits are two bytes. */
  lemma CanonicalTriple(xs: seq<sextet>)
    requires |xs| == 3 && (xs[2] & 3) == 0
    ensures Unsextets(xs) == Some([B0(xs[0], xs[1]), B1(xs[1], xs[2])])
    ensures Sextets([B0(xs[0], xs[1]), B1(xs[1], xs[2])]) == xs
  {
    var triple: seq<sextet> := [xs[0], xs[1], xs[2]];
    assert xs == triple;
    SextetsBack(xs[0], xs[1], xs[2], 0);
  }

  /** One full group of values in front of a tail that already comes back. */
  lemma GroupInFront(x0: sextet, x1: sextet, x2: sextet, x3: sextet, tail: seq<sextet>)
    requires Unsextets(tail).Some? && Sextets(Unsextets(tail).value) == tail
    requires |Unsextets(tail).value| == DecodedLen(|tail|)
    ensures var xs := [x0, x1, x2, x3] + tail;
      Unsextets(xs).Some? && Sextets(Unsextets(xs).value) == xs && |Unsextets(xs).value| == DecodedLen(|xs|)
  {
    var g: seq<sextet> := [x0, x1, x2, x3];
    var xs := g + tail;
    assert xs[4..] == tail;
    var rest := Unsextets(tail).value;
    var head: seq<byte> := [B0(x0, x1), B1(x1, x2), B2(x2, x3)];
    var bs := head + rest;
    assert Unsextets(xs) == Some(bs);
    assert bs[3..] == rest;
    SextetsBack(x0, x1, x2, x3);
    assert Sextets(bs) == g + tail;
    DecodedLenStep(|tail|);
  }

  lemma DecodedLenStep(n: nat)
    ensures DecodedLen(n + 4) == DecodedLen(n) + 3
  {
  }

  /** Decoding an encoding gives the bytes back. */
  lemma DecodeEncode(bs: seq<byte>)
    ensures DecodeString(Encode(bs)) == Some(bs)
  {
    var s := Encode(bs);
    assert forall i :: 0 <= i < |s| ==> s[i] != '\r' && s[i] != '\n' by {
      forall i | 0 <= i < |s| ensures s[i] != '\r' && s[i] != '\n' { assert IsB64(s[i]); }
    }
    ValsOfChars(Sextets(bs));
    UnsextetsOfSextets(bs);
  }

  /**
   * Strict decoding accepts only canonical encodings: whatever it accepts
   * is exactly the encoding of what it returns, of the expected length.
   */
  lemma DecodeCanonical(s: string)
    requires DecodeStrict(s).Some?
    ensures Encode(DecodeStrict(s).value) == s
    ensures |DecodeStrict(s).value| == DecodedLen(|s|)
  {
    SextetsOfUnsextets(Vals(s));
    CharsOfVals(s);
  }

  /** Encodings of different byte strings differ. */
  lemma EncodeInjective(a: seq<byte>, b: seq<byte>)
    ensures Encode(a) == Encode(b) <==> a == b
  {
    DecodeEncode(a);
    DecodeEncode(b);
  }
}
