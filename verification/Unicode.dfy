/** UTF-8 by its definition, and that the byte tests used elsewhere come to it. */
module Unicode {
  import opened Bytes
  import opened Texts

  /** A Unicode scalar value: a code point that is no surrogate. */
  predicate IsScalar(c: nat)
  {
    c <= 0x10FFFF && !(0xD800 <= c <= 0xDFFF)
  }

  function EncodeChar(c: nat): (s: seq<Byte>)
    requires IsScalar(c)
    ensures 1 <= |s| <= 4
  {
    if c < 0x80 then [c]
    else if c < 0x800 then [0xC0 + c / 64, 0x80 + c % 64]
    else if c < 0x1_0000 then [0xE0 + c / 4096, 0x80 + c / 64 % 64, 0x80 + c % 64]
    else [0xF0 + c / 262144, 0x80 + c / 4096 % 64, 0x80 + c / 64 % 64, 0x80 + c % 64]
  }

  predicate AllScalar(cs: seq<nat>)
  {
    forall i :: 0 <= i < |cs| ==> IsScalar(cs[i])
  }

  function EncodeAll(cs: seq<nat>): seq<Byte>
    requires AllScalar(cs)
  {
    if cs == [] then [] else EncodeChar(cs[0]) + EncodeAll(cs[1..])
  }

  lemma CharLeads(c: nat, rest: seq<Byte>)
    requires IsScalar(c)
    ensures LeadLength(EncodeChar(c) + rest) == |EncodeChar(c)|
  {
    var s := EncodeChar(c) + rest;
    if c < 0x800 {
    } else if c < 0x1_0000 {
      assert s[0] == 0xE0 + c / 4096 && s[1] == 0x80 + c / 64 % 64 && s[2] == 0x80 + c % 64;
    } else {
      assert s[0] == 0xF0 + c / 262144 && s[1] == 0x80 + c / 4096 % 64;
      assert s[2] == 0x80 + c / 64 % 64 && s[3] == 0x80 + c % 64;
    }
  }

  lemma SixBits(high: nat, low: nat)
    requires low < 64
    ensures (high * 64 + low) / 64 == high && (high * 64 + low) % 64 == low
  {
  }

  lemma HighBits(c: nat)
    ensures c / 64 / 64 == c / 4096 && c / 64 / 64 / 64 == c / 262144
  {
  }

  lemma ThreeParts(a: nat, b: nat, d: nat) returns (c: nat)
    requires b < 64 && d < 64
    ensures c == (a * 64 + b) * 64 + d && c / 4096 == a && c / 64 % 64 == b && c % 64 == d
  {
    c := (a * 64 + b) * 64 + d;
    SixBits(a * 64 + b, d);
    SixBits(a, b);
    HighBits(c);
  }

  lemma FourParts(a: nat, b: nat, d: nat, e: nat) returns (c: nat)
    requires b < 64 && d < 64 && e < 64
    ensures c == ((a * 64 + b) * 64 + d) * 64 + e
    ensures c / 262144 == a && c / 4096 % 64 == b && c / 64 % 64 == d && c % 64 == e
  {
    var high := ThreeParts(a, b, d);
    c := high * 64 + e;
    SixBits(high, e);
    HighBits(c);
  }

  /** The character a well-formed text begins with. */
  lemma LeadIsChar(s: seq<Byte>) returns (c: nat)
    requires s != [] && LeadLength(s) > 0
    ensures IsScalar(c) && EncodeChar(c) == s[..LeadLength(s)]
  {
    if LeadLength(s) <= 2 {
      c := ShortChar(s);
    } else if LeadLength(s) == 3 {
      c := ThreeByteChar(s);
    } else {
      c := FourByteChar(s);
    }
  }

  lemma ShortChar(s: seq<Byte>) returns (c: nat)
    requires s != [] && 1 <= LeadLength(s) <= 2
    ensures IsScalar(c) && EncodeChar(c) == s[..LeadLength(s)]
  {
    if LeadLength(s) == 1 {
      c := s[0];
    } else {
      var high: int := s[0] - 0xC0;
      SixBits(high, s[1] - 0x80);
      c := high * 64 + (s[1] - 0x80);
    }
  }

  lemma ThreeByteChar(s: seq<Byte>) returns (c: nat)
    requires s != [] && LeadLength(s) == 3
    ensures IsScalar(c) && EncodeChar(c) == s[..3]
  {
    c := ThreeParts(s[0] - 0xE0, s[1] - 0x80, s[2] - 0x80);
  }

  lemma FourByteChar(s: seq<Byte>) returns (c: nat)
    requires s != [] && LeadLength(s) == 4
    ensures IsScalar(c) && EncodeChar(c) == s[..4]
  {
    c := FourParts(s[0] - 0xF0, s[1] - 0x80, s[2] - 0x80, s[3] - 0x80);
  }

  lemma {:induction false} CharsAreUtf8(cs: seq<nat>)
    requires AllScalar(cs)
    ensures Utf8(EncodeAll(cs))
  {
    hide EncodeChar, LeadLength;
    if cs != [] {
      CharsAreUtf8(cs[1..]);
      CharLeads(cs[0], EncodeAll(cs[1..]));
      Utf8Cons(EncodeChar(cs[0]), EncodeAll(cs[1..]));
    }
  }

  lemma {:induction false} Utf8HasChars(s: seq<Byte>) returns (cs: seq<nat>)
    requires Utf8(s)
    ensures AllScalar(cs) && EncodeAll(cs) == s
    decreases |s|
  {
    hide EncodeChar, LeadLength, IsScalar;
    if s == [] {
      cs := [];
    } else {
      var n := LeadLength(s);
      var c := LeadIsChar(s);
      var later := Utf8HasChars(s[n..]);
      cs := [c] + later;
      assert cs[1..] == later && s == s[..n] + s[n..];
    }
  }

  /** The texts accepted as UTF-8 are exactly the encodings of scalar values in a row. */
  lemma Utf8IsChars(s: seq<Byte>)
    ensures Utf8(s) <==> exists cs :: AllScalar(cs) && EncodeAll(cs) == s
  {
    hide EncodeAll, Utf8;
    if Utf8(s) {
      var cs := Utf8HasChars(s);
    }
    forall cs | AllScalar(cs) && EncodeAll(cs) == s
      ensures Utf8(s)
    {
      CharsAreUtf8(cs);
    }
  }

  /** The code points with the Unicode property White_Space. */
  predicate IsWhiteSpace(c: nat)
  {
    || 0x9 <= c <= 0xD || c == 0x20 || c == 0x85 || c == 0xA0 || c == 0x1680 || 0x2000 <= c <= 0x200A
    || c == 0x2028 || c == 0x2029 || c == 0x202F || c == 0x205F || c == 0x3000
  }

  /** What is trimmed are the encodings of white space, all of them and nothing else. */
  lemma SpacesAreWhite(c: nat)
    requires IsScalar(c)
    ensures IsSpace(EncodeChar(c)) <==> IsWhiteSpace(c)
  {
  }

  lemma SpaceIsChar(s: seq<Byte>) returns (c: nat)
    requires IsSpace(s)
    ensures IsScalar(c) && EncodeChar(c) == s
  {
    c := LeadIsChar(s);
    assert s[..|s|] == s;
  }
}
