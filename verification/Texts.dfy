/** What `String::from_utf8_lossy` and `str::trim` do to a line of text. */
module Texts {
  import opened Bytes

  const REPLACEMENT: seq<Byte> := [0xEF, 0xBF, 0xBD]

  /** Bytes the conversion replaces at the front of a text that is not well formed there: the
      longest start of a character, or one byte. */
  function BrokenLength(s: seq<Byte>): (n: nat)
    requires s != []
    ensures 0 < n <= |s|
  {
    var b := s[0];
    if 0xE0 <= b <= 0xEF then (if SecondFits(s) then 2 else 1)
    else if 0xF0 <= b <= 0xF4 && SecondFits(s) then (if Continuation(s, 2, 0x80, 0xBF) then 3 else 2)
    else 1
  }

  /** Whether the second byte may follow the first, of three- and four-byte characters. */
  predicate SecondFits(s: seq<Byte>)
    requires s != []
  {
    var b := s[0];
    if b == 0xE0 then Continuation(s, 1, 0xA0, 0xBF)
    else if b == 0xED then Continuation(s, 1, 0x80, 0x9F)
    else if b == 0xF0 then Continuation(s, 1, 0x90, 0xBF)
    else if b == 0xF4 then Continuation(s, 1, 0x80, 0x8F)
    else Continuation(s, 1, 0x80, 0xBF)
  }

  /** `String::from_utf8_lossy`. */
  function Lossy(s: seq<Byte>): seq<Byte>
  {
    if s == [] then []
    else if LeadLength(s) > 0 then s[..LeadLength(s)] + Lossy(s[LeadLength(s)..])
    else REPLACEMENT + Lossy(s[BrokenLength(s)..])
  }

  /** The length of a character is decided by its own bytes. */
  lemma LeadIsLocal(s: seq<Byte>, rest: seq<Byte>)
    requires s != [] && LeadLength(s) > 0
    ensures LeadLength(s[..LeadLength(s)] + rest) == LeadLength(s)
  {
  }

  lemma Utf8Cons(first: seq<Byte>, rest: seq<Byte>)
    requires first != [] && LeadLength(first + rest) == |first| && Utf8(rest)
    ensures Utf8(first + rest)
  {
    assert (first + rest)[|first|..] == rest;
  }

  /** The result is well formed, and is the text itself exactly when that was. */
  lemma {:induction false} LossyIsUtf8(s: seq<Byte>)
    ensures Utf8(Lossy(s))
    ensures Lossy(s) == s <==> Utf8(s)
    decreases |s|
  {
    hide LeadLength, BrokenLength;
    if s != [] {
      if LeadLength(s) > 0 {
        var n := LeadLength(s);
        LossyIsUtf8(s[n..]);
        LeadIsLocal(s, Lossy(s[n..]));
        Utf8Cons(s[..n], Lossy(s[n..]));
        assert s == s[..n] + s[n..];
        assert Lossy(s)[n..] == Lossy(s[n..]);
      } else {
        LossyIsUtf8(s[BrokenLength(s)..]);
        ReplacementLeads(Lossy(s[BrokenLength(s)..]));
        Utf8Cons(REPLACEMENT, Lossy(s[BrokenLength(s)..]));
      }
    }
  }

  lemma ReplacementLeads(rest: seq<Byte>)
    ensures LeadLength(REPLACEMENT + rest) == 3
  {
  }

  /** What is replaced is one byte, or the start of a character: it can be completed. */
  lemma BrokenCompletes(s: seq<Byte>)
    requires s != [] && LeadLength(s) == 0
    ensures var n := BrokenLength(s);
      n == 1 || LeadLength(s[..n] + [0x80]) == n + 1 || LeadLength(s[..n] + [0x80, 0x80]) == n + 2
  {
    var n := BrokenLength(s);
    if n == 2 {
      assert s[..n] + [0x80] == [s[0], s[1], 0x80] && s[..n] + [0x80, 0x80] == [s[0], s[1], 0x80, 0x80];
    } else if n == 3 {
      assert s[..n] + [0x80] == [s[0], s[1], s[2], 0x80];
    }
  }

  /** And it is all of that: with the byte that follows no character begins so. */
  lemma BrokenIsLongest(s: seq<Byte>, more: seq<Byte>)
    requires s != [] && LeadLength(s) == 0 && BrokenLength(s) < |s|
    ensures LeadLength(s[..BrokenLength(s) + 1] + more) == 0
  {
    var t := s[..BrokenLength(s) + 1] + more;
    assert t[0] == s[0] && t[1] == s[1];
    assert BrokenLength(s) > 1 ==> t[2] == s[2];
    assert BrokenLength(s) > 2 ==> t[3] == s[3];
  }

  /** What follows the replaced part is converted on its own. */
  lemma LossyStep(s: seq<Byte>)
    requires s != [] && LeadLength(s) == 0
    ensures Lossy(s) == [0xEF, 0xBF, 0xBD] + Lossy(s[BrokenLength(s)..])
  {
  }

  /** Well-formed text is kept, whatever follows. */
  lemma {:induction false} LossyKeeps(s: seq<Byte>, rest: seq<Byte>)
    requires Utf8(s)
    ensures Lossy(s + rest) == s + Lossy(rest)
    decreases |s|
  {
    hide LeadLength, BrokenLength;
    if s == [] {
      assert s + rest == rest;
    } else {
      var n := LeadLength(s);
      assert s + rest == s[..n] + (s[n..] + rest);
      LeadIsLocal(s, s[n..] + rest);
      LossyKeeps(s[n..], rest);
      assert (s + rest)[..n] == s[..n] && (s + rest)[n..] == s[n..] + rest;
    }
  }

  // ---------- Trimming ----------

  /** The characters Unicode calls white space, in UTF-8. */
  predicate IsSpace(c: seq<Byte>)
  {
    || (|c| == 1 && (9 <= c[0] <= 13 || c[0] == 32))
    || (|c| == 2 && c[0] == 0xC2 && (c[1] == 0x85 || c[1] == 0xA0))
    || (|c| == 3 && c[0] == 0xE1 && c[1] == 0x9A && c[2] == 0x80)
    || (|c| == 3 && c[0] == 0xE2 && c[1] == 0x80 && (0x80 <= c[2] <= 0x8A || 0xA8 <= c[2] <= 0xA9 || c[2] == 0xAF))
    || (|c| == 3 && c[0] == 0xE2 && c[1] == 0x81 && c[2] == 0x9F)
    || (|c| == 3 && c[0] == 0xE3 && c[1] == 0x80 && c[2] == 0x80)
  }

  predicate StartsWithSpace(s: seq<Byte>, n: nat)
  {
    n <= |s| && IsSpace(s[..n])
  }

  predicate EndsWithSpace(s: seq<Byte>, n: nat)
  {
    n <= |s| && IsSpace(s[|s| - n..])
  }

  /** Length of the white-space character at the front; 0 when there is none. */
  function SpaceAtStart(s: seq<Byte>): (n: nat)
    ensures n <= |s| && (n > 0 ==> StartsWithSpace(s, n))
    ensures n == 0 ==> forall k: nat :: !StartsWithSpace(s, k)
  {
    if StartsWithSpace(s, 1) then 1
    else if StartsWithSpace(s, 2) then 2
    else if StartsWithSpace(s, 3) then 3
    else 0
  }

  function SpaceAtEnd(s: seq<Byte>): (n: nat)
    ensures n <= |s| && (n > 0 ==> EndsWithSpace(s, n))
    ensures n == 0 ==> forall k: nat :: !EndsWithSpace(s, k)
  {
    if EndsWithSpace(s, 1) then 1
    else if EndsWithSpace(s, 2) then 2
    else if EndsWithSpace(s, 3) then 3
    else 0
  }

  function TrimStart(s: seq<Byte>): seq<Byte>
    decreases |s|
  {
    if SpaceAtStart(s) > 0 then TrimStart(s[SpaceAtStart(s)..]) else s
  }

  function TrimEnd(s: seq<Byte>): seq<Byte>
    decreases |s|
  {
    if SpaceAtEnd(s) > 0 then TrimEnd(s[..|s| - SpaceAtEnd(s)]) else s
  }

  /** `str::trim`, on text that is UTF-8. */
  function Trim(s: seq<Byte>): seq<Byte>
  {
    TrimEnd(TrimStart(s))
  }

  /** Nothing but white space. */
  predicate AllSpace(s: seq<Byte>)
    decreases |s|
  {
    s == [] || (SpaceAtStart(s) > 0 && AllSpace(s[SpaceAtStart(s)..]))
  }

  lemma SpaceFirst(c: seq<Byte>, rest: seq<Byte>)
    requires IsSpace(c)
    ensures SpaceAtStart(c + rest) == |c|
  {
    assert (c + rest)[..|c|] == c;
  }

  lemma AllSpaceCons(c: seq<Byte>, rest: seq<Byte>)
    requires IsSpace(c) && AllSpace(rest)
    ensures AllSpace(c + rest)
  {
    hide IsSpace, SpaceAtStart;
    SpaceFirst(c, rest);
    assert (c + rest)[|c|..] == rest;
  }

  lemma {:induction false} AllSpaceSnoc(s: seq<Byte>, c: seq<Byte>)
    requires AllSpace(s) && IsSpace(c)
    ensures AllSpace(s + c)
    decreases |s|
  {
    hide IsSpace, SpaceAtStart;
    if s == [] {
      AllSpaceCons(c, []);
      assert s + c == c + [];
    } else {
      var n := SpaceAtStart(s);
      AllSpaceSnoc(s[n..], c);
      AllSpaceCons(s[..n], s[n..] + c);
      assert s + c == s[..n] + (s[n..] + c);
    }
  }

  /** Where the text starts once trimmed at the front. */
  lemma {:induction false} TrimStartIs(s: seq<Byte>) returns (i: nat)
    ensures i <= |s| && AllSpace(s[..i]) && TrimStart(s) == s[i..] && SpaceAtStart(s[i..]) == 0
    decreases |s|
  {
    hide IsSpace, SpaceAtStart, AllSpace;
    var n := SpaceAtStart(s);
    if n > 0 {
      var k := TrimStartIs(s[n..]);
      i := n + k;
      AllSpaceCons(s[..n], s[n..][..k]);
      assert s[..i] == s[..n] + s[n..][..k] && s[i..] == s[n..][k..];
    } else {
      i := 0;
      NoSpace();
      assert s[..0] == [] && s[0..] == s;
    }
  }

  /** Where it ends once trimmed at the back. */
  lemma {:induction false} TrimEndIs(s: seq<Byte>) returns (j: nat)
    ensures j <= |s| && AllSpace(s[j..]) && TrimEnd(s) == s[..j] && SpaceAtEnd(s[..j]) == 0
    decreases |s|
  {
    hide IsSpace, SpaceAtEnd, AllSpace;
    var n := SpaceAtEnd(s);
    if n > 0 {
      var front := s[..|s| - n];
      j := TrimEndIs(front);
      AllSpaceSnoc(front[j..], s[|s| - n..]);
      assert s[j..] == front[j..] + s[|s| - n..] && s[..j] == front[..j];
    } else {
      j := |s|;
      NoSpace();
      assert s[|s|..] == [] && s[..|s|] == s;
    }
  }

  lemma NoSpace()
    ensures AllSpace([])
  {
  }

  lemma CutKeepsStart(s: seq<Byte>, k: nat, n: nat)
    requires k <= |s|
    ensures StartsWithSpace(s[..k], n) ==> StartsWithSpace(s, n)
  {
    assert n <= k ==> s[..k][..n] == s[..n];
  }

  /** A trimmed text is the text less the white space around it, and all of that. */
  lemma TrimIs(s: seq<Byte>)
    ensures exists i: nat, j: nat :: i <= j <= |s| && AllSpace(s[..i]) && AllSpace(s[j..]) && Trim(s) == s[i..j]
    ensures forall n: nat :: !EndsWithSpace(Trim(s), n) && !StartsWithSpace(Trim(s), n)
  {
    hide IsSpace, AllSpace, TrimStart, TrimEnd, SpaceAtStart, SpaceAtEnd, StartsWithSpace, EndsWithSpace;
    var i := TrimStartIs(s);
    var middle := s[i..];
    var k := TrimEndIs(middle);
    assert s[i + k..] == middle[k..] && s[i..i + k] == middle[..k];
    forall n: nat
      ensures !EndsWithSpace(Trim(s), n) && !StartsWithSpace(Trim(s), n)
    {
      CutKeepsStart(middle, k, n);
    }
  }
}
