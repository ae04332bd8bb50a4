/** Bytes, decimal numerals as Rust prints and parses them, and UTF-8 well-formedness. */
module Bytes {
  import opened Wrappers

  type Byte = b: int | 0 <= b < 256

  const SOH: Byte := 1
  const EQUALS: Byte := 61
  const NEWLINE: Byte := 10
  const PLUS: Byte := 43
  const MINUS: Byte := 45
  const ZERO: Byte := 48

  const U32_MAX: nat := 0xFFFF_FFFF
  const I32_MAX: nat := 0x7FFF_FFFF
  const USIZE_MAX: nat := 0xFFFF_FFFF_FFFF_FFFF

  /** How the build treats integer overflow: checked builds stop, others wrap. */
  datatype Build = Checked | Wrapping

  // ---------- Searching ----------

  /** Index of the first `b` at or after `from`, or the length of `s`. */
  function Find(s: seq<Byte>, from: nat, b: Byte): (i: nat)
    requires from <= |s|
    ensures from <= i <= |s|
    ensures forall j :: from <= j < i ==> s[j] != b
    ensures i < |s| ==> s[i] == b
    decreases |s| - from
  {
    if from == |s| || s[from] == b then from else Find(s, from + 1, b)
  }

  lemma {:induction false} FindIs(s: seq<Byte>, from: nat, b: Byte, i: nat)
    requires from <= i <= |s|
    requires forall j :: from <= j < i ==> s[j] != b
    requires i == |s| || s[i] == b
    ensures Find(s, from, b) == i
    decreases i - from
  {
    if from < i {
      FindIs(s, from + 1, b, i);
    }
  }

  // ---------- Decimal numerals ----------

  predicate IsDigit(b: Byte)
  {
    48 <= b <= 57
  }

  predicate AllDigits(s: seq<Byte>)
  {
    forall i :: 0 <= i < |s| ==> IsDigit(s[i])
  }

  /** The number a digit string denotes; the empty string denotes zero. */
  function Value(s: seq<Byte>): nat
    requires AllDigits(s)
  {
    if s == [] then 0 else 10 * Value(s[..|s| - 1]) + (s[|s| - 1] - 48)
  }

  /** `n.to_string()` for an unsigned number. */
  function Print(n: nat): (s: seq<Byte>)
    ensures |s| > 0
  {
    if n < 10 then [48 + n] else Print(n / 10) + [48 + n % 10]
  }

  lemma {:induction false} PrintValue(n: nat)
    ensures AllDigits(Print(n)) && Value(Print(n)) == n
  {
    if n >= 10 {
      PrintValue(n / 10);
      var s := Print(n);
      assert s[..|s| - 1] == Print(n / 10);
    } else {
      assert Print(n)[..0] == [];
    }
  }

  function Pow10(k: nat): nat
  {
    if k == 0 then 1 else 10 * Pow10(k - 1)
  }

  lemma {:induction false} PrintLength(n: nat, k: nat)
    requires k > 0 && n < Pow10(k) && (k > 1 ==> Pow10(k - 1) <= n)
    ensures |Print(n)| == k
  {
    if k > 1 {
      assert k > 2 ==> Pow10(k - 1) == 10 * Pow10(k - 2);
      assert n >= 10 by { PowPositive(k - 2); }
      PrintLength(n / 10, k - 1);
    }
  }

  lemma {:induction false} PowPositive(k: nat)
    ensures Pow10(k) > 0
  {
    if k > 0 {
      PowPositive(k - 1);
    }
  }

  lemma PrintInjective(a: nat, b: nat)
    requires Print(a) == Print(b)
    ensures a == b
  {
    PrintValue(a);
    PrintValue(b);
  }

  lemma {:induction false} ValueOfPrefix(s: seq<Byte>, k: nat)
    requires AllDigits(s) && k <= |s|
    ensures Value(s[..k]) <= Value(s)
    decreases |s|
  {
    if k < |s| {
      var t := s[..|s| - 1];
      assert t[..k] == s[..k];
      ValueOfPrefix(t, k);
    } else {
      assert s[..k] == s;
    }
  }

  /** A number below 1000 in three digits, as `{:03}` prints it. */
  function Print3(n: nat): (s: seq<Byte>)
    requires n < 1000
    ensures |s| == 3 && AllDigits(s) && Value(s) == n
  {
    ThreeDigits(48 + n / 100, 48 + n / 10 % 10, 48 + n % 10);
    DecimalDigits(n);
    [48 + n / 100, 48 + n / 10 % 10, 48 + n % 10]
  }

  lemma DecimalDigits(n: nat)
    ensures n == 100 * (n / 100) + 10 * (n / 10 % 10) + n % 10
  {
  }

  lemma ThreeDigits(a: Byte, b: Byte, c: Byte)
    requires IsDigit(a) && IsDigit(b) && IsDigit(c)
    ensures AllDigits([a, b, c]) && Value([a, b, c]) == 100 * (a - 48) + 10 * (b - 48) + (c - 48)
  {
    assert [a, b, c][..2] == [a, b] && [a, b][..1] == [a] && [a][..0] == [];
    assert Value([a]) == a - 48;
    assert Value([a, b]) == 10 * (a - 48) + (b - 48);
  }

  /** `str::parse` for an integer type: an optional sign, at least one digit,
      nothing else, and a value in range. Only signed types take a minus. */
  function ParseInt(s: seq<Byte>, signed: bool, max: int): (r: Option<int>)
  {
    if s == [] then None
    else
      var negative := signed && s[0] == MINUS;
      var digits := if s[0] == PLUS || negative then s[1..] else s;
      if digits == [] || !AllDigits(digits) then None
      else
        var size: int := Value(digits);
        var number := if negative then -size else size;
        if -max <= number + 1 && number <= max then Some(number) else None
  }

  function ParseUsize(s: seq<Byte>): Option<int>
  {
    ParseInt(s, false, USIZE_MAX)
  }

  function ParseI32(s: seq<Byte>): Option<int>
  {
    ParseInt(s, true, I32_MAX)
  }

  lemma ParsePrinted(n: nat)
    ensures n <= USIZE_MAX ==> ParseUsize(Print(n)) == Some(n)
    ensures n <= I32_MAX ==> ParseI32(Print(n)) == Some(n)
  {
    PrintValue(n);
    assert IsDigit(Print(n)[0]);
  }

  lemma DigitsAreChars(b: Byte)
    ensures IsDigit(b) <==> '0' <= b as char <= '9'
  {
  }

  /** `s` writes the number `v`: digits, after a plus sign or, where allowed, a minus sign. */
  predicate Writes(s: seq<Byte>, digits: seq<Byte>, signed: bool, v: int)
  {
    && digits != [] && (forall i :: 0 <= i < |digits| ==> '0' <= digits[i] as char <= '9')
    && ((s == digits && Value(digits) == v)
        || (s == [43] + digits && Value(digits) == v)
        || (signed && s == [45] + digits && Value(digits) == -v))
  }

  lemma ParseIntExactly(s: seq<Byte>, signed: bool, max: int, v: int)
    requires max >= 0 && (!signed ==> v >= 0)
    ensures ParseInt(s, signed, max) == Some(v)
      <==> -max - 1 <= v <= max && exists digits :: Writes(s, digits, signed, v)
  {
    hide Value;
    if s != [] {
      var tail := s[1..];
      assert s == [s[0]] + tail;
      if ParseInt(s, signed, max) == Some(v) {
        var digits := if s[0] == PLUS || (signed && s[0] == MINUS) then tail else s;
        assert Writes(s, digits, signed, v);
      }
      forall digits | Writes(s, digits, signed, v)
        ensures -max - 1 <= v <= max ==> ParseInt(s, signed, max) == Some(v)
      {
        assert s == digits || tail == digits;
        assert AllDigits(digits);
      }
    }
  }

  /** `str::parse` for i32: exactly the numerals, signed or not, of numbers in its range. */
  lemma ParseI32Exactly(s: seq<Byte>, v: int)
    ensures ParseI32(s) == Some(v)
      <==> -2_147_483_648 <= v <= 2_147_483_647 && exists digits :: Writes(s, digits, true, v)
  {
    hide ParseInt, Writes;
    ParseIntExactly(s, true, I32_MAX, v);
  }

  /** For usize the same without a minus sign. */
  lemma ParseUsizeExactly(s: seq<Byte>, v: nat)
    ensures ParseUsize(s) == Some(v)
      <==> v <= 18_446_744_073_709_551_615 && exists digits :: Writes(s, digits, false, v)
  {
    hide ParseInt, Writes;
    ParseIntExactly(s, false, USIZE_MAX, v);
  }

  /** The bytes of an ASCII text. */
  function Ascii(text: string): (s: seq<Byte>)
    requires forall i :: 0 <= i < |text| ==> text[i] < 128 as char
    ensures |s| == |text| && forall i :: 0 <= i < |s| ==> s[i] == text[i] as int
  {
    seq(|text|, i requires 0 <= i < |text| => text[i] as int)
  }

  /** A cut numeral denotes no more than the whole. */
  lemma ParsePrefix(n: nat, text: seq<Byte>)
    requires text <= Print(n) && ParseUsize(text).Some?
    ensures ParseUsize(text).value <= n
  {
    hide Print, Value;
    PrintValue(n);
    var whole := Print(n);
    assert text == whole[..|text|];
    assert IsDigit(whole[0]);
    ValueOfPrefix(whole, |text|);
  }

  // ---------- UTF-8 ----------

  predicate Continuation(s: seq<Byte>, i: nat, low: Byte, high: Byte)
  {
    i < |s| && low <= s[i] <= high
  }

  /** Length of the well-formed UTF-8 sequence at the front of `s`; 0 when there is none. */
  function LeadLength(s: seq<Byte>): (n: nat)
    requires s != []
    ensures n <= |s|
  {
    var b := s[0];
    if b < 0x80 then 1
    else if 0xC2 <= b <= 0xDF && Continuation(s, 1, 0x80, 0xBF) then 2
    else if b == 0xE0 && Continuation(s, 1, 0xA0, 0xBF) && Continuation(s, 2, 0x80, 0xBF) then 3
    else if b == 0xED && Continuation(s, 1, 0x80, 0x9F) && Continuation(s, 2, 0x80, 0xBF) then 3
    else if 0xE1 <= b <= 0xEF && b != 0xED && Continuation(s, 1, 0x80, 0xBF) && Continuation(s, 2, 0x80, 0xBF) then 3
    else if b == 0xF0 && Continuation(s, 1, 0x90, 0xBF) && Continuation(s, 2, 0x80, 0xBF) && Continuation(s, 3, 0x80, 0xBF) then 4
    else if 0xF1 <= b <= 0xF3 && Continuation(s, 1, 0x80, 0xBF) && Continuation(s, 2, 0x80, 0xBF) && Continuation(s, 3, 0x80, 0xBF) then 4
    else if b == 0xF4 && Continuation(s, 1, 0x80, 0x8F) && Continuation(s, 2, 0x80, 0xBF) && Continuation(s, 3, 0x80, 0xBF) then 4
    else 0
  }

  /** What `str::from_utf8` accepts. */
  predicate Utf8(s: seq<Byte>)
  {
    s == [] || (LeadLength(s) > 0 && Utf8(s[LeadLength(s)..]))
  }

  lemma {:induction false} AsciiIsUtf8(s: seq<Byte>)
    requires forall i :: 0 <= i < |s| ==> s[i] < 0x80
    ensures Utf8(s)
  {
    if s != [] {
      AsciiIsUtf8(s[1..]);
    }
  }

  lemma DigitsAreText(n: nat)
    ensures Utf8(Print(n)) && SOH !in Print(n) && EQUALS !in Print(n)
  {
    PrintValue(n);
    AsciiIsUtf8(Print(n));
  }
}
