/** Turning a decoded message into a quote or a trade (types/types.rs), and whether the
    choice made there is the one the decoder made. */
module Ticks {
  import opened Wrappers
  import opened Bytes
  import opened Parser
  import opened Message
  import opened Tags
  import opened Codec

  /** Float and date-time reading are the libraries' business: `F` and `T` stand for their
      results, and the reader says what they make of a text. A date or time it cannot read
      makes the code panic. */
  datatype Reader<F, T> = Reader(float: seq<Byte> -> Option<F>, time: (seq<Byte>, seq<Byte>) -> Option<T>)

  datatype Tick<F, T> =
    | Quote(receiveTime: T, ticker: seq<Byte>, bidPrice: F, bidVol: nat, askPrice: F, askVol: nat)
    | Trade(receiveTime: T, ticker: seq<Byte>, price: F, vol: nat, tradeType: Option<nat>)

  datatype TickResult<F, T> = Ok(tick: Tick<F, T>) | NotValidVal | NotCompleteSnapshot(entries: int) | Panicked

  function AsU32(n: int): nat
  {
    n % (U32_MAX + 1)
  }

  function GetText(msg: RawMessage, tag: nat): Option<seq<Byte>>
  {
    match GetVal(msg, tag)
    case Some(Single(text)) => Some(text)
    case _ => None
  }

  function QuoteFromRaw<F, T>(r: Reader<F, T>, msg: RawMessage, symbol: seq<Byte>): TickResult<F, T>
  {
    match GetInt(msg, MD_ENTRY_NO)
    case None => NotValidVal
    case Some(entries) =>
      if entries != 2 then NotCompleteSnapshot(entries)
      else
        match (GetVal(msg, MD_ENTRY_PX), GetPairInt(msg, MD_ENTRY_SIZE),
               GetText(msg, MD_ENTRY_DATE), GetText(msg, MD_ENTRY_TIME))
        case (Some(Pair(bid, ask)), (Some(bidVol), Some(askVol)), Some(date), Some(time)) =>
          (match (r.float(bid), r.float(ask))
           case (Some(bidPx), Some(askPx)) =>
             (match r.time(date, time)
              case Some(at) => Ok(Quote(at, symbol, bidPx, AsU32(bidVol), askPx, AsU32(askVol)))
              case None => Panicked)
           case _ => NotValidVal)
        case _ => NotValidVal
  }

  function TradeFromRaw<F, T>(r: Reader<F, T>, msg: RawMessage, symbol: seq<Byte>): TickResult<F, T>
  {
    match (GetInt(msg, MD_ENTRY_SIZE), GetText(msg, MD_ENTRY_PX),
           GetText(msg, MD_ENTRY_DATE), GetText(msg, MD_ENTRY_TIME))
    case (Some(vol), Some(px), Some(date), Some(time)) =>
      (match r.float(px)
       case Some(price) =>
         var tradeType := match GetInt(msg, TRADE_TYPE) case Some(x) => Some(x % 256) case None => None;
         (match r.time(date, time)
          case Some(at) => Ok(Trade(at, symbol, price, AsU32(vol), tradeType))
          case None => Panicked)
       case None => NotValidVal)
    case _ => NotValidVal
  }

  predicate TradeBranch(msg: RawMessage)
  {
    GetInt(msg, MD_ENTRY_NO) == Some(1)
  }

  function FromRaw<F, T>(r: Reader<F, T>, msg: RawMessage, symbol: seq<Byte>): TickResult<F, T>
  {
    if TradeBranch(msg) then TradeFromRaw(r, msg, symbol) else QuoteFromRaw(r, msg, symbol)
  }

  // ---------- What comes of a message ----------

  /** A trade comes of a message whose first 268 is one, a quote of no other. */
  lemma TickKind<F, T>(r: Reader<F, T>, msg: RawMessage, symbol: seq<Byte>)
    ensures var result := FromRaw(r, msg, symbol);
      result.Ok? ==> (result.tick.Trade? <==> GetInt(msg, 268) == Some(1)) && result.tick.ticker == symbol
  {
  }

  predicate HasText(msg: RawMessage, tag: nat)
  {
    GetVal(msg, tag).Some? && GetVal(msg, tag).value.Single?
  }

  predicate HasPair(msg: RawMessage, tag: nat)
  {
    GetVal(msg, tag).Some? && GetVal(msg, tag).value.Pair?
  }

  function TextAt(msg: RawMessage, tag: nat): seq<Byte>
    requires HasText(msg, tag)
  {
    GetVal(msg, tag).value.text
  }

  function PairAt(msg: RawMessage, tag: nat): (seq<Byte>, seq<Byte>)
    requires HasPair(msg, tag)
  {
    (GetVal(msg, tag).value.first, GetVal(msg, tag).value.second)
  }

  /** A number is read off the first field with the tag, if that holds a single text. */
  lemma NumbersAre(msg: RawMessage, tag: nat)
    ensures GetInt(msg, tag) == if HasText(msg, tag) then ParseI32(TextAt(msg, tag)) else None
    ensures GetText(msg, tag) == if HasText(msg, tag) then Some(TextAt(msg, tag)) else None
  {
    hide GetVal, ParseInt;
  }

  /** A volume read as i32 is kept as u32: a negative one comes out 2^32 higher. */
  predicate KeptVolume(v: int, kept: nat)
  {
    kept == if v >= 0 then v else v + 4_294_967_296
  }

  /** A trade type is kept in a byte. */
  predicate KeptType(given: Option<int>, kept: Option<nat>)
  {
    match (given, kept)
    case (None, None) => true
    case (Some(x), Some(b)) => b < 256 && (x - b) % 256 == 0
    case _ => false
  }

  ghost predicate TradeIsComplete<F, T>(r: Reader<F, T>, msg: RawMessage)
  {
    && HasText(msg, 271) && ParseI32(TextAt(msg, 271)).Some?
    && HasText(msg, 270) && r.float(TextAt(msg, 270)).Some?
    && HasText(msg, 272) && HasText(msg, 273)
  }

  lemma VolumeRange(s: seq<Byte>)
    ensures ParseI32(s).Some? ==> -2_147_483_648 <= ParseI32(s).value <= 2_147_483_647
  {
  }

  /** What comes of a message whose first 268 is one, in every case: the trade its first 270,
      271, 272, 273 and 828 describe, a refusal, or a panic on a date that is none. */
  lemma TradeOutcome<F, T>(r: Reader<F, T>, msg: RawMessage, symbol: seq<Byte>)
    requires GetInt(msg, 268) == Some(1)
    ensures !TradeIsComplete(r, msg) <==> FromRaw(r, msg, symbol) == NotValidVal
    ensures TradeIsComplete(r, msg) ==>
      match r.time(TextAt(msg, 272), TextAt(msg, 273))
      case None => FromRaw(r, msg, symbol) == Panicked
      case Some(at) =>
        && FromRaw(r, msg, symbol).Ok?
        && var t := FromRaw(r, msg, symbol).tick;
        && t == Trade(at, symbol, r.float(TextAt(msg, 270)).value, t.vol, t.tradeType)
        && KeptVolume(ParseI32(TextAt(msg, 271)).value, t.vol) && KeptType(GetInt(msg, 828), t.tradeType)
  {
    hide ParseInt, GetVal;
    if HasText(msg, 271) {
      VolumeRange(TextAt(msg, 271));
    }
  }

  ghost predicate QuoteIsComplete<F, T>(r: Reader<F, T>, msg: RawMessage)
  {
    && HasPair(msg, 270) && r.float(PairAt(msg, 270).0).Some? && r.float(PairAt(msg, 270).1).Some?
    && HasPair(msg, 271) && ParseI32(PairAt(msg, 271).0).Some? && ParseI32(PairAt(msg, 271).1).Some?
    && HasText(msg, 272) && HasText(msg, 273)
  }

  /** What comes of any other message, in every case: without a count a refusal, with another
      count than two an incomplete snapshot, and with two the quote whose bid the pairs of 270
      and 271 hold first and whose ask they hold second. */
  lemma QuoteOutcome<F, T>(r: Reader<F, T>, msg: RawMessage, symbol: seq<Byte>)
    requires GetInt(msg, 268) != Some(1)
    ensures GetInt(msg, 268) == None ==> FromRaw(r, msg, symbol) == NotValidVal
    ensures forall n :: GetInt(msg, 268) == Some(n) && n != 2 ==> FromRaw(r, msg, symbol) == NotCompleteSnapshot(n)
    ensures GetInt(msg, 268) == Some(2) ==> (!QuoteIsComplete(r, msg) <==> FromRaw(r, msg, symbol) == NotValidVal)
    ensures GetInt(msg, 268) == Some(2) && QuoteIsComplete(r, msg) ==>
      match r.time(TextAt(msg, 272), TextAt(msg, 273))
      case None => FromRaw(r, msg, symbol) == Panicked
      case Some(at) =>
        && FromRaw(r, msg, symbol).Ok?
        && var q := FromRaw(r, msg, symbol).tick;
        && q == Quote(at, symbol, r.float(PairAt(msg, 270).0).value, q.bidVol, r.float(PairAt(msg, 270).1).value, q.askVol)
        && KeptVolume(ParseI32(PairAt(msg, 271).0).value, q.bidVol)
        && KeptVolume(ParseI32(PairAt(msg, 271).1).value, q.askVol)
  {
    hide ParseInt, GetVal;
    if HasPair(msg, 271) {
      VolumeRange(PairAt(msg, 271).0);
      VolumeRange(PairAt(msg, 271).1);
    }
  }

  // ---------- The decoder's choice ----------

  /** Where the decoder's own loop stops: at the first 268, with its value, or at the first
      read that yields nothing. */
  datatype HeadEnd = HeadEnd(count: Option<seq<Byte>>, pos: nat)

  function HeadScan(data: seq<Byte>, pos: nat): (h: HeadEnd)
    requires pos <= |data|
    ensures pos <= h.pos <= |data|
    decreases |data| - pos
  {
    var step := FieldStep(data, pos);
    if step.field.None? then HeadEnd(None, step.pos)
    else if step.field.value.tag == MD_ENTRY_NO then HeadEnd(Some(step.field.value.value), step.pos)
    else HeadScan(data, step.pos)
  }

  predicate RanTrade(build: Build, data: seq<Byte>)
  {
    var h := HeadScan(data, 0);
    h.count.Some? && ParseUint(build, h.count.value) == Some(1)
  }

  lemma {:induction false} QuoteFoldLookup(msg: RawMessage, side: nat, px: Val, sz: Val, rest: seq<Field>)
    requires px.Pair? && sz.Pair? && QuoteFold(msg, side, px, sz, rest).Decoded?
    ensures GetVal(QuoteFold(msg, side, px, sz, rest).msg, MD_ENTRY_NO) == GetVal(msg + Singles(rest), MD_ENTRY_NO)
    decreases |rest|
  {
    if rest == [] {
      GetValConcat(msg, [RawField(MD_ENTRY_PX, px), RawField(MD_ENTRY_SIZE, sz)], MD_ENTRY_NO);
      GetValAbsent([RawField(MD_ENTRY_PX, px), RawField(MD_ENTRY_SIZE, sz)], MD_ENTRY_NO);
      assert msg + [] == msg;
    } else {
      var f, later := rest[0], rest[1..];
      SkipOther(msg, f, later);
      if f.tag == MD_ENTRY_PX {
        QuoteFoldLookup(msg, side, OnSide(px, side, f.value), sz, later);
      } else if f.tag == MD_ENTRY_SIZE {
        QuoteFoldLookup(msg, side, px, OnSide(sz, side, f.value), later);
      } else if f.tag == CHECK_SUM {
        QuoteFoldLookup(msg, side, px, sz, later);
      } else {
        QuoteFoldLookup(msg + [AsSingle(f)], if f.tag == MD_ENTRY_NO then MD_ENTRY_NO else side, px, sz, later);
      }
    }
  }

  lemma {:induction false} TradeFoldLookup(msg: RawMessage, rest: seq<Field>)
    requires TradeFold(msg, rest).Decoded?
    ensures GetVal(TradeFold(msg, rest).msg, MD_ENTRY_NO) == GetVal(msg + Singles(rest), MD_ENTRY_NO)
    decreases |rest|
  {
    if rest == [] {
      assert msg + [] == msg;
    } else {
      SkipOther(msg, rest[0], rest[1..]);
      TradeFoldLookup(if rest[0].tag == CHECK_SUM then msg else msg + [AsSingle(rest[0])], rest[1..]);
    }
  }

  lemma SkipOther(msg: RawMessage, f: Field, later: seq<Field>)
    ensures msg + Singles([f] + later) == msg + [AsSingle(f)] + Singles(later)
    ensures f.tag != MD_ENTRY_NO ==>
      GetVal(msg + Singles([f] + later), MD_ENTRY_NO) == GetVal(msg + Singles(later), MD_ENTRY_NO)
  {
    assert ([f] + later)[1..] == later;
    GetValConcat(msg + [AsSingle(f)], Singles(later), MD_ENTRY_NO);
    GetValConcat(msg, [AsSingle(f)], MD_ENTRY_NO);
    GetValConcat(msg, Singles(later), MD_ENTRY_NO);
    GetValAbsent([AsSingle(f)], MD_ENTRY_NO);
  }

  /** The first 268 of a decoded message is the one the decoder stopped at; had it stopped
      at none, it is whatever the quote loop found from where the cursor was left. */
  lemma {:induction false} FirstEntryOf(build: Build, data: seq<Byte>, pos: nat, msg: RawMessage)
    requires pos <= |data| && GetVal(msg, MD_ENTRY_NO) == None
    requires DecodeFrom(build, data, pos, msg).Decoded?
    ensures var h := HeadScan(data, pos);
      GetVal(DecodeFrom(build, data, pos, msg).msg, MD_ENTRY_NO)
      == if h.count.Some? then Some(Single(h.count.value))
         else GetVal(Singles(FieldsFrom(data, h.pos)), MD_ENTRY_NO)
    ensures HeadScan(data, pos).count.Some? ==> ParseUint(build, HeadScan(data, pos).count.value).Some?
    decreases |data| - pos
  {
    hide FieldStep, QuoteFold, TradeFold, FieldsFrom, Singles;
    var step := FieldStep(data, pos);
    var tail := FieldsFrom(data, step.pos);
    GetValConcat(msg, Singles(tail), MD_ENTRY_NO);
    if step.field.None? {
      QuoteFoldLookup(msg, 0, Pair([], []), Pair([], []), tail);
    } else {
      var f := step.field.value;
      var more := msg + [AsSingle(f)];
      GetValConcat(msg, [AsSingle(f)], MD_ENTRY_NO);
      GetValAbsent([AsSingle(f)], MD_ENTRY_NO);
      if f.tag == MD_ENTRY_NO {
        GetValConcat(more, Singles(tail), MD_ENTRY_NO);
        if ParseUint(build, f.value) == Some(1) {
          TradeFoldLookup(more, tail);
        } else {
          QuoteFoldLookup(more, 0, Pair([], []), Pair([], []), tail);
        }
      } else {
        FirstEntryOf(build, data, step.pos, more);
      }
    }
  }

  // ---------- Two readings of one count ----------

  lemma {:induction false} CheckedUint(s: seq<Byte>)
    requires ParseUint(Checked, s).Some?
    ensures forall i :: 0 <= i < |s| ==> s[i] >= ZERO
    ensures AllDigits(s) ==> ParseUint(Checked, s) == Some(Value(s))
    ensures !AllDigits(s) ==> ParseUint(Checked, s).value >= 10
  {
    if s != [] {
      var n := |s| - 1;
      CheckedUint(s[..n]);
      assert s == s[..n] + [s[n]];
    }
  }

  lemma OneAsI32(s: seq<Byte>)
    requires s == [] || s[0] != PLUS
    ensures ParseI32(s) == Some(1) <==> AllDigits(s) && Value(s) == 1
  {
    hide AllDigits, Value;
    if s == [] {
      EmptyValue();
    } else if s[0] == MINUS {
      NoMinus(s);
    }
  }

  lemma NoMinus(s: seq<Byte>)
    requires s != [] && s[0] == MINUS
    ensures !AllDigits(s)
  {
  }

  lemma EmptyValue()
    ensures Value([]) == 0
  {
  }

  /** What the fold adds up, before any overflow: bytes below `0` count as if they wrapped. */
  function Radix(s: seq<Byte>): nat
  {
    if s == [] then 0 else 10 * Radix(s[..|s| - 1]) + (s[|s| - 1] - ZERO) % 256
  }

  /** In a wrapping build the fold is that sum modulo 2^32, whatever the bytes. */
  lemma {:induction false} WrapOf(s: seq<Byte>)
    ensures ParseUint(Wrapping, s) == Some(Radix(s) % (U32_MAX + 1))
  {
    if s != [] {
      var front, digit := s[..|s| - 1], (s[|s| - 1] - ZERO) % 256;
      WrapOf(front);
      ShiftDigit(Radix(front), digit);
    }
  }

  lemma ShiftDigit(v: nat, d: nat)
    ensures (v % (U32_MAX + 1) * 10 + d) % (U32_MAX + 1) == (10 * v + d) % (U32_MAX + 1)
  {
    var m := U32_MAX + 1;
    var q := v / m;
    assert v == m * q + v % m;
    DropMultiple(v % m * 10 + d, 10 * q);
  }

  lemma DropMultiple(x: nat, k: nat)
    ensures (x + (U32_MAX + 1) * k) % (U32_MAX + 1) == x % (U32_MAX + 1)
  {
  }

  lemma {:induction false} RadixOfDigits(s: seq<Byte>)
    requires AllDigits(s)
    ensures Radix(s) == Value(s)
  {
    if s != [] {
      RadixOfDigits(s[..|s| - 1]);
    }
  }

  /** A leading plus sign counts 251 at its place. */
  lemma {:induction false} RadixOfSigned(digits: seq<Byte>)
    requires AllDigits(digits)
    ensures Radix([PLUS] + digits) == 251 * Pow10(|digits|) + Value(digits)
  {
    var s := [PLUS] + digits;
    if digits == [] {
      assert s[..0] == [];
    } else {
      var front := digits[..|digits| - 1];
      assert s[..|s| - 1] == [PLUS] + front;
      RadixOfSigned(front);
    }
  }

  function Pow2(k: nat): nat
  {
    if k == 0 then 1 else 2 * Pow2(k - 1)
  }

  /** 251 * 10^k is an odd multiple of 2^k. */
  lemma {:induction false} SignWeight(k: nat) returns (odd: nat)
    ensures 251 * Pow10(k) == Pow2(k) * odd && odd % 2 == 1
  {
    if k == 0 {
      odd := 251;
    } else {
      var o := SignWeight(k - 1);
      odd := 5 * o;
      calc {
        251 * Pow10(k);
        10 * (251 * Pow10(k - 1));
        10 * (Pow2(k - 1) * o);
        { TenIsTwoFives(Pow2(k - 1), o); }
        2 * Pow2(k - 1) * (5 * o);
      }
    }
  }

  lemma TenIsTwoFives(p: nat, o: nat)
    ensures 10 * (p * o) == 2 * p * (5 * o)
  {
  }

  lemma {:induction false} PowSum(a: nat, b: nat)
    ensures Pow2(a + b) == Pow2(a) * Pow2(b)
  {
    if a > 0 {
      PowSum(a - 1, b);
      Regroup(Pow2(a - 1), Pow2(b));
    }
  }

  lemma Regroup(p: nat, q: nat)
    ensures 2 * (p * q) == 2 * p * q
  {
  }

  lemma Pow32()
    ensures Pow2(32) == U32_MAX + 1
  {
    assert Pow2(8) == 256 && Pow2(16) == 65536 && Pow2(24) == 16777216;
  }

  lemma {:induction false} PowTwoPositive(k: nat)
    ensures Pow2(k) > 0
  {
    if k > 0 {
      PowTwoPositive(k - 1);
    }
  }

  /** An odd multiple of 2^k is a multiple of 2^32 exactly when k is at least 32. */
  lemma OddMultiple(k: nat, odd: nat)
    requires odd % 2 == 1
    ensures (Pow2(k) * odd) % (U32_MAX + 1) == 0 <==> k >= 32
  {
    Pow32();
    hide Pow2;
    var m := U32_MAX + 1;
    var x := Pow2(k) * odd;
    if k >= 32 {
      PowSum(32, k - 32);
      Associate(m, Pow2(k - 32), odd);
      DropMultiple(0, Pow2(k - 32) * odd);
    } else if x % m == 0 {
      var t := x / m;
      PowSum(k, 32 - k);
      Associate(Pow2(k), Pow2(32 - k), t);
      assert Pow2(k) * odd == Pow2(k) * (Pow2(32 - k) * t);
      PowTwoPositive(k);
      CancelFactor(Pow2(k), odd, Pow2(32 - k) * t);
      EvenPower(32 - k, t);
      assert false;
    }
  }

  lemma Associate(a: nat, b: nat, c: nat)
    ensures a * b * c == a * (b * c)
  {
  }

  lemma CancelFactor(p: nat, a: nat, b: nat)
    requires p > 0 && p * a == p * b
    ensures a == b
  {
    if a < b {
      Grows(p, a, b);
    } else if b < a {
      Grows(p, b, a);
    }
  }

  lemma Grows(p: nat, a: nat, b: nat)
    requires p > 0 && a < b
    ensures p * a < p * b
  {
    assert p * b == p * a + p * (b - a);
  }

  lemma EvenPower(k: nat, t: nat)
    requires k > 0
    ensures Pow2(k) * t % 2 == 0
  {
    assert Pow2(k) * t == 2 * (Pow2(k - 1) * t) by { Regroup(Pow2(k - 1), t); }
  }

  /** The text without a leading plus sign. */
  function Unsigned(s: seq<Byte>): seq<Byte>
  {
    if s != [] && s[0] == PLUS then s[1..] else s
  }

  /** When a build reads a count as one exactly if the i32 parse does. A checked build always
      does; a wrapping one sees through a plus sign only from 32 digits on, and must not come
      to one on a text that is no numeral of one. */
  predicate CountIsSound(build: Build, s: seq<Byte>)
  {
    || build == Checked
    || (if AllDigits(Unsigned(s)) && Value(Unsigned(s)) == 1 then Unsigned(s) == s || |s| > 32
        else Radix(s) % (U32_MAX + 1) != 1)
  }

  lemma SignedOne(s: seq<Byte>)
    requires s != [] && s[0] == PLUS
    ensures ParseI32(s) == Some(1) <==> AllDigits(s[1..]) && Value(s[1..]) == 1
  {
    hide AllDigits, Value;
    EmptyValue();
  }

  /** A plus sign before a numeral of one leaves a one exactly from 32 digits on. */
  lemma SignedRadix(digits: seq<Byte>)
    requires AllDigits(digits) && Value(digits) == 1
    ensures Radix([PLUS] + digits) % (U32_MAX + 1) == 1 <==> |digits| >= 32
  {
    hide Value, Radix, Pow2;
    RadixOfSigned(digits);
    var odd := SignWeight(|digits|);
    OddMultiple(|digits|, odd);
    OneMore(Pow2(|digits|) * odd);
  }

  lemma OneMore(x: nat)
    ensures (x + 1) % (U32_MAX + 1) == 1 <==> x % (U32_MAX + 1) == 0
  {
  }

  /** A count of one: for every text a build gets through, the fold and the i32 parse agree
      exactly when the count is sound. */
  lemma CountsAgree(build: Build, s: seq<Byte>)
    requires ParseUint(build, s).Some?
    ensures (ParseUint(build, s) == Some(1) <==> ParseI32(s) == Some(1)) <==> CountIsSound(build, s)
  {
    hide ParseUint, ParseInt, Value, Radix;
    if build == Checked {
      CheckedUint(s);
      OneAsI32(s);
    } else {
      WrapOf(s);
      if s != [] && s[0] == PLUS {
        SignedOne(s);
        assert [PLUS] + s[1..] == s;
        if AllDigits(s[1..]) && Value(s[1..]) == 1 {
          SignedRadix(s[1..]);
        }
      } else {
        OneAsI32(s);
        if AllDigits(s) {
          RadixOfDigits(s);
        }
      }
    }
  }

  /** On digits alone a wrapping build errs exactly on the numerals of one modulo 2^32. */
  lemma DigitCountsAgree(s: seq<Byte>)
    requires AllDigits(s)
    ensures (ParseUint(Wrapping, s) == Some(1) <==> ParseI32(s) == Some(1))
      <==> (Value(s) == 1 || Value(s) % (U32_MAX + 1) != 1)
  {
    hide ParseUint, ParseInt, Value, Radix;
    WrapOf(s);
    RadixOfDigits(s);
    OneAsI32(s);
  }

  // ---------- The two choices ----------

  /** The decoder gave up with the cursor on a digit: the tag it was reading overflowed. */
  predicate StoppedMidDigits(data: seq<Byte>, pos: nat)
  {
    pos < |data| && IsDigit(data[pos])
  }

  /** Where no tag overflowed, a second read finds nothing either. */
  lemma NothingLeft(data: seq<Byte>, pos: nat)
    requires pos <= |data| && FieldStep(data, pos).field.None?
    requires !StoppedMidDigits(data, FieldStep(data, pos).pos)
    ensures FieldsFrom(data, FieldStep(data, pos).pos) == []
  {
    StuckOffDigits(data, pos, 0);
  }

  lemma {:induction false} StuckOffDigits(data: seq<Byte>, pos: nat, tag: nat)
    requires pos <= |data|
    ensures var r := ScanTag(data, pos, tag);
      r.Stuck? ==> r.pos < |data| && data[r.pos] != EQUALS
    decreases |data| - pos
  {
    if pos < |data| && IsDigit(data[pos]) && tag * 10 + (data[pos] - 48) <= U32_MAX {
      StuckOffDigits(data, pos + 1, tag * 10 + (data[pos] - 48));
    }
  }

  lemma {:induction false} NothingAfterHead(data: seq<Byte>, pos: nat)
    requires pos <= |data| && HeadScan(data, pos).count.None?
    requires !StoppedMidDigits(data, HeadScan(data, pos).pos)
    ensures FieldsFrom(data, HeadScan(data, pos).pos) == []
    decreases |data| - pos
  {
    hide FieldStep, FieldsFrom;
    if FieldStep(data, pos).field.None? {
      NothingLeft(data, pos);
    } else {
      NothingAfterHead(data, FieldStep(data, pos).pos);
    }
  }

  lemma {:induction false} QuoteEndsInPairs(msg: RawMessage, side: nat, px: Val, sz: Val, rest: seq<Field>)
    requires px.Pair? && sz.Pair? && QuoteFold(msg, side, px, sz, rest).Decoded?
    ensures !AllSingle(QuoteFold(msg, side, px, sz, rest).msg)
    decreases |rest|
  {
    if rest == [] {
      var ended := msg + [RawField(MD_ENTRY_PX, px), RawField(MD_ENTRY_SIZE, sz)];
      assert ended[|msg|].val.Pair? && ended[|msg|] in ended;
    } else {
      var f, later := rest[0], rest[1..];
      if f.tag == MD_ENTRY_PX {
        QuoteEndsInPairs(msg, side, OnSide(px, side, f.value), sz, later);
      } else if f.tag == MD_ENTRY_SIZE {
        QuoteEndsInPairs(msg, side, px, OnSide(sz, side, f.value), later);
      } else if f.tag == CHECK_SUM {
        QuoteEndsInPairs(msg, side, px, sz, later);
      } else {
        QuoteEndsInPairs(msg + [AsSingle(f)], if f.tag == MD_ENTRY_NO then MD_ENTRY_NO else side, px, sz, later);
      }
    }
  }

  lemma {:induction false} TradeKeepsSingles(msg: RawMessage, rest: seq<Field>)
    requires TradeFold(msg, rest).Decoded? && AllSingle(msg)
    ensures AllSingle(TradeFold(msg, rest).msg)
    decreases |rest|
  {
    if rest != [] {
      TradeKeepsSingles(if rest[0].tag == CHECK_SUM then msg else msg + [AsSingle(rest[0])], rest[1..]);
    }
  }

  lemma {:induction false} RanTradeFrom(build: Build, data: seq<Byte>, pos: nat, msg: RawMessage)
    requires pos <= |data| && AllSingle(msg) && DecodeFrom(build, data, pos, msg).Decoded?
    ensures AllSingle(DecodeFrom(build, data, pos, msg).msg)
      <==> (var count := HeadScan(data, pos).count; count.Some? && ParseUint(build, count.value) == Some(1))
    decreases |data| - pos
  {
    hide FieldStep, QuoteFold, TradeFold, FieldsFrom, ParseUint;
    var step := FieldStep(data, pos);
    var tail := FieldsFrom(data, step.pos);
    if step.field.None? {
      QuoteEndsInPairs(msg, 0, Pair([], []), Pair([], []), tail);
    } else {
      var f := step.field.value;
      var more := msg + [AsSingle(f)];
      if f.tag != MD_ENTRY_NO {
        RanTradeFrom(build, data, step.pos, more);
      } else if ParseUint(build, f.value) == Some(1) {
        TradeKeepsSingles(more, tail);
      } else {
        QuoteEndsInPairs(more, 0, Pair([], []), Pair([], []), tail);
      }
    }
  }

  /** The trade loop leaves single values only, the quote loop two pairs: which of them ran can
      be read off the decoded message. */
  lemma RanTradeShows(build: Build, data: seq<Byte>)
    requires DecodeBytes(build, data).Decoded?
    ensures RanTrade(build, data) <==> AllSingle(DecodeBytes(build, data).msg)
  {
    hide DecodeFrom, HeadScan, ParseUint;
    RanTradeFrom(build, data, 0, []);
  }

  /** What `Tick::from_raw` makes of a decoded message is what it makes of a trade where the
      decoder ran its trade loop, and of a quote where it ran the other: exactly when the count
      it met is sound or, if it met none, when no tag overflow left it mid-digits with a first
      268 of value 1 to be read from there. Otherwise it is the other way round. */
  lemma BranchesAgree<F, T>(build: Build, data: seq<Byte>, r: Reader<F, T>, symbol: seq<Byte>)
    requires DecodeBytes(build, data).Decoded?
    ensures var h, msg := HeadScan(data, 0), DecodeBytes(build, data).msg;
      var agree := match h.count
        case Some(count) => CountIsSound(build, count)
        case None => !(StoppedMidDigits(data, h.pos) && GetInt(Singles(FieldsFrom(data, h.pos)), 268) == Some(1));
      && ((GetInt(msg, 268) == Some(1) <==> RanTrade(build, data)) <==> agree)
      && FromRaw(r, msg, symbol)
         == if RanTrade(build, data) == agree then TradeFromRaw(r, msg, symbol) else QuoteFromRaw(r, msg, symbol)
  {
    hide DecodeFrom, FieldsFrom, ParseUint, ParseInt, Singles, HeadScan, CountIsSound, StoppedMidDigits, TradeFromRaw, QuoteFromRaw;
    FirstEntryOf(build, data, 0, []);
    var h := HeadScan(data, 0);
    if h.count.Some? {
      CountsAgree(build, h.count.value);
    } else if !StoppedMidDigits(data, h.pos) {
      NothingAfterHead(data, 0);
      NoEntries();
    }
  }

  lemma NoEntries()
    ensures GetVal(Singles([]), MD_ENTRY_NO) == None
  {
  }

  /** Without an overflowing tag the choices always agree, in a checked build whatever the
      count, in a wrapping one if it is sound: a trade comes only of the trade loop, a quote
      only of the quote loop. */
  lemma AgreeWithoutOverflow<F, T>(build: Build, data: seq<Byte>, r: Reader<F, T>, symbol: seq<Byte>)
    requires DecodeBytes(build, data).Decoded?
    requires match HeadScan(data, 0).count
             case Some(count) => CountIsSound(build, count)
             case None => !StoppedMidDigits(data, HeadScan(data, 0).pos)
    ensures var msg := DecodeBytes(build, data).msg;
      && (GetInt(msg, 268) == Some(1) <==> RanTrade(build, data))
      && (FromRaw(r, msg, symbol).Ok? ==> (FromRaw(r, msg, symbol).tick.Trade? <==> RanTrade(build, data)))
  {
    hide RanTrade, HeadScan, DecodeFrom, FieldsFrom, CountIsSound, GetInt;
    BranchesAgree(build, data, r, symbol);
    TickKind(r, DecodeBytes(build, data).msg, symbol);
  }

  /** In a wrapping build a signed or an overlong count is read as something else. */
  lemma WrappingCountsDiffer()
    ensures ParseUint(Wrapping, [PLUS, 49]) != Some(1) && ParseI32([PLUS, 49]) == Some(1)
    ensures ParseUint(Wrapping, Print(4294967297)) == Some(1) && ParseI32(Print(4294967297)) == None
  {
    hide Print, ParseUint, ParseInt;
    SignedCount();
    PrintValue(4294967297);
    OverlongCount(Print(4294967297));
  }

  lemma OverlongCount(s: seq<Byte>)
    requires s != [] && AllDigits(s) && Value(s) == U32_MAX + 2
    ensures ParseUint(Wrapping, s) == Some(1) && ParseI32(s) == None
  {
    hide ParseUint;
    WrapOf(s);
    RadixOfDigits(s);
    assert IsDigit(s[0]);
  }

  lemma SignedCount()
    ensures ParseUint(Wrapping, [PLUS, 49]) != Some(1) && ParseI32([PLUS, 49]) == Some(1)
  {
    assert [PLUS, 49][..1] == [PLUS] && [PLUS][..0] == [] && [PLUS, 49][1..] == [49];
    assert ParseUint(Wrapping, [PLUS]) == Some(251);
    assert [49][..0] == [] && Value([49]) == 1;
  }

  /** `4294967295268=1` and SOH. */
  const OVERLONG: seq<Byte> := [52, 50, 57, 52, 57, 54, 55, 50, 57, 53, 50, 54, 56, 61, 49, 1]

  /** After a tag that overflows, the cursor stands mid-digits: the quote loop then reads a
      268 the decoder never met, and the two choices differ. */
  lemma OverlongTagSplitsTheChoice(build: Build)
    ensures DecodeBytes(build, OVERLONG).Decoded?
    ensures GetInt(DecodeBytes(build, OVERLONG).msg, 268) == Some(1) && !RanTrade(build, OVERLONG)
  {
    OverlongSteps();
    OverlongRest();
    hide FieldStep;
    var f := Field(MD_ENTRY_NO, [49]);
    assert FieldsFrom(OVERLONG, 10) == [f] + FieldsFrom(OVERLONG, 16) && FieldsFrom(OVERLONG, 16) == [];
    assert [f] + [] == [f] && [f][1..] == [];
    AsciiIsUtf8([49]);
    QuoteOfOne(f);
    assert [49][..0] == [] && Value([49]) == 1;
  }

  lemma QuoteOfOne(f: Field)
    requires f.tag == MD_ENTRY_NO && Utf8(f.value)
    ensures ParseQuoteFields([], [f]).Decoded?
    ensures GetVal(ParseQuoteFields([], [f]).msg, MD_ENTRY_NO) == Some(Single(f.value))
  {
    assert [f][1..] == [] && [] + [AsSingle(f)] == [AsSingle(f)];
    assert QuoteFold([AsSingle(f)], MD_ENTRY_NO, Pair([], []), Pair([], []), []).Decoded?;
    assert QuoteFold([], 0, Pair([], []), Pair([], []), [f])
        == QuoteFold([AsSingle(f)], MD_ENTRY_NO, Pair([], []), Pair([], []), []);
    assert GetVal([AsSingle(f)], MD_ENTRY_NO) == Some(Single(f.value));
  }

  lemma OverlongSteps()
    ensures FieldStep(OVERLONG, 0) == Step(None, 10)
  {
    var d := OVERLONG;
    assert ScanTag(d, 10, 4294967295) == Stuck(10);
    assert ScanTag(d, 8, 42949672) == Stuck(10);
    assert ScanTag(d, 6, 429496) == Stuck(10);
    assert ScanTag(d, 4, 4294) == Stuck(10);
    assert ScanTag(d, 2, 42) == Stuck(10);
    assert ScanTag(d, 0, 0) == Stuck(10);
  }

  lemma OverlongRest()
    ensures FieldStep(OVERLONG, 10) == Step(Some(Field(268, [49])), 16)
    ensures FieldStep(OVERLONG, 16) == Step(None, 16)
  {
    var d := OVERLONG;
    assert ScanTag(d, 13, 268) == Tag(268, 13);
    assert ScanTag(d, 11, 2) == Tag(268, 13);
    assert Find(d, 14, SOH) == 15;
    assert d[14..15] == [49];
  }
}
