/** Encoding and decoding of whole messages (fix/codec.rs). */
module Codec {
  import opened Wrappers
  import opened Bytes
  import opened Parser
  import opened Message
  import opened Tags

  // ---------- Decoding: what the loops compute ----------

  /** The fold `parse_uint`; None when a checked build stops on overflow. */
  function ParseUint(build: Build, s: seq<Byte>): (r: Option<nat>)
    ensures r.Some? ==> r.value <= U32_MAX
  {
    if s == [] then Some(0)
    else
      var prefix := ParseUint(build, s[..|s| - 1]);
      if prefix.None? then None
      else
        var b := s[|s| - 1];
        match build
        case Checked =>
          if b < ZERO || prefix.value * 10 + (b - ZERO) > U32_MAX then None
          else Some(prefix.value * 10 + (b - ZERO))
        case Wrapping => Some((prefix.value * 10 + (b - ZERO) % 256) % (U32_MAX + 1))
  }

  datatype DecodeResult = Decoded(msg: RawMessage) | Malformed | Overflow

  predicate IsGroupTag(tag: nat)
  {
    MD_ENTRY_NO <= tag <= MD_ENTRY_TIME
  }

  /** A field either group parser lets pass: a group entry in UTF-8, or the trailer. */
  predicate IsGroupField(f: Field)
  {
    f.tag == CHECK_SUM || (IsGroupTag(f.tag) && Utf8(f.value))
  }

  /** The quote loop on the fields still to come. */
  function QuoteFold(msg: RawMessage, currSide: nat, px: Val, sz: Val, rest: seq<Field>): DecodeResult
    requires px.Pair? && sz.Pair?
    decreases |rest|
  {
    if rest == [] then Decoded(msg + [RawField(MD_ENTRY_PX, px), RawField(MD_ENTRY_SIZE, sz)])
    else
      var f, later := rest[0], rest[1..];
      if !IsGroupField(f) then Malformed
      else if f.tag == MD_ENTRY_PX then QuoteFold(msg, currSide, OnSide(px, currSide, f.value), sz, later)
      else if f.tag == MD_ENTRY_SIZE then QuoteFold(msg, currSide, px, OnSide(sz, currSide, f.value), later)
      else if f.tag == CHECK_SUM then QuoteFold(msg, currSide, px, sz, later)
      else QuoteFold(msg + [AsSingle(f)], if f.tag == MD_ENTRY_NO then MD_ENTRY_NO else currSide, px, sz, later)
  }

  function OnSide(pair: Val, currSide: nat, value: seq<Byte>): (r: Val)
    requires pair.Pair?
    ensures r.Pair?
  {
    if currSide == 0 then pair.(first := value) else pair.(second := value)
  }

  /** The trade loop on the fields still to come. */
  function TradeFold(msg: RawMessage, rest: seq<Field>): DecodeResult
    decreases |rest|
  {
    if rest == [] then Decoded(msg)
    else if !IsGroupField(rest[0]) then Malformed
    else TradeFold(if rest[0].tag == CHECK_SUM then msg else msg + [AsSingle(rest[0])], rest[1..])
  }

  function ParseQuoteFields(msg: RawMessage, tail: seq<Field>): DecodeResult
  {
    QuoteFold(msg, 0, Pair([], []), Pair([], []), tail)
  }

  /** What follows the first 268: a trade when its count is 1, a quote otherwise. */
  function ParseEntries(build: Build, msg: RawMessage, count: seq<Byte>, tail: seq<Field>): DecodeResult
  {
    match ParseUint(build, count)
    case None => Overflow
    case Some(n) => if n == 1 then TradeFold(msg, tail) else ParseQuoteFields(msg, tail)
  }

  /** `decode` from the cursor on. When no 268 turns up, the quote loop goes on from
      wherever the failed read left the cursor. */
  function DecodeFrom(build: Build, data: seq<Byte>, pos: nat, msg: RawMessage): DecodeResult
    requires pos <= |data|
    decreases |data| - pos
  {
    var step := FieldStep(data, pos);
    if step.field.None? then ParseQuoteFields(msg, FieldsFrom(data, step.pos))
    else
      var f := step.field.value;
      if !Utf8(f.value) then Malformed
      else if f.tag == MD_ENTRY_NO then
        ParseEntries(build, msg + [AsSingle(f)], f.value, FieldsFrom(data, step.pos))
      else DecodeFrom(build, data, step.pos, msg + [AsSingle(f)])
  }

  function DecodeBytes(build: Build, data: seq<Byte>): DecodeResult
  {
    DecodeFrom(build, data, 0, [])
  }

  // ---------- Decoding: the loops ----------

  method ParseQuote(parser: FixParser, msg: RawMessage) returns (r: DecodeResult)
    requires parser.pos <= |parser.data|
    modifies parser
    ensures r == ParseQuoteFields(msg, FieldsFrom(parser.data, old(parser.pos)))
  {
    var currSide := 0;
    var pxPair, szPair := Pair([], []), Pair([], []);
    var fields := msg;
    while true
      invariant parser.pos <= |parser.data| && pxPair.Pair? && szPair.Pair?
      invariant QuoteFold(fields, currSide, pxPair, szPair, FieldsFrom(parser.data, parser.pos))
                == ParseQuoteFields(msg, FieldsFrom(parser.data, old(parser.pos)))
      decreases |parser.data| - parser.pos
    {
      ghost var rest := FieldsFrom(parser.data, parser.pos);
      var field := parser.NextField();
      if field.None? {
        return Decoded(fields + [RawField(MD_ENTRY_PX, pxPair), RawField(MD_ENTRY_SIZE, szPair)]);
      }
      var f := field.value;
      assert rest[0] == f && rest[1..] == FieldsFrom(parser.data, parser.pos);
      if f.tag == CHECK_SUM {
      } else if !IsGroupTag(f.tag) || !Utf8(f.value) {
        return Malformed;
      } else if f.tag == MD_ENTRY_PX {
        pxPair := if currSide == 0 then pxPair.(first := f.value) else pxPair.(second := f.value);
      } else if f.tag == MD_ENTRY_SIZE {
        szPair := if currSide == 0 then szPair.(first := f.value) else szPair.(second := f.value);
      } else {
        if f.tag == MD_ENTRY_NO {
          currSide := MD_ENTRY_NO;
        }
        fields := fields + [AsSingle(f)];
      }
    }
  }

  method ParseTrade(parser: FixParser, msg: RawMessage) returns (r: DecodeResult)
    requires parser.pos <= |parser.data|
    modifies parser
    ensures r == TradeFold(msg, FieldsFrom(parser.data, old(parser.pos)))
  {
    var fields := msg;
    while true
      invariant parser.pos <= |parser.data|
      invariant TradeFold(fields, FieldsFrom(parser.data, parser.pos))
                == TradeFold(msg, FieldsFrom(parser.data, old(parser.pos)))
      decreases |parser.data| - parser.pos
    {
      ghost var rest := FieldsFrom(parser.data, parser.pos);
      var field := parser.NextField();
      if field.None? {
        return Decoded(fields);
      }
      var f := field.value;
      assert rest[0] == f && rest[1..] == FieldsFrom(parser.data, parser.pos);
      if f.tag == CHECK_SUM {
      } else if !IsGroupTag(f.tag) || !Utf8(f.value) {
        return Malformed;
      } else {
        fields := fields + [AsSingle(f)];
      }
    }
  }

  method Decode(build: Build, src: seq<Byte>) returns (r: DecodeResult)
    ensures r == DecodeBytes(build, src)
  {
    var parser := new FixParser(src);
    var msg: RawMessage := [];
    var isQuote := true;
    while true
      invariant parser.pos <= |src| && parser.data == src && isQuote
      invariant DecodeFrom(build, src, parser.pos, msg) == DecodeBytes(build, src)
      decreases |src| - parser.pos
    {
      var field := parser.NextField();
      if field.None? {
        break;
      }
      var f := field.value;
      if !Utf8(f.value) {
        return Malformed;
      }
      msg := msg + [AsSingle(f)];
      if f.tag == MD_ENTRY_NO {
        var count := ParseUint(build, f.value);
        if count.None? {
          return Overflow;
        }
        if count == Some(1) {
          isQuote := false;
        }
        break;
      }
    }
    if isQuote {
      r := ParseQuote(parser, msg);
    } else {
      r := ParseTrade(parser, msg);
    }
  }
}
