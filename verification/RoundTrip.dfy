/** What decoding gives back: leg assignment, and decoding of encodings (fix/codec.rs). */
module RoundTrip {
  import opened Wrappers
  import opened Bytes
  import opened Parser
  import opened Message
  import opened Tags
  import opened Codec
  import opened Encoder

  // ---------- The group loops, declaratively ----------

  /** Fields whose tag is in `tags`, in order. */
  function Only(fields: seq<Field>, tags: set<nat>): seq<Field>
  {
    if fields == [] then []
    else if fields[0].tag in tags then [fields[0]] + Only(fields[1..], tags)
    else Only(fields[1..], tags)
  }

  /** Value of the last field with this tag, or `otherwise` when there is none. */
  function LastValue(fields: seq<Field>, tag: nat, otherwise: seq<Byte>): seq<Byte>
  {
    if fields == [] then otherwise
    else LastValue(fields[1..], tag, if fields[0].tag == tag then fields[0].value else otherwise)
  }

  predicate AllGroupFields(fields: seq<Field>)
  {
    fields == [] || (IsGroupField(fields[0]) && AllGroupFields(fields[1..]))
  }

  /** A group holds the entry fields 268 to 273, in UTF-8, and the trailer. */
  lemma {:induction false} GroupFieldsAre(fields: seq<Field>)
    ensures AllGroupFields(fields)
      <==> forall f :: f in fields ==> f.tag == 10 || (f.tag in {268, 269, 270, 271, 272, 273} && Utf8(f.value))
  {
    hide Utf8;
    if fields != [] {
      GroupFieldsAre(fields[1..]);
      assert fields == [fields[0]] + fields[1..];
      assert forall f :: f in fields <==> f == fields[0] || f in fields[1..];
    }
  }

  predicate NoEntry(fields: seq<Field>)
  {
    fields == [] || (fields[0].tag != MD_ENTRY_NO && NoEntry(fields[1..]))
  }

  const QUOTE_SINGLES: set<nat> := {MD_ENTRY_NO, MD_ENTRY_TYPE, MD_ENTRY_DATE, MD_ENTRY_TIME}
  const TRADE_SINGLES: set<nat> := {MD_ENTRY_NO, MD_ENTRY_TYPE, MD_ENTRY_PX, MD_ENTRY_SIZE, MD_ENTRY_DATE, MD_ENTRY_TIME}

  function LegPair(first: seq<Field>, second: seq<Field>, tag: nat): RawField
  {
    RawField(tag, Pair(LastValue(first, tag, []), LastValue(second, tag, [])))
  }

  lemma AppendSingle(msg: RawMessage, f: Field, later: seq<Field>)
    ensures msg + [AsSingle(f)] + Singles(later) == msg + Singles([f] + later)
  {
    assert ([f] + later)[1..] == later;
  }

  /** Until a 268 turns up, leg values go to the first side. */
  lemma {:induction false} FirstLegFold(msg: RawMessage, px: Val, sz: Val, leg: seq<Field>, rest: seq<Field>)
    requires px.Pair? && sz.Pair? && AllGroupFields(leg) && NoEntry(leg)
    ensures QuoteFold(msg, 0, px, sz, leg + rest)
            == QuoteFold(msg + Singles(Only(leg, QUOTE_SINGLES)), 0,
                         px.(first := LastValue(leg, MD_ENTRY_PX, px.first)),
                         sz.(first := LastValue(leg, MD_ENTRY_SIZE, sz.first)), rest)
    decreases |leg|
  {
    if leg == [] {
      assert leg + rest == rest && msg + [] == msg;
    } else {
      var f, later := leg[0], leg[1..];
      assert (leg + rest)[0] == f && (leg + rest)[1..] == later + rest;
      if f.tag == MD_ENTRY_PX {
        FirstLegFold(msg, px.(first := f.value), sz, later, rest);
      } else if f.tag == MD_ENTRY_SIZE {
        FirstLegFold(msg, px, sz.(first := f.value), later, rest);
      } else if f.tag == CHECK_SUM {
        FirstLegFold(msg, px, sz, later, rest);
      } else {
        FirstLegFold(msg + [AsSingle(f)], px, sz, later, rest);
        AppendSingle(msg, f, Only(later, QUOTE_SINGLES));
      }
    }
  }

  /** Once a 268 has been seen, leg values go to the second side, to the end. */
  lemma {:induction false} SecondLegFold(msg: RawMessage, px: Val, sz: Val, leg: seq<Field>)
    requires px.Pair? && sz.Pair? && AllGroupFields(leg)
    ensures QuoteFold(msg, MD_ENTRY_NO, px, sz, leg)
            == Decoded(msg + Singles(Only(leg, QUOTE_SINGLES))
                       + [RawField(MD_ENTRY_PX, px.(second := LastValue(leg, MD_ENTRY_PX, px.second))),
                          RawField(MD_ENTRY_SIZE, sz.(second := LastValue(leg, MD_ENTRY_SIZE, sz.second)))])
    decreases |leg|
  {
    if leg == [] {
      assert msg + [] == msg;
    } else {
      var f, later := leg[0], leg[1..];
      if f.tag == MD_ENTRY_PX {
        SecondLegFold(msg, px.(second := f.value), sz, later);
      } else if f.tag == MD_ENTRY_SIZE {
        SecondLegFold(msg, px, sz.(second := f.value), later);
      } else if f.tag == CHECK_SUM {
        SecondLegFold(msg, px, sz, later);
      } else {
        SecondLegFold(msg + [AsSingle(f)], px, sz, later);
        AppendSingle(msg, f, Only(later, QUOTE_SINGLES));
      }
    }
  }

  /** The last of several fields with a tag is the one that stays. */
  lemma {:induction false} LastValueIs(front: seq<Field>, last: Field, back: seq<Field>, otherwise: seq<Byte>)
    requires forall f :: f in back ==> f.tag != last.tag
    ensures LastValue(front + [last] + back, last.tag, otherwise) == last.value
    decreases |front|
  {
    if front == [] {
      assert front + [last] + back == [last] + back && ([last] + back)[1..] == back;
      NoValue(back, last.tag, last.value);
    } else {
      assert (front + [last] + back)[1..] == front[1..] + [last] + back;
      LastValueIs(front[1..], last, back, if front[0].tag == last.tag then front[0].value else otherwise);
    }
  }

  lemma {:induction false} NoValue(fields: seq<Field>, tag: nat, otherwise: seq<Byte>)
    requires forall f :: f in fields ==> f.tag != tag
    ensures LastValue(fields, tag, otherwise) == otherwise
  {
    if fields != [] {
      NoValue(fields[1..], tag, otherwise);
    }
  }

  /** Quote leg assignment: with a 268 between two legs, each side of the price and size
      pairs holds the last value of its own leg, empty when the leg has none. */
  lemma QuoteLegs(msg: RawMessage, first: seq<Field>, entry: Field, second: seq<Field>)
    requires AllGroupFields(first) && NoEntry(first)
    requires entry.tag == MD_ENTRY_NO && Utf8(entry.value) && AllGroupFields(second)
    ensures ParseQuoteFields(msg, first + [entry] + second)
            == Decoded(msg + Singles(Only(first, QUOTE_SINGLES) + [entry] + Only(second, QUOTE_SINGLES))
                       + [LegPair(first, second, MD_ENTRY_PX), LegPair(first, second, MD_ENTRY_SIZE)])
  {
    hide QuoteFold, Only, LastValue, Singles, AllGroupFields;
    var px := Pair(LastValue(first, MD_ENTRY_PX, []), []);
    var sz := Pair(LastValue(first, MD_ENTRY_SIZE, []), []);
    var kept1, kept2 := Only(first, QUOTE_SINGLES), Only(second, QUOTE_SINGLES);
    calc {
      ParseQuoteFields(msg, first + [entry] + second);
      { assert first + [entry] + second == first + ([entry] + second); }
      QuoteFold(msg, 0, Pair([], []), Pair([], []), first + ([entry] + second));
      { FirstLegFold(msg, Pair([], []), Pair([], []), first, [entry] + second); }
      QuoteFold(msg + Singles(kept1), 0, px, sz, [entry] + second);
      { QuoteFoldEntry(msg + Singles(kept1), px, sz, entry, second); }
      QuoteFold(msg + Singles(kept1) + [AsSingle(entry)], MD_ENTRY_NO, px, sz, second);
    }
    SecondLegFold(msg + Singles(kept1) + [AsSingle(entry)], px, sz, second);
    KeptOfLegs(msg, kept1, entry, kept2);
  }

  lemma KeptOfLegs(msg: RawMessage, first: seq<Field>, entry: Field, second: seq<Field>)
    ensures msg + Singles(first) + [AsSingle(entry)] + Singles(second) == msg + Singles(first + [entry] + second)
  {
    hide Singles;
    AppendSingle(msg + Singles(first), entry, second);
    SinglesConcat(first, [entry] + second);
    assert first + [entry] + second == first + ([entry] + second);
    assert msg + Singles(first) + Singles([entry] + second) == msg + (Singles(first) + Singles([entry] + second));
  }

  lemma QuoteFoldEntry(msg: RawMessage, px: Val, sz: Val, entry: Field, rest: seq<Field>)
    requires px.Pair? && sz.Pair? && entry.tag == MD_ENTRY_NO && Utf8(entry.value)
    ensures QuoteFold(msg, 0, px, sz, [entry] + rest) == QuoteFold(msg + [AsSingle(entry)], MD_ENTRY_NO, px, sz, rest)
  {
    assert ([entry] + rest)[1..] == rest;
  }

  /** Without a second 268 every leg value lands on the first side. */
  lemma QuoteOneLeg(msg: RawMessage, leg: seq<Field>)
    requires AllGroupFields(leg) && NoEntry(leg)
    ensures ParseQuoteFields(msg, leg)
            == Decoded(msg + Singles(Only(leg, QUOTE_SINGLES))
                       + [LegPair(leg, [], MD_ENTRY_PX), LegPair(leg, [], MD_ENTRY_SIZE)])
  {
    assert leg + [] == leg;
    FirstLegFold(msg, Pair([], []), Pair([], []), leg, []);
  }

  /** A quote is refused exactly when one of its group fields is. */
  lemma {:induction false} QuoteRefused(msg: RawMessage, side: nat, px: Val, sz: Val, tail: seq<Field>)
    requires px.Pair? && sz.Pair?
    ensures QuoteFold(msg, side, px, sz, tail).Decoded? <==> AllGroupFields(tail)
    ensures QuoteFold(msg, side, px, sz, tail).Malformed? <==> !AllGroupFields(tail)
    decreases |tail|
  {
    if tail != [] {
      var f, later := tail[0], tail[1..];
      QuoteRefused(msg, side, OnSide(px, side, f.value), sz, later);
      QuoteRefused(msg, side, px, OnSide(sz, side, f.value), later);
      QuoteRefused(msg, side, px, sz, later);
      QuoteRefused(msg + [AsSingle(f)], if f.tag == MD_ENTRY_NO then MD_ENTRY_NO else side, px, sz, later);
    }
  }

  /** A trade keeps all its group fields and drops the trailer. */
  lemma {:induction false} TradeFields(msg: RawMessage, tail: seq<Field>)
    ensures TradeFold(msg, tail)
            == if AllGroupFields(tail) then Decoded(msg + Singles(Only(tail, TRADE_SINGLES))) else Malformed
    decreases |tail|
  {
    if tail == [] {
      assert msg + [] == msg;
    } else if IsGroupField(tail[0]) {
      var f, later := tail[0], tail[1..];
      if f.tag == CHECK_SUM {
        TradeFields(msg, later);
      } else {
        TradeFields(msg + [AsSingle(f)], later);
        AppendSingle(msg, f, Only(later, TRADE_SINGLES));
      }
    }
  }

  /** Either loop accepts exactly the messages whose remaining fields belong to the group. */
  lemma GroupLoopsAccept(msg: RawMessage, tail: seq<Field>)
    ensures var belongs := forall f :: f in tail ==>
        f.tag == 10 || (f.tag in {268, 269, 270, 271, 272, 273} && Utf8(f.value));
      && (ParseQuoteFields(msg, tail).Decoded? <==> belongs) && (ParseQuoteFields(msg, tail).Malformed? <==> !belongs)
      && (TradeFold(msg, tail).Decoded? <==> belongs) && (TradeFold(msg, tail).Malformed? <==> !belongs)
  {
    hide AllGroupFields, QuoteFold, TradeFold, Utf8;
    GroupFieldsAre(tail);
    QuoteRefused(msg, 0, Pair([], []), Pair([], []), tail);
    TradeFields(msg, tail);
  }

  // ---------- Decoding printed fields ----------

  /** `decode` on a list of fields instead of bytes. */
  function DecodeFields(build: Build, msg: RawMessage, fields: seq<Field>): DecodeResult
    decreases |fields|
  {
    if fields == [] then ParseQuoteFields(msg, [])
    else
      var f, later := fields[0], fields[1..];
      if !Utf8(f.value) then Malformed
      else if f.tag == MD_ENTRY_NO then ParseEntries(build, msg + [AsSingle(f)], f.value, later)
      else DecodeFields(build, msg + [AsSingle(f)], later)
  }

  lemma NoFieldsAtEnd(data: seq<Byte>)
    ensures FieldsFrom(data, |data|) == []
  {
  }

  lemma DecodeStep(build: Build, data: seq<Byte>, pos: nat, msg: RawMessage, f: Field, next: nat)
    requires pos <= |data| && FieldStep(data, pos) == Step(Some(f), next)
    ensures DecodeFrom(build, data, pos, msg)
            == if !Utf8(f.value) then Malformed
               else if f.tag == MD_ENTRY_NO then
                 ParseEntries(build, msg + [AsSingle(f)], f.value, FieldsFrom(data, next))
               else DecodeFrom(build, data, next, msg + [AsSingle(f)])
  {
  }

  lemma DecodeAtEnd(build: Build, data: seq<Byte>, pos: nat, msg: RawMessage)
    requires pos + |Body([])| == |data|
    ensures DecodeFrom(build, data, pos, msg) == ParseQuoteFields(msg, [])
  {
    hide QuoteFold;
    NoFieldsAtEnd(data);
  }

  /** Where the first of some printed fields ends, and what follows it. */
  lemma PrintedTail(data: seq<Byte>, pos: nat, fields: seq<Field>)
    requires fields != [] && Printable(fields) && pos + |Body(fields)| == |data| && data[pos..|data|] == Body(fields)
    ensures var next := pos + |FieldBytes(fields[0])|;
      && pos < next <= |data| && FieldStep(data, pos) == Step(Some(fields[0]), next)
      && FieldsFrom(data, next) == fields[1..]
      && Printable(fields[1..])
      && next + |Body(fields[1..])| == |data| && data[next..|data|] == Body(fields[1..])
  {
    hide FieldStep, FieldsFrom, FieldBytes, Body;
    var next := pos + |FieldBytes(fields[0])|;
    ReadFirst(data, pos, fields);
    ReadBack(data, next, fields[1..]);
    NoFieldsAtEnd(data);
    assert fields[1..] + [] == fields[1..];
  }

  lemma {:induction false} DecodePrinted(build: Build, data: seq<Byte>, pos: nat, fields: seq<Field>, msg: RawMessage)
    requires Printable(fields) && pos + |Body(fields)| == |data| && data[pos..|data|] == Body(fields)
    ensures DecodeFrom(build, data, pos, msg) == DecodeFields(build, msg, fields)
    decreases |fields|
  {
    hide FieldStep, FieldsFrom, FieldBytes, Body, DecodeFrom, ParseEntries, ParseQuoteFields, Utf8, Printable;
    if fields == [] {
      DecodeAtEnd(build, data, pos, msg);
    } else {
      var first, later := fields[0], fields[1..];
      var next := pos + |FieldBytes(first)|;
      PrintedTail(data, pos, fields);
      DecodeStep(build, data, pos, msg, first, next);
      DecodePrinted(build, data, next, later, msg + [AsSingle(first)]);
    }
  }

  /** Decoding an encoding is decoding the fields it was made from, envelope included. */
  lemma DecodeOfEncode(build: Build, fields: seq<Field>)
    requires Printable(fields)
    ensures DecodeBytes(build, Wire(fields)) == DecodeFields(build, [], AllFields(fields))
  {
    WireIsBody(fields);
    EnvelopePrintable(fields);
    var data := Wire(fields);
    assert data[0..|data|] == data;
    DecodePrinted(build, data, 0, AllFields(fields), []);
  }

  predicate AllText(fields: seq<Field>)
  {
    fields == [] || (Utf8(fields[0].value) && AllText(fields[1..]))
  }

  /** The fields before the first 268 are stored as they come. */
  lemma {:induction false} DecodeHead(build: Build, msg: RawMessage, head: seq<Field>, rest: seq<Field>)
    requires AllText(head) && NoEntry(head)
    ensures DecodeFields(build, msg, head + rest) == DecodeFields(build, msg + Singles(head), rest)
    decreases |head|
  {
    if head == [] {
      assert head + rest == rest && msg + [] == msg;
    } else {
      var f, later := head[0], head[1..];
      assert (head + rest)[0] == f && (head + rest)[1..] == later + rest;
      DecodeHead(build, msg + [AsSingle(f)], later, rest);
      AppendSingle(msg, f, later);
      assert [f] + later == head;
    }
  }

  /** A message whose own fields are `head`, then a 268, then `tail`. */
  lemma DecodeGrouped(build: Build, head: seq<Field>, entry: Field, tail: seq<Field>)
    requires AllText(head) && NoEntry(head) && entry.tag == MD_ENTRY_NO && Utf8(entry.value)
    ensures DecodeFields(build, [], head + [entry] + tail)
            == ParseEntries(build, Singles(head + [entry]), entry.value, tail)
  {
    hide ParseEntries;
    assert head + [entry] + tail == head + ([entry] + tail);
    DecodeHead(build, [], head, [entry] + tail);
    assert ([entry] + tail)[1..] == tail;
    SinglesConcat(head, [entry]);
    assert [] + Singles(head) == Singles(head) && Singles([entry]) == [AsSingle(entry)];
  }

  lemma {:induction false} AllTextIs(fields: seq<Field>)
    ensures AllText(fields) <==> forall f :: f in fields ==> Utf8(f.value)
  {
    hide Utf8;
    if fields != [] {
      AllTextIs(fields[1..]);
      assert fields == [fields[0]] + fields[1..];
      assert forall f :: f in fields <==> f == fields[0] || f in fields[1..];
    }
  }

  lemma FieldsStep(data: seq<Byte>, pos: nat)
    requires pos <= |data|
    ensures var step := FieldStep(data, pos);
      FieldsFrom(data, pos) == match step.field case None => [] case Some(f) => [f] + FieldsFrom(data, step.pos)
  {
  }

  /** Decoding any bytes whose fields are `head`, a 268, then `tail`: refused where a field up to
      the 268 is no text, otherwise decided by the count, the rest by its group loop. */
  lemma {:induction false} DecodeWithEntry(build: Build, data: seq<Byte>, pos: nat, msg: RawMessage,
                                           head: seq<Field>, entry: Field, tail: seq<Field>)
    requires pos <= |data| && FieldsFrom(data, pos) == head + [entry] + tail
    requires NoEntry(head) && entry.tag == 268
    ensures DecodeFrom(build, data, pos, msg)
      == if exists f :: f in head + [entry] && !Utf8(f.value) then Malformed
         else match ParseUint(build, entry.value)
              case None => Overflow
              case Some(n) =>
                if n == 1 then TradeFold(msg + Singles(head + [entry]), tail)
                else ParseQuoteFields(msg + Singles(head + [entry]), tail)
    decreases |head|
  {
    hide FieldStep, FieldsFrom, Utf8, ParseUint, TradeFold, QuoteFold;
    var step := FieldStep(data, pos);
    FieldsStep(data, pos);
    if head == [] {
      assert head + [entry] + tail == [entry] + tail && ([entry] + tail)[0] == entry && ([entry] + tail)[1..] == tail;
      assert FieldsFrom(data, pos)[1..] == FieldsFrom(data, step.pos);
      assert head + [entry] == [entry] && Singles([entry]) == [AsSingle(entry)] + Singles([]);
      assert [AsSingle(entry)] + [] == [AsSingle(entry)];
      assert [entry][0] == entry;
    } else {
      var f, later := head[0], head[1..];
      assert (head + [entry] + tail)[0] == f && (head + [entry] + tail)[1..] == later + [entry] + tail;
      assert FieldsFrom(data, pos)[1..] == FieldsFrom(data, step.pos);
      assert head + [entry] == [f] + (later + [entry]);
      assert forall g :: g in head + [entry] <==> g == f || g in later + [entry];
      if Utf8(f.value) {
        DecodeWithEntry(build, data, step.pos, msg + [AsSingle(f)], later, entry, tail);
        AppendSingle(msg, f, later + [entry]);
      }
    }
  }

  /** The position at which the decoder found no further field. */
  function LastRead(data: seq<Byte>, pos: nat): (r: nat)
    requires pos <= |data|
    ensures r <= |data|
    decreases |data| - pos
  {
    var step := FieldStep(data, pos);
    if step.field.None? then step.pos else LastRead(data, step.pos)
  }

  /** Without a 268: refused where a field is no text, otherwise the quote loop takes over from
      where the last read left the cursor. */
  lemma {:induction false} DecodeWithoutEntry(build: Build, data: seq<Byte>, pos: nat, msg: RawMessage)
    requires pos <= |data| && NoEntry(FieldsFrom(data, pos))
    ensures var fields := FieldsFrom(data, pos);
      DecodeFrom(build, data, pos, msg)
      == if exists f :: f in fields && !Utf8(f.value) then Malformed
         else ParseQuoteFields(msg + Singles(fields), FieldsFrom(data, LastRead(data, pos)))
    decreases |data| - pos
  {
    hide FieldStep, FieldsFrom, Utf8, ParseUint, QuoteFold;
    var step := FieldStep(data, pos);
    FieldsStep(data, pos);
    var fields := FieldsFrom(data, pos);
    if step.field.None? {
      assert msg + [] == msg;
    } else {
      var f, later := step.field.value, FieldsFrom(data, step.pos);
      assert fields[0] == f && fields[1..] == later;
      assert forall g :: g in fields <==> g == f || g in later;
      if Utf8(f.value) {
        DecodeWithoutEntry(build, data, step.pos, msg + [AsSingle(f)]);
        AppendSingle(msg, f, later);
      }
    }
  }

  // ---------- Decoding encodings of messages ----------

  /** A message as Rust can hold it: single values, each valid UTF-8, tags in u32. */
  ghost predicate IsWireMessage(msg: RawMessage, fields: seq<Field>)
  {
    WireFields(msg) == Some(fields) && Printable(fields) && AllText(fields)
  }

  lemma {:induction false} AllTextConcat(a: seq<Field>, b: seq<Field>)
    ensures AllText(a + b) <==> AllText(a) && AllText(b)
  {
    if a == [] {
      assert a + b == b;
    } else {
      assert (a + b)[1..] == a[1..] + b;
      AllTextConcat(a[1..], b);
    }
  }

  lemma {:induction false} NoEntryConcat(a: seq<Field>, b: seq<Field>)
    ensures NoEntry(a + b) <==> NoEntry(a) && NoEntry(b)
  {
    if a == [] {
      assert a + b == b;
    } else {
      assert (a + b)[1..] == a[1..] + b;
      NoEntryConcat(a[1..], b);
    }
  }

  function Envelope(fields: seq<Field>): seq<Field>
  {
    [BeginString(), BodyLength(fields)]
  }

  lemma EnvelopeIsPlain(fields: seq<Field>)
    ensures AllText(Envelope(fields)) && NoEntry(Envelope(fields))
    ensures Utf8(CheckSum(fields).value)
  {
    hide Utf8, Print, Summed;
    AsciiIsUtf8(VERSION);
    DigitsAreText(|Body(fields)|);
    AsciiIsUtf8(CheckSum(fields).value);
    PlainPair(BeginString(), BodyLength(fields));
  }

  lemma PlainPair(a: Field, b: Field)
    requires Utf8(a.value) && Utf8(b.value) && a.tag != MD_ENTRY_NO && b.tag != MD_ENTRY_NO
    ensures AllText([a, b]) && NoEntry([a, b])
  {
    hide Utf8;
    assert [a, b][1..] == [b] && [b][1..] == [];
    assert AllText([b]) && NoEntry([b]);
  }

  /** Decoding an encoded message whose fields are `head`, a 268, then `tail`. */
  lemma DecodeEncodedGroup(build: Build, msg: RawMessage, head: seq<Field>, entry: Field, tail: seq<Field>)
    requires IsWireMessage(msg, head + [entry] + tail)
    requires NoEntry(head) && entry.tag == MD_ENTRY_NO
    ensures Encode(msg).Some?
    ensures DecodeBytes(build, Encode(msg).value)
            == var fields := head + [entry] + tail;
               ParseEntries(build, Singles(Envelope(fields) + head + [entry]), entry.value, tail + [CheckSum(fields)])
  {
    hide Body, Wire, ParseEntries, DecodeBytes, Utf8, Singles, FieldBytes, CheckSum, BodyLength, WireFields;
    var fields := head + [entry] + tail;
    var env, trailer := Envelope(fields), [CheckSum(fields)];
    assert Encode(msg) == Some(Wire(fields));
    DecodeOfEncode(build, fields);
    EnvelopeIsPlain(fields);
    AllTextConcat(head + [entry], tail);
    AllTextConcat(head, [entry]);
    AllTextConcat(env, head);
    NoEntryConcat(env, head);
    assert [entry][0] == entry;
    assert AllFields(fields) == (env + head) + [entry] + (tail + trailer);
    DecodeGrouped(build, env + head, entry, tail + trailer);
  }

  lemma {:induction false} GroupFieldsSnoc(tail: seq<Field>, trailer: Field, tags: set<nat>)
    requires trailer.tag == CHECK_SUM && CHECK_SUM !in tags
    ensures AllGroupFields(tail + [trailer]) == AllGroupFields(tail)
    ensures Only(tail + [trailer], tags) == Only(tail, tags)
    ensures forall otherwise, tag :: tag != CHECK_SUM ==>
      LastValue(tail + [trailer], tag, otherwise) == LastValue(tail, tag, otherwise)
  {
    if tail == [] {
      assert tail + [trailer] == [trailer] && [trailer][1..] == [];
    } else {
      assert (tail + [trailer])[0] == tail[0] && (tail + [trailer])[1..] == tail[1..] + [trailer];
      GroupFieldsSnoc(tail[1..], trailer, tags);
    }
  }

  lemma {:induction false} OnlyAll(fields: seq<Field>, tags: set<nat>)
    requires forall f :: f in fields ==> f.tag in tags
    ensures Only(fields, tags) == fields
  {
    if fields != [] {
      OnlyAll(fields[1..], tags);
      assert fields == [fields[0]] + fields[1..];
    }
  }

  lemma {:induction false} GroupTagsAreGroupFields(fields: seq<Field>)
    requires AllText(fields) && forall f :: f in fields ==> IsGroupTag(f.tag)
    ensures AllGroupFields(fields)
  {
    if fields != [] {
      assert fields[0] in fields;
      GroupTagsAreGroupFields(fields[1..]);
    }
  }

  /** An encoded trade (a single entry, then group fields only) decodes to the envelope
      and exactly its own fields: the trailer is gone, nothing else is. */
  lemma TradeRoundTrip(build: Build, msg: RawMessage, head: seq<Field>, entry: Field, tail: seq<Field>)
    requires IsWireMessage(msg, head + [entry] + tail)
    requires NoEntry(head) && entry.tag == MD_ENTRY_NO && ParseUint(build, entry.value) == Some(1)
    requires forall f :: f in tail ==> f.tag in {268, 269, 270, 271, 272, 273}
    ensures Encode(msg).Some?
    ensures var fields := head + [entry] + tail;
      DecodeBytes(build, Encode(msg).value) == Decoded(Singles(Envelope(fields) + fields))
  {
    hide Body, Wire, DecodeBytes, Singles, CheckSum, BodyLength, WireFields, IsWireMessage, Encode;
    hide TradeFold, AllGroupFields, Only, ParseUint, NoEntry, Envelope;
    var fields := head + [entry] + tail;
    var trailer := CheckSum(fields);
    var front := Envelope(fields) + head + [entry];
    DecodeEncodedGroup(build, msg, head, entry, tail);
    TailIsGroup(msg, head, entry, tail);
    TrailerTag(fields);
    TradeFields(Singles(front), tail + [trailer]);
    GroupFieldsSnoc(tail, trailer, TRADE_SINGLES);
    OnlyAll(tail, TRADE_SINGLES);
    SinglesConcat(front, tail);
    assert front + tail == Envelope(fields) + fields;
  }

  lemma TailIsGroup(msg: RawMessage, head: seq<Field>, entry: Field, tail: seq<Field>)
    requires IsWireMessage(msg, head + [entry] + tail) && forall f :: f in tail ==> IsGroupTag(f.tag)
    ensures AllGroupFields(tail)
  {
    AllTextConcat(head + [entry], tail);
    GroupTagsAreGroupFields(tail);
  }

  lemma TrailerTag(fields: seq<Field>)
    ensures CheckSum(fields).tag == CHECK_SUM
  {
  }

  /** An encoded quote (two legs, a 268 before each) decodes to its fields with the leg
      prices and sizes gathered into one pair each. */
  lemma QuoteRoundTrip(build: Build, msg: RawMessage, head: seq<Field>, entry: Field,
                       first: seq<Field>, again: Field, second: seq<Field>)
    requires IsWireMessage(msg, head + [entry] + (first + [again] + second))
    requires NoEntry(head) && entry.tag == MD_ENTRY_NO
    requires ParseUint(build, entry.value).Some? && ParseUint(build, entry.value) != Some(1)
    requires forall f :: f in first + [again] + second ==> f.tag in {268, 269, 270, 271, 272, 273}
    requires NoEntry(first) && again.tag == MD_ENTRY_NO
    ensures Encode(msg).Some?
    ensures var fields := head + [entry] + (first + [again] + second);
      DecodeBytes(build, Encode(msg).value)
      == Decoded(Singles(Envelope(fields) + head + [entry])
                 + Singles(Only(first, QUOTE_SINGLES) + [again] + Only(second, QUOTE_SINGLES))
                 + [LegPair(first, second, MD_ENTRY_PX), LegPair(first, second, MD_ENTRY_SIZE)])
  {
    hide Body, Wire, DecodeBytes, Singles, CheckSum, BodyLength, WireFields, IsWireMessage, Encode, ParseUint;
    var tail := first + [again] + second;
    var fields := head + [entry] + tail;
    var trailer := CheckSum(fields);
    DecodeEncodedGroup(build, msg, head, entry, tail);
    TailIsGroup(msg, head, entry, tail);
    TrailerTag(fields);
    GroupFieldsConcat(first + [again], second);
    GroupFieldsConcat(first, [again]);
    assert [again][0] == again;
    GroupFieldsSnoc(second, trailer, QUOTE_SINGLES);
    assert tail + [trailer] == first + [again] + (second + [trailer]);
    QuoteLegs(Singles(Envelope(fields) + head + [entry]), first, again, second + [trailer]);
  }

  lemma {:induction false} GroupFieldsConcat(a: seq<Field>, b: seq<Field>)
    ensures AllGroupFields(a + b) <==> AllGroupFields(a) && AllGroupFields(b)
  {
    if a == [] {
      assert a + b == b;
    } else {
      assert (a + b)[1..] == a[1..] + b;
      GroupFieldsConcat(a[1..], b);
    }
  }

  /** An encoded message without 268 decodes to all its fields, the envelope and the
      trailer, followed by two empty pairs. */
  lemma PlainRoundTrip(build: Build, msg: RawMessage, fields: seq<Field>)
    requires IsWireMessage(msg, fields) && NoEntry(fields)
    ensures Encode(msg).Some?
    ensures DecodeBytes(build, Encode(msg).value) == Decoded(Singles(AllFields(fields)) + EmptyPairs())
  {
    hide Body, Wire, DecodeBytes, Singles, CheckSum, BodyLength, WireFields, Utf8;
    var env, trailer := Envelope(fields), [CheckSum(fields)];
    assert Encode(msg) == Some(Wire(fields));
    DecodeOfEncode(build, fields);
    EnvelopeIsPlain(fields);
    TrailerTag(fields);
    AllTextConcat(env, fields);
    AllTextConcat(env + fields, trailer);
    NoEntryConcat(env, fields);
    NoEntryConcat(env + fields, trailer);
    assert trailer[1..] == [];
    assert AllFields(fields) + [] == AllFields(fields);
    DecodeHead(build, [], AllFields(fields), []);
    assert [] + Singles(AllFields(fields)) == Singles(AllFields(fields));
  }

  function EmptyPairs(): RawMessage
  {
    [RawField(MD_ENTRY_PX, Pair([], [])), RawField(MD_ENTRY_SIZE, Pair([], []))]
  }

  /** Looking a tag up in the fields put on the wire is looking it up in the message. */
  lemma {:induction false} LookupOnWire(msg: RawMessage, fields: seq<Field>, tag: nat)
    requires WireFields(msg) == Some(fields) && OnWire(tag)
    ensures GetVal(Singles(fields), tag) == GetVal(msg, tag)
    decreases |msg|
  {
    if msg != [] {
      var later := WireFields(msg[1..]).value;
      LookupOnWire(msg[1..], later, tag);
      if OnWire(msg[0].tag) {
        assert fields[1..] == later;
        assert Singles(fields)[1..] == Singles(later);
      }
    }
  }

  /** Decoding an encoded message without 268 keeps every first-match lookup outside the
      envelope; 270 and 271 are answered by an empty pair when the message has none. */
  lemma PlainLookups(build: Build, msg: RawMessage, fields: seq<Field>, tag: nat)
    requires IsWireMessage(msg, fields) && NoEntry(fields) && OnWire(tag)
    ensures Encode(msg).Some? && DecodeBytes(build, Encode(msg).value).Decoded?
    ensures GetVal(DecodeBytes(build, Encode(msg).value).msg, tag)
            == if GetVal(msg, tag).Some? then GetVal(msg, tag)
               else if tag == 270 || tag == 271 then Some(Pair([], [])) else None
  {
    hide Body, Wire, DecodeBytes, Encode, CheckSum, BodyLength, Utf8, Singles, WireFields;
    var env, trailer := Envelope(fields), [CheckSum(fields)];
    PlainRoundTrip(build, msg, fields);
    LookupOnWire(msg, fields, tag);
    SinglesConcat(env + fields, trailer);
    SinglesConcat(env, fields);
    EnvelopeLookup(fields, tag);
    GetValConcat(Singles(AllFields(fields)), EmptyPairs(), tag);
    GetValConcat(Singles(env + fields), Singles(trailer), tag);
    GetValConcat(Singles(env), Singles(fields), tag);
    assert EmptyPairs()[1..][1..] == [];
    assert AllFields(fields) == env + fields + trailer;
    assert GetVal(EmptyPairs()[1..], tag) == if tag == MD_ENTRY_SIZE then Some(Pair([], [])) else None;
  }

  lemma EnvelopeLookup(fields: seq<Field>, tag: nat)
    requires OnWire(tag)
    ensures GetVal(Singles(Envelope(fields)), tag) == None
    ensures GetVal(Singles([CheckSum(fields)]), tag) == None
  {
    hide Body, Summed;
    SinglesOfTwo(BeginString(), BodyLength(fields), tag);
    assert Singles([CheckSum(fields)]) == [AsSingle(CheckSum(fields))];
    GetValAbsent([AsSingle(CheckSum(fields))], tag);
  }

  lemma SinglesOfTwo(a: Field, b: Field, tag: nat)
    requires a.tag != tag && b.tag != tag
    ensures GetVal(Singles([a, b]), tag) == None
  {
    assert [a] + [b] == [a, b];
    SinglesConcat([a], [b]);
    GetValConcat(Singles([a]), Singles([b]), tag);
    GetValAbsent([AsSingle(a)], tag);
    GetValAbsent([AsSingle(b)], tag);
  }
}
