/** From the bytes a peer sends to the ticks a session forwards. */
module EndToEnd {
  import opened Wrappers
  import opened Bytes
  import opened Parser
  import opened Message
  import opened Codec
  import opened Encoder
  import opened RoundTrip
  import opened Framing
  import opened Ticks
  import opened Session
  import opened SessionRuns

  /** A market-data message for a symbol. */
  predicate IsMarketData(msg: RawMessage, symbol: seq<Byte>)
  {
    && (GetVal(msg, 35) == Some(Single(Ascii("W"))) || GetVal(msg, 35) == Some(Single(Ascii("X"))))
    && GetVal(msg, 55) == Some(Single(symbol))
  }

  lemma Forwards<F, T>(env: Env<F, T>, msg: RawMessage, symbol: seq<Byte>)
    requires IsMarketData(msg, symbol) && FromRaw(env.reader, msg, symbol).Ok?
    ensures DispatchEffect(env, msg) == Forward(FromRaw(env.reader, msg, symbol).tick)
  {
    hide GetVal, FromRaw;
    assert Ascii("W") == [87] && Ascii("X") == [88];
  }

  // ---------- Trades ----------

  /** An encoded trade makes the session forward the tick its own fields make. */
  lemma EncodedTradeTick<F, T>(env: Env<F, T>, msg: RawMessage, head: seq<Field>, entry: Field, tail: seq<Field>,
                               symbol: seq<Byte>)
    requires IsWireMessage(msg, head + [entry] + tail)
    requires NoEntry(head) && entry.tag == 268 && ParseUint(env.build, entry.value) == Some(1)
    requires forall f :: f in tail ==> f.tag in {268, 269, 270, 271, 272, 273}
    requires IsMarketData(msg, symbol) && FromRaw(env.reader, msg, symbol).Ok?
    ensures Encode(msg).Some? && EffectOf(env, Encode(msg).value) == Forward(FromRaw(env.reader, msg, symbol).tick)
  {
    hide EffectOf, DispatchEffect, Encode, IsWireMessage, NoEntry, ParseUint, IsMarketData, FromRaw;
    EncodedTradeEffect(env, msg, head, entry, tail);
    Forwards(env, msg, symbol);
  }

  /** The fields of a trade as an exchange sends it. */
  function TradeLayout(symbol: seq<Byte>, px: seq<Byte>, size: seq<Byte>, date: seq<Byte>, time: seq<Byte>): seq<Field>
  {
    [Field(35, Ascii("X")), Field(55, symbol)] + [Field(268, Ascii("1"))]
    + [Field(269, Ascii("2")), Field(270, px), Field(271, size), Field(272, date), Field(273, time)]
  }

  /** Fields a message can put on the wire and get back. */
  ghost predicate Sendable(fields: seq<Field>)
  {
    forall f :: f in fields ==> f.tag <= U32_MAX && 1 !in f.value && Utf8(f.value) && OnWire(f.tag)
  }

  lemma {:induction false} SendableIsWire(fields: seq<Field>)
    requires Sendable(fields)
    ensures IsWireMessage(Singles(fields), fields) && Encode(Singles(fields)) == Some(Wire(fields))
  {
    hide Utf8, Wire, OnWire;
    if fields != [] {
      SendableIsWire(fields[1..]);
      assert fields == [fields[0]] + fields[1..] && fields[0] in fields;
      assert Singles(fields)[1..] == Singles(fields[1..]);
    }
  }

  lemma {:induction false} FirstOf(front: seq<Field>, f: Field, back: seq<Field>)
    requires forall g :: g in front ==> g.tag != f.tag
    ensures GetVal(Singles(front + [f] + back), f.tag) == Some(Single(f.value))
  {
    if front == [] {
      assert front + [f] + back == [f] + back && ([f] + back)[0] == f;
      assert Singles([f] + back)[0] == AsSingle(f);
    } else {
      assert (front + [f] + back)[0] == front[0] && (front + [f] + back)[1..] == front[1..] + [f] + back;
      FirstOf(front[1..], f, back);
      assert Singles(front + [f] + back)[1..] == Singles(front[1..] + [f] + back);
    }
  }

  lemma At(fields: seq<Field>, k: nat)
    requires k < |fields| && forall j :: 0 <= j < k ==> fields[j].tag != fields[k].tag
    ensures GetVal(Singles(fields), fields[k].tag) == Some(Single(fields[k].value))
  {
    hide GetVal, Singles;
    assert fields == fields[..k] + [fields[k]] + fields[k + 1..];
    FirstOf(fields[..k], fields[k], fields[k + 1..]);
  }

  lemma {:induction false} NoneOf(fields: seq<Field>, tag: nat)
    requires forall f :: f in fields ==> f.tag != tag
    ensures GetVal(Singles(fields), tag) == None
  {
    if fields != [] {
      NoneOf(fields[1..], tag);
      assert Singles(fields)[1..] == Singles(fields[1..]);
    }
  }

  lemma One()
    ensures ParseI32(Ascii("1")) == Some(1) && ParseI32(Ascii("2")) == Some(2)
    ensures forall build :: ParseUint(build, Ascii("1")) == Some(1) && ParseUint(build, Ascii("2")) == Some(2)
  {
    hide ParseInt, ParseUint;
    assert Ascii("1") == [49] && Ascii("2") == [50];
    ReadsDigit(49);
    ReadsDigit(50);
  }

  lemma ReadsDigit(b: Byte)
    requires IsDigit(b)
    ensures ParseI32([b]) == Some(b - 48)
    ensures forall build :: ParseUint(build, [b]) == Some(b - 48)
  {
    assert [b][..0] == [];
    assert Value([b]) == b - 48;
  }

  lemma TradeLookups(symbol: seq<Byte>, px: seq<Byte>, size: seq<Byte>, date: seq<Byte>, time: seq<Byte>)
    ensures var msg := Singles(TradeLayout(symbol, px, size, date, time));
      && IsMarketData(msg, symbol) && GetVal(msg, 268) == Some(Single(Ascii("1")))
      && GetVal(msg, 270) == Some(Single(px)) && GetVal(msg, 271) == Some(Single(size))
      && GetVal(msg, 272) == Some(Single(date)) && GetVal(msg, 273) == Some(Single(time)) && GetVal(msg, 828) == None
  {
    hide Singles, GetVal;
    var fields := TradeLayout(symbol, px, size, date, time);
    At(fields, 0);
    At(fields, 1);
    At(fields, 2);
    At(fields, 4);
    At(fields, 5);
    At(fields, 6);
    At(fields, 7);
    NoneOf(fields, 828);
  }

  /** A trade sent to a waiting session is forwarded as that trade: its price and volume, its
      symbol and its time. */
  lemma TradeArrives<F, T>(env: Env<F, T>, s: State<F, T>, symbol: seq<Byte>, px: seq<Byte>, size: seq<Byte>,
                           date: seq<Byte>, time: seq<Byte>)
    requires s.running && s.buf == []
    requires var fields := TradeLayout(symbol, px, size, date, time);
      Sendable(fields) && |Wire(fields)| <= USIZE_MAX
    requires env.reader.float(px).Some? && ParseI32(size).Some? && ParseI32(size).value >= 0
    requires env.reader.time(date, time).Some?
    ensures var bytes := Wire(TradeLayout(symbol, px, size, date, time));
      OnEvent(env, s, Chunk(bytes))
      == s.(handled := s.handled + [bytes],
            ticks := s.ticks + [Tick.Trade(env.reader.time(date, time).value, symbol, env.reader.float(px).value,
                                           ParseI32(size).value, None)])
  {
    hide EffectOf, Wire, Encode, Singles, GetVal, ParseInt, FromRaw, IsWireMessage, Sendable, NoEntry, ParseUint, IsMarketData;
    hide OnEvent, Framer;
    var fields := TradeLayout(symbol, px, size, date, time);
    var msg := Singles(fields);
    TradeLookups(symbol, px, size, date, time);
    SendableIsWire(fields);
    One();
    TradeOutcome(env.reader, msg, symbol);
    TradeHead(symbol);
    var head, tail := [Field(35, Ascii("X")), Field(55, symbol)], fields[3..];
    assert fields == head + [Field(268, Ascii("1"))] + tail;
    EncodedTradeTick(env, msg, head, Field(268, Ascii("1")), tail, symbol);
    Arrives(env, s, fields);
  }

  lemma TradeHead(symbol: seq<Byte>)
    ensures NoEntry([Field(35, Ascii("X")), Field(55, symbol)])
    ensures NoEntry([Field(35, Ascii("W")), Field(55, symbol)])
  {
    NoEntryFrom([Field(35, Ascii("X")), Field(55, symbol)]);
    NoEntryFrom([Field(35, Ascii("W")), Field(55, symbol)]);
  }

  /** An encoding in an empty buffer is framed whole and handled. */
  lemma Arrives<F, T>(env: Env<F, T>, s: State<F, T>, fields: seq<Field>)
    requires s.running && s.buf == [] && |Wire(fields)| <= USIZE_MAX
    ensures OnEvent(env, s, Chunk(Wire(fields)))
            == Perform(env, s.(handled := s.handled + [Wire(fields)]), EffectOf(env, Wire(fields)))
  {
    hide EffectOf, Wire, OnEvent, ScanFrame, Perform;
    WireNotEmpty(fields);
    FrameOfEncoding(env.build, fields, []);
    assert Wire(fields) + [] == Wire(fields);
    OneMessage(env, s, Wire(fields));
  }

  // ---------- Quotes ----------

  /** Where a lookup in fields joined end to end finds its value. */
  lemma SinglesLookup(a: seq<Field>, b: seq<Field>, tag: nat)
    ensures GetVal(Singles(a + b), tag)
            == if GetVal(Singles(a), tag).Some? then GetVal(Singles(a), tag) else GetVal(Singles(b), tag)
  {
    SinglesConcat(a, b);
    GetValConcat(Singles(a), Singles(b), tag);
  }

  /** The group fields a quote keeps as they are answer their own lookups. */
  lemma {:induction false} KeptLookup(fields: seq<Field>, tag: nat)
    requires forall f :: f in fields ==> f.tag in {268, 269, 270, 271, 272, 273}
    ensures GetVal(Singles(Only(fields, QUOTE_SINGLES)), tag)
            == if tag == 270 || tag == 271 then None else GetVal(Singles(fields), tag)
  {
    if fields != [] {
      KeptLookup(fields[1..], tag);
      assert fields == [fields[0]] + fields[1..] && fields[0] in fields;
      SinglesLookup([fields[0]], fields[1..], tag);
      SinglesLookup([fields[0]], Only(fields[1..], QUOTE_SINGLES), tag);
      assert Singles([fields[0]]) == [AsSingle(fields[0])] + Singles([]);
    }
  }

  /** What a two-leg quote decodes to. */
  function DecodedQuote(head: seq<Field>, entry: Field, first: seq<Field>, again: Field, second: seq<Field>): RawMessage
  {
    var fields := head + [entry] + (first + [again] + second);
    Singles(Envelope(fields) + head + [entry])
    + Singles(Only(first, QUOTE_SINGLES) + [again] + Only(second, QUOTE_SINGLES))
    + [LegPair(first, second, 270), LegPair(first, second, 271)]
  }

  /** Decoding a quote leaves every lookup as it was but those of the leg tags. */
  lemma QuoteLookups(head: seq<Field>, entry: Field, first: seq<Field>, again: Field, second: seq<Field>, tag: nat)
    requires OnWire(tag)
    requires forall f :: f in first + [again] + second ==> f.tag in {268, 269, 270, 271, 272, 273}
    requires entry.tag == 268 && again.tag == 268 && forall f :: f in head ==> f.tag != 270 && f.tag != 271
    ensures GetVal(DecodedQuote(head, entry, first, again, second), tag)
            == if tag == 270 || tag == 271 then
                 Some(Pair(LastValue(first, tag, []), LastValue(second, tag, [])))
               else GetVal(Singles(head + [entry] + (first + [again] + second)), tag)
  {
    hide Singles, GetVal, Only, LastValue, Envelope;
    var fields := head + [entry] + (first + [again] + second);
    var env := Envelope(fields);
    var front := Singles(env + head + [entry]);
    var kept1, kept2 := Only(first, QUOTE_SINGLES), Only(second, QUOTE_SINGLES);
    var middle := Singles(kept1 + [again] + kept2);
    var pairs := [LegPair(first, second, 270), LegPair(first, second, 271)];
    forall f | f in first + [again] + second ensures f.tag in {268, 269, 270, 271, 272, 273} {}
    assert forall f :: f in first ==> f in first + [again] + second;
    assert forall f :: f in second ==> f in first + [again] + second;
    GetValConcat(front + middle, pairs, tag);
    GetValConcat(front, middle, tag);
    assert env + head + [entry] == env + (head + [entry]);
    SinglesLookup(env, head + [entry], tag);
    EnvelopeLookup(fields, tag);
    SinglesLookup(kept1 + [again], kept2, tag);
    SinglesLookup(kept1, [again], tag);
    KeptLookup(first, tag);
    KeptLookup(second, tag);
    SinglesLookup(head + [entry], first + [again] + second, tag);
    SinglesLookup(first + [again], second, tag);
    SinglesLookup(first, [again], tag);
    PairLookup(first, second, tag);
    if tag == 270 || tag == 271 {
      assert forall f :: f in head + [entry] ==> f.tag != tag;
      NoneOf(head + [entry], tag);
      NoneOf([again], tag);
    }
  }

  lemma PairLookup(first: seq<Field>, second: seq<Field>, tag: nat)
    ensures GetVal([LegPair(first, second, 270), LegPair(first, second, 271)], tag)
            == if tag == 270 || tag == 271 then Some(Pair(LastValue(first, tag, []), LastValue(second, tag, []))) else None
  {
    var pairs := [LegPair(first, second, 270), LegPair(first, second, 271)];
    assert pairs[1..] == [pairs[1]] && pairs[1..][1..] == [];
    assert GetVal(pairs[1..], tag) == if tag == 271 then Some(pairs[1].val) else None;
  }

  /** The texts of both legs, and the date and time, can be read. */
  ghost predicate LegsRead<F, T>(r: Reader<F, T>, first: seq<Field>, second: seq<Field>, date: seq<Byte>, time: seq<Byte>)
  {
    && r.float(LastValue(first, 270, [])).Some? && r.float(LastValue(second, 270, [])).Some?
    && ParseI32(LastValue(first, 271, [])).Some? && ParseI32(LastValue(second, 271, [])).Some?
    && r.time(date, time).Some?
  }

  /** The quote whose bid is the last 270 and 271 of the first leg and whose ask is those of
      the second. */
  ghost predicate IsQuoteOf<F, T>(r: Reader<F, T>, q: Tick<F, T>, symbol: seq<Byte>, first: seq<Field>, second: seq<Field>,
                                  date: seq<Byte>, time: seq<Byte>)
    requires LegsRead(r, first, second, date, time)
  {
    && q.Quote? && q.receiveTime == r.time(date, time).value && q.ticker == symbol
    && q.bidPrice == r.float(LastValue(first, 270, [])).value && q.askPrice == r.float(LastValue(second, 270, [])).value
    && KeptVolume(ParseI32(LastValue(first, 271, [])).value, q.bidVol)
    && KeptVolume(ParseI32(LastValue(second, 271, [])).value, q.askVol)
  }

  /** What the session makes of a decoded quote. */
  lemma QuoteForwarded<F, T>(env: Env<F, T>, decoded: RawMessage, count: seq<Byte>, first: seq<Field>, second: seq<Field>,
                             symbol: seq<Byte>, date: seq<Byte>, time: seq<Byte>)
    requires IsMarketData(decoded, symbol) && LegsRead(env.reader, first, second, date, time)
    requires GetVal(decoded, 268) == Some(Single(count)) && ParseI32(count) == Some(2)
    requires GetVal(decoded, 270) == Some(Pair(LastValue(first, 270, []), LastValue(second, 270, [])))
    requires GetVal(decoded, 271) == Some(Pair(LastValue(first, 271, []), LastValue(second, 271, [])))
    requires GetVal(decoded, 272) == Some(Single(date)) && GetVal(decoded, 273) == Some(Single(time))
    ensures DispatchEffect(env, decoded).Forward?
    ensures IsQuoteOf(env.reader, DispatchEffect(env, decoded).tick, symbol, first, second, date, time)
  {
    hide GetVal, ParseInt, LastValue, FromRaw, DispatchEffect, IsMarketData;
    QuoteOutcome(env.reader, decoded, symbol);
    Forwards(env, decoded, symbol);
  }

  /** An encoded two-leg quote makes the session forward the quote its legs describe. */
  lemma EncodedQuoteTick<F, T>(env: Env<F, T>, msg: RawMessage, head: seq<Field>, entry: Field,
                               first: seq<Field>, again: Field, second: seq<Field>,
                               symbol: seq<Byte>, date: seq<Byte>, time: seq<Byte>)
    requires IsWireMessage(msg, head + [entry] + (first + [again] + second))
    requires NoEntry(head) && entry.tag == 268 && ParseI32(entry.value) == Some(2)
    requires ParseUint(env.build, entry.value).Some? && ParseUint(env.build, entry.value) != Some(1)
    requires forall f :: f in first + [again] + second ==> f.tag in {268, 269, 270, 271, 272, 273}
    requires NoEntry(first) && again.tag == 268 && forall f :: f in head ==> f.tag != 270 && f.tag != 271
    requires IsMarketData(msg, symbol) && GetVal(msg, 272) == Some(Single(date)) && GetVal(msg, 273) == Some(Single(time))
    requires LegsRead(env.reader, first, second, date, time)
    ensures Encode(msg).Some? && EffectOf(env, Encode(msg).value).Forward?
    ensures IsQuoteOf(env.reader, EffectOf(env, Encode(msg).value).tick, symbol, first, second, date, time)
  {
    hide DecodeBytes, Encode, DispatchEffect, Envelope, Singles, NoEntry, ParseUint, ParseInt, GetVal;
    hide IsWireMessage, LastValue, Only, LegsRead, IsQuoteOf;
    QuoteRoundTrip(env.build, msg, head, entry, first, again, second);
    var decoded := DecodedQuote(head, entry, first, again, second);
    QuoteKeeps(msg, head, entry, first, again, second, 35);
    QuoteKeeps(msg, head, entry, first, again, second, 55);
    QuoteKeeps(msg, head, entry, first, again, second, 268);
    QuoteKeeps(msg, head, entry, first, again, second, 272);
    QuoteKeeps(msg, head, entry, first, again, second, 273);
    QuoteLookups(head, entry, first, again, second, 270);
    QuoteLookups(head, entry, first, again, second, 271);
    EntryCount(head, entry, first + [again] + second);
    WireLookup(msg, head + [entry] + (first + [again] + second), 268);
    QuoteForwarded(env, decoded, entry.value, first, second, symbol, date, time);
  }

  lemma WireLookup(msg: RawMessage, fields: seq<Field>, tag: nat)
    requires IsWireMessage(msg, fields) && OnWire(tag)
    ensures GetVal(Singles(fields), tag) == GetVal(msg, tag)
  {
    LookupOnWire(msg, fields, tag);
  }

  lemma QuoteKeeps(msg: RawMessage, head: seq<Field>, entry: Field, first: seq<Field>, again: Field, second: seq<Field>, tag: nat)
    requires IsWireMessage(msg, head + [entry] + (first + [again] + second)) && OnWire(tag) && tag != 270 && tag != 271
    requires forall f :: f in first + [again] + second ==> f.tag in {268, 269, 270, 271, 272, 273}
    requires entry.tag == 268 && again.tag == 268 && forall f :: f in head ==> f.tag != 270 && f.tag != 271
    ensures GetVal(DecodedQuote(head, entry, first, again, second), tag) == GetVal(msg, tag)
  {
    hide GetVal, Singles, DecodedQuote, IsWireMessage;
    QuoteLookups(head, entry, first, again, second, tag);
    WireLookup(msg, head + [entry] + (first + [again] + second), tag);
  }

  lemma EntryCount(head: seq<Field>, entry: Field, tail: seq<Field>)
    requires NoEntry(head) && entry.tag == 268
    ensures GetVal(Singles(head + [entry] + tail), 268) == Some(Single(entry.value))
  {
    NoEntryTags(head);
    FirstOf(head, entry, tail);
  }

  lemma {:induction false} NoEntryTags(fields: seq<Field>)
    requires NoEntry(fields)
    ensures forall f :: f in fields ==> f.tag != 268
  {
    if fields != [] {
      NoEntryTags(fields[1..]);
      assert fields == [fields[0]] + fields[1..];
    }
  }

  function FirstLeg(bidPx: seq<Byte>, bidSize: seq<Byte>): seq<Field>
  {
    [Field(269, Ascii("0")), Field(270, bidPx), Field(271, bidSize)]
  }

  function SecondLeg(askPx: seq<Byte>, askSize: seq<Byte>, date: seq<Byte>, time: seq<Byte>): seq<Field>
  {
    [Field(269, Ascii("1")), Field(270, askPx), Field(271, askSize), Field(272, date), Field(273, time)]
  }

  /** The fields of a quote in the layout the decoder reads. */
  function QuoteLayout(symbol: seq<Byte>, first: seq<Field>, second: seq<Field>): seq<Field>
  {
    [Field(35, Ascii("W")), Field(55, symbol)] + [Field(268, Ascii("2"))] + (first + [Field(268, Ascii("2"))] + second)
  }

  lemma LegValues(bidPx: seq<Byte>, bidSize: seq<Byte>, askPx: seq<Byte>, askSize: seq<Byte>, date: seq<Byte>, time: seq<Byte>)
    ensures var first, second := FirstLeg(bidPx, bidSize), SecondLeg(askPx, askSize, date, time);
      && LastValue(first, 270, []) == bidPx && LastValue(first, 271, []) == bidSize
      && LastValue(second, 270, []) == askPx && LastValue(second, 271, []) == askSize && NoEntry(first)
  {
    hide LastValue;
    var first, second := FirstLeg(bidPx, bidSize), SecondLeg(askPx, askSize, date, time);
    assert first == first[..1] + [first[1]] + first[2..] && first == first[..2] + [first[2]] + first[3..];
    assert second == second[..1] + [second[1]] + second[2..] && second == second[..2] + [second[2]] + second[3..];
    LastValueIs(first[..1], first[1], first[2..], []);
    LastValueIs(first[..2], first[2], first[3..], []);
    LastValueIs(second[..1], second[1], second[2..], []);
    LastValueIs(second[..2], second[2], second[3..], []);
    NoEntryFrom(first);
  }

  lemma {:induction false} NoEntryFrom(fields: seq<Field>)
    requires forall f :: f in fields ==> f.tag != 268
    ensures NoEntry(fields)
  {
    if fields != [] {
      NoEntryFrom(fields[1..]);
    }
  }

  lemma QuoteFieldLookups(symbol: seq<Byte>, bidPx: seq<Byte>, bidSize: seq<Byte>, askPx: seq<Byte>, askSize: seq<Byte>,
                          date: seq<Byte>, time: seq<Byte>)
    ensures var msg := Singles(QuoteLayout(symbol, FirstLeg(bidPx, bidSize), SecondLeg(askPx, askSize, date, time)));
      IsMarketData(msg, symbol) && GetVal(msg, 272) == Some(Single(date)) && GetVal(msg, 273) == Some(Single(time))
  {
    hide Singles, GetVal;
    var fields := QuoteLayout(symbol, FirstLeg(bidPx, bidSize), SecondLeg(askPx, askSize, date, time));
    At(fields, 0);
    At(fields, 1);
    At(fields, 10);
    At(fields, 11);
  }

  /** A quote sent to a waiting session is forwarded with its bid and its ask as sent. */
  lemma QuoteArrives<F, T>(env: Env<F, T>, s: State<F, T>, symbol: seq<Byte>, bidPx: seq<Byte>, bidSize: seq<Byte>,
                           askPx: seq<Byte>, askSize: seq<Byte>, date: seq<Byte>, time: seq<Byte>)
    requires s.running && s.buf == []
    requires var fields := QuoteLayout(symbol, FirstLeg(bidPx, bidSize), SecondLeg(askPx, askSize, date, time));
      Sendable(fields) && |Wire(fields)| <= USIZE_MAX
    requires env.reader.float(bidPx).Some? && env.reader.float(askPx).Some? && env.reader.time(date, time).Some?
    requires ParseI32(bidSize).Some? && ParseI32(bidSize).value >= 0
    requires ParseI32(askSize).Some? && ParseI32(askSize).value >= 0
    ensures var bytes := Wire(QuoteLayout(symbol, FirstLeg(bidPx, bidSize), SecondLeg(askPx, askSize, date, time)));
      OnEvent(env, s, Chunk(bytes))
      == s.(handled := s.handled + [bytes],
            ticks := s.ticks + [Tick.Quote(env.reader.time(date, time).value, symbol,
                                           env.reader.float(bidPx).value, ParseI32(bidSize).value,
                                           env.reader.float(askPx).value, ParseI32(askSize).value)])
  {
    hide EffectOf, Wire, Encode, Singles, GetVal, ParseInt, IsWireMessage, Sendable, NoEntry, ParseUint, IsMarketData;
    hide OnEvent, Framer, LastValue;
    var first, second := FirstLeg(bidPx, bidSize), SecondLeg(askPx, askSize, date, time);
    var entry, head := Field(268, Ascii("2")), [Field(35, Ascii("W")), Field(55, symbol)];
    var fields := QuoteLayout(symbol, first, second);
    LegValues(bidPx, bidSize, askPx, askSize, date, time);
    QuoteFieldLookups(symbol, bidPx, bidSize, askPx, askSize, date, time);
    SendableIsWire(fields);
    One();
    TradeHead(symbol);
    EncodedQuoteTick(env, Singles(fields), head, entry, first, entry, second, symbol, date, time);
    Arrives(env, s, fields);
  }
}
