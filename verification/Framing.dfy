/** Pulling complete FIX messages off a growing buffer (network/framing.rs). */
module Framing {
  import opened Wrappers
  import opened Bytes
  import opened Parser
  import opened Tags
  import opened Buffers
  import opened Encoder
  import opened Draining

  const TRAILER_LEN: nat := 7

  /** What the front of the buffer announces: cursor, BodyLength and trailer added up, as a
      number without bound. */
  datatype Header = NoHeader | BadHeader | Announces(total: nat)

  /** A BodyLength that is not UTF-8 is not digits either, so one parse covers both refusals. */
  function ScanHeader(buf: seq<Byte>): (h: Header)
    ensures h.Announces? ==> TRAILER_LEN <= h.total
  {
    var begin := FieldStep(buf, 0);
    if begin.field.None? then NoHeader
    else if begin.field.value.tag != BEGIN_STRING then BadHeader
    else
      var length := FieldStep(buf, begin.pos);
      if length.field.None? then NoHeader
      else if length.field.value.tag != BODY_LENGTH then BadHeader
      else
        match ParseUsize(length.field.value.value)
        case Some(bodyLen) => if bodyLen < 0 then BadHeader else Announces(length.pos + bodyLen + TRAILER_LEN)
        case None => BadHeader
  }

  /** Overflow: the additions exceed usize, and a checked build stops there. */
  datatype Frame = Complete(total: nat) | Incomplete | NotValid | Overflow

  /** What `extract_message` makes of it: a wrapping build goes on with the sum modulo 2^64. */
  function ScanFrame(build: Build, buf: seq<Byte>): (r: Frame)
    ensures r.Complete? ==> r.total <= |buf|
  {
    match ScanHeader(buf)
    case NoHeader => Incomplete
    case BadHeader => NotValid
    case Announces(sum) =>
      if build == Checked && sum > USIZE_MAX then Overflow
      else if |buf| < sum % (USIZE_MAX + 1) then Incomplete
      else Complete(sum % (USIZE_MAX + 1))
  }

  datatype Extracted = Message(bytes: seq<Byte>) | Partial | Refused | Panicked

  /** `extract_message`; Panicked when a checked build stops on the additions. */
  method ExtractMessage(build: Build, buf: ByteBuffer) returns (r: Extracted)
    modifies buf
    ensures match ScanFrame(build, old(buf.data))
      case Complete(n) => r == Message(old(buf.data)[..n]) && buf.data == old(buf.data)[n..]
      case Incomplete => r == Partial && buf.data == old(buf.data)
      case NotValid => r == Refused && buf.data == old(buf.data)
      case Overflow => r == Panicked && buf.data == old(buf.data)
  {
    hide FieldStep, ParseInt;
    var parser := new FixParser(buf.data);
    var begin := parser.NextField();
    if begin.None? {
      return Partial;
    }
    if begin.value.tag != BEGIN_STRING {
      return Refused;
    }
    var length := parser.NextField();
    if length.None? {
      return Partial;
    }
    if length.value.tag != BODY_LENGTH {
      return Refused;
    }
    var bodyLen := ParseUsize(length.value.value);
    if bodyLen.None? {
      return Refused;
    }
    UsizeNotNegative(length.value.value);
    var total := parser.pos + bodyLen.value + TRAILER_LEN;
    if build == Checked && total > USIZE_MAX {
      return Panicked;
    }
    total := total % (USIZE_MAX + 1);
    if |buf.data| < total {
      return Partial;
    }
    var front := buf.SplitTo(total);
    return Message(front);
  }

  lemma UsizeNotNegative(s: seq<Byte>)
    ensures ParseUsize(s).Some? ==> 0 <= ParseUsize(s).value <= USIZE_MAX
  {
  }

  /** The loop never gets past an overflow in a checked build, where it panics, nor past an
      announced total that wraps to zero, where it takes empty messages for ever. */
  function CutOf(r: Frame): Cut
  {
    match r
    case Complete(n) => if n == 0 then Halt else Take(n)
    case Overflow => Halt
    case _ => Wait
  }

  function Framer(build: Build): Cutter
  {
    buf => CutOf(ScanFrame(build, buf))
  }

  /** The `while let Ok(Some(..)) = extract_message(..)` loop: it stops alike on a partial
      and on a refused buffer. */
  method DrainMessages(build: Build, buf: ByteBuffer) returns (messages: seq<seq<Byte>>, halted: bool)
    modifies buf
    ensures Drained(messages, buf.data, halted) == Drain(Framer(build), old(buf.data))
  {
    hide Drain, ScanFrame;
    messages := [];
    while true
      invariant Onto(messages, Drain(Framer(build), buf.data)) == Drain(Framer(build), old(buf.data))
      decreases |buf.data|
    {
      ghost var before := buf.data;
      var r := ExtractMessage(build, buf);
      if !r.Message? || r.bytes == [] {
        DrainNone(Framer(build), before);
        assert messages + [] == messages;
        return messages, r.Message? || r.Panicked?;
      }
      DrainSome(Framer(build), before);
      OntoTwice(messages, [r.bytes], Drain(Framer(build), buf.data));
      messages := messages + [r.bytes];
    }
  }

  /** The buffers refused: a first field other than 8, or a second other than 9 or whose value
      is no number; a field there must be for that, and for nothing else. */
  lemma RefusedExactly(build: Build, buf: seq<Byte>)
    ensures ScanFrame(build, buf).NotValid? <==>
      var fields := FieldsFrom(buf, 0);
      || (|fields| > 0 && fields[0].tag != 8)
      || (|fields| > 1 && (fields[1].tag != 9 || ParseUsize(fields[1].value).None?))
  {
    hide FieldStep, ParseInt;
    var begin := FieldStep(buf, 0);
    if begin.field.Some? {
      assert FieldsFrom(buf, 0)[1..] == FieldsFrom(buf, begin.pos);
      var length := FieldStep(buf, begin.pos);
      if length.field.Some? {
        UsizeNotNegative(length.field.value.value);
      }
    }
  }

  // ---------- Independence from chunking ----------

  /** A header whose message is all there reads the same whatever bytes follow. */
  lemma HeaderStable(buf: seq<Byte>, more: seq<Byte>)
    requires ScanHeader(buf).Announces? && ScanHeader(buf).total <= |buf|
    ensures ScanHeader(buf + more) == ScanHeader(buf)
  {
    hide FieldStep, ParseInt;
    var begin := FieldStep(buf, 0);
    FieldStepStable(buf, 0, more);
    FieldStepStable(buf, begin.pos, more);
  }

  /** The message's own bytes are enough to read its header. */
  lemma HeaderLocal(buf: seq<Byte>)
    requires ScanHeader(buf).Announces? && ScanHeader(buf).total <= |buf|
    ensures ScanHeader(buf[..ScanHeader(buf).total]) == ScanHeader(buf)
  {
    hide FieldStep, ParseInt;
    var n := ScanHeader(buf).total;
    var begin := FieldStep(buf, 0);
    FieldStepLocal(buf, 0, n);
    FieldStepLocal(buf, begin.pos, n);
  }

  /** A message found in a buffer is found there whatever bytes follow, and in its own bytes
      alone, as long as the announced total fits usize. */
  lemma FrameStable(build: Build, buf: seq<Byte>, more: seq<Byte>)
    requires ScanFrame(build, buf).Complete? && ScanHeader(buf).total <= USIZE_MAX
    ensures ScanFrame(build, buf + more) == ScanFrame(build, buf)
    ensures ScanFrame(build, buf[..ScanFrame(build, buf).total]) == ScanFrame(build, buf)
  {
    hide ScanHeader;
    HeaderStable(buf, more);
    HeaderLocal(buf);
  }

  lemma CheckedTotal(buf: seq<Byte>)
    requires ScanFrame(Checked, buf).Complete?
    ensures ScanHeader(buf).total <= USIZE_MAX && ScanFrame(Checked, buf).total > 0
  {
  }

  lemma CheckedFramer()
    ensures Stable(Framer(Checked)) && Prompt(Framer(Checked)) && Framer(Checked)([]).Wait?
  {
    hide ScanFrame;
    forall buf: seq<Byte>, more | Takes(Framer(Checked), buf)
      ensures Framer(Checked)(buf + more) == Framer(Checked)(buf)
    {
      CheckedTotal(buf);
      FrameStable(Checked, buf, more);
    }
    forall buf: seq<Byte> | Takes(Framer(Checked), buf)
      ensures Framer(Checked)(buf[..Framer(Checked)(buf).n]) == Framer(Checked)(buf)
    {
      CheckedTotal(buf);
      FrameStable(Checked, buf, []);
    }
    NothingWaits(Checked);
  }

  lemma NothingWaits(build: Build)
    ensures ScanFrame(build, []) == Incomplete
  {
  }

  /** For every build and byte stream, malformed ones included, the messages and the leftover
      are those of the whole stream under every split into chunks exactly when the framer says,
      wherever the stream may stop, what it says of the whole. */
  lemma FramingExactly(build: Build, stream: seq<Byte>)
    ensures SplitIrrelevant(Framer(build), stream) <==> AgreesFrom(Framer(build), stream, 0)
  {
    hide ScanFrame;
    NothingWaits(build);
    SplittingExactly(Framer(build), stream);
  }

  /** For a checked build that comes to less: the messages and the leftover are those of the whole
      stream under every split exactly when no part of it short of its end announces more than
      usize. */
  lemma FramingIgnoresChunks(stream: seq<Byte>)
    ensures SplitIrrelevant(Framer(Checked), stream) <==> NoEarlyHalt(Framer(Checked), stream)
  {
    hide ScanFrame;
    CheckedFramer();
    ChunkingIrrelevant(Framer(Checked), stream);
  }

  /** No header in the stream, wherever it is cut, announces more than usize. */
  ghost predicate Fits(stream: seq<Byte>)
  {
    NoEarlyHalt(Framer(Checked), stream) && !Drain(Framer(Checked), stream).halted
  }

  lemma BuildsAgree(build: Build, buf: seq<Byte>)
    requires !Framer(Checked)(buf).Halt?
    ensures Framer(build)(buf) == Framer(Checked)(buf)
  {
    hide ScanHeader;
  }

  /** As long as a checked build does not stop, a wrapping one drains the same. */
  lemma {:induction false} DrainsAgree(build: Build, buf: seq<Byte>)
    requires !Drain(Framer(Checked), buf).halted
    ensures Drain(Framer(build), buf) == Drain(Framer(Checked), buf)
    decreases |buf|
  {
    hide ScanFrame, Drain;
    var cut := Framer(Checked);
    if Takes(cut, buf) {
      var n := cut(buf).n;
      BuildsAgree(build, buf);
      DrainSome(cut, buf);
      DrainSome(Framer(build), buf);
      OntoUnits([buf[..n]], Drain(cut, buf[n..]));
      DrainsAgree(build, buf[n..]);
    } else {
      DrainNone(cut, buf);
      BuildsAgree(build, buf);
      DrainNone(Framer(build), buf);
    }
  }

  lemma {:induction false} FeedsAgree(build: Build, buf: seq<Byte>, chunks: seq<seq<Byte>>)
    requires !Feed(Framer(Checked), buf, chunks).halted
    ensures Feed(Framer(build), buf, chunks) == Feed(Framer(Checked), buf, chunks)
    decreases |chunks|
  {
    hide ScanFrame, Drain, Feed, Framer;
    if chunks == [] {
      FeedNothing(Framer(build), buf);
      FeedNothing(Framer(Checked), buf);
    } else {
      FeedStep(Framer(build), buf, chunks);
      FeedStep(Framer(Checked), buf, chunks);
      var now := Drain(Framer(Checked), buf + chunks[0]);
      DrainsAgree(build, buf + chunks[0]);
      OntoUnits(now.units, Feed(Framer(Checked), now.rest, chunks[1..]));
      FeedsAgree(build, now.rest, chunks[1..]);
    }
  }

  /** On such streams every build takes off the same messages, under every split, and goes on. */
  lemma FittingStreams(build: Build, stream: seq<Byte>, chunks: seq<seq<Byte>>)
    requires Fits(stream) && Flatten(chunks) == stream
    ensures Feed(Framer(build), [], chunks) == Drain(Framer(build), stream) == Drain(Framer(Checked), stream)
    ensures !Drain(Framer(build), stream).halted
  {
    hide ScanFrame, Drain, Feed, Framer;
    FramingIgnoresChunks(stream);
    assert Feed(Framer(Checked), [], chunks) == Drain(Framer(Checked), stream);
    FeedsAgree(build, [], chunks);
    DrainsAgree(build, stream);
  }

  // ---------- Headers that announce too much ----------

  /** BeginString, then a BodyLength of `n`. */
  function HeaderBytes(begin: seq<Byte>, n: nat): seq<Byte>
  {
    FieldBytes(Field(BEGIN_STRING, begin)) + FieldBytes(Field(BODY_LENGTH, Print(n)))
  }

  lemma HeaderReads(begin: seq<Byte>, n: nat, more: seq<Byte>)
    requires SOH !in begin && n <= USIZE_MAX
    ensures ScanHeader(HeaderBytes(begin, n) + more) == Announces(|HeaderBytes(begin, n)| + n + TRAILER_LEN)
  {
    hide FieldStep, Print, FieldBytes, ParseInt;
    var data := HeaderBytes(begin, n) + more;
    var first, second := FieldBytes(Field(BEGIN_STRING, begin)), FieldBytes(Field(BODY_LENGTH, Print(n)));
    assert data[0..|first|] == first && data[|first|..|first| + |second|] == second;
    FieldRoundTrip(data, 0, Field(BEGIN_STRING, begin));
    DigitsAreText(n);
    FieldRoundTrip(data, |first|, Field(BODY_LENGTH, Print(n)));
    ParsePrinted(n);
  }

  lemma HeaderLength(begin: seq<Byte>, n: nat)
    requires 10_000_000_000_000_000_000 <= n <= USIZE_MAX
    ensures |HeaderBytes(begin, n)| == |begin| + 26
  {
    TwentyDigits();
    PrintLength(n, 20);
    hide Print;
    assert Print(BEGIN_STRING) == [56] && Print(BODY_LENGTH) == [57] by { SmallTags(); }
  }

  lemma TwentyDigits()
    ensures Pow10(19) == 10_000_000_000_000_000_000 && Pow10(20) == 100_000_000_000_000_000_000
  {
    assert Pow10(5) == 100_000;
    assert Pow10(10) == 10_000_000_000;
    assert Pow10(15) == 1_000_000_000_000_000;
  }

  lemma SmallTags()
    ensures Print(8) == [56] && Print(9) == [57] && Print(10) == [49, 48]
  {
  }

  /** `8=FIX.4.4`, `9=18446744073709551576`: cursor, BodyLength and trailer add up to 2^64. A
      checked build panics on it; a wrapping one takes zero bytes, and so takes them again. */
  lemma TotalWrapsToZero(more: seq<Byte>)
    ensures var buf := HeaderBytes(Ascii("FIX.4.4"), 18_446_744_073_709_551_576) + more;
      ScanFrame(Checked, buf) == Overflow && ScanFrame(Wrapping, buf) == Complete(0)
  {
    hide ScanHeader, HeaderBytes;
    assert Ascii("FIX.4.4") == VERSION;
    HeaderReads(VERSION, USIZE_MAX - 39, more);
    HeaderLength(VERSION, USIZE_MAX - 39);
  }

  /** `8=x`, `9=18446744073709551600`, cut before the last SOH: a wrapping build takes 17 bytes
      off it, and 18 once the SOH is there. What it takes then depends on the chunks. */
  lemma WrappedTotalMoves()
    ensures var stream := HeaderBytes(Ascii("x"), 18_446_744_073_709_551_600);
      && |stream| > 0 && var cut := stream[..|stream| - 1];
      && ScanFrame(Wrapping, cut) == Complete(17) && ScanFrame(Wrapping, stream) == Complete(18)
      && Feed(Framer(Wrapping), [], [cut, [SOH]]).units != Drain(Framer(Wrapping), stream).units
      && !SplitIrrelevant(Framer(Wrapping), stream)
  {
    hide ScanHeader, HeaderBytes, Drain, Feed, Flatten;
    var n := USIZE_MAX - 15;
    assert Ascii("x") == [120];
    var stream := HeaderBytes([120], n);
    HeaderLength([120], n);
    var cut := stream[..|stream| - 1];
    HeaderReads([120], n, []);
    assert stream + [] == stream;
    CutHeaderReads([120], n);
    var f := Framer(Wrapping);
    FlattenTwo(cut, [SOH]);
    HeaderEnds([120], n);
    assert cut + [SOH] == stream && [] + cut == cut;
    FeedStep(f, [], [cut, [SOH]]);
    DrainSome(f, cut);
    DrainSome(f, stream);
    FirstUnit(f, [], [cut, [SOH]], cut[..17]);
    assert Drain(f, stream).units[0] == stream[..18];
  }

  /** The first unit of the first chunk is the first unit of them all. */
  lemma FirstUnit(cut: Cutter, buf: seq<Byte>, chunks: seq<seq<Byte>>, unit: seq<Byte>)
    requires chunks != [] && |Drain(cut, buf + chunks[0]).units| > 0 && Drain(cut, buf + chunks[0]).units[0] == unit
    ensures |Feed(cut, buf, chunks).units| > 0 && Feed(cut, buf, chunks).units[0] == unit
  {
    hide Drain, Feed;
    FeedStep(cut, buf, chunks);
  }

  lemma HeaderEnds(begin: seq<Byte>, n: nat)
    ensures var h := HeaderBytes(begin, n);
      |h| > 0 && h[..|h| - 1] + [SOH] == h
  {
    hide Print;
  }

  lemma CutHeaderReads(begin: seq<Byte>, n: nat)
    requires SOH !in begin && n <= USIZE_MAX
    ensures var h := HeaderBytes(begin, n);
      |h| > 0 && ScanHeader(h[..|h| - 1]) == Announces(|h| - 1 + n + TRAILER_LEN)
  {
    hide FieldStep, Print, FieldBytes, ParseInt, HeaderBytes;
    HeaderEnds(begin, n);
    var data := HeaderBytes(begin, n)[..|HeaderBytes(begin, n)| - 1];
    var first, second := FieldBytes(Field(BEGIN_STRING, begin)), FieldBytes(Field(BODY_LENGTH, Print(n)));
    HeaderParts(begin, n);
    assert data[0..|first|] == first;
    FieldRoundTrip(data, 0, Field(BEGIN_STRING, begin));
    DigitsAreText(n);
    assert data[|first|..] + [SOH] == second;
    FieldAtEnd(data, |first|, Field(BODY_LENGTH, Print(n)));
    ParsePrinted(n);
  }

  lemma HeaderParts(begin: seq<Byte>, n: nat)
    ensures var first, second := FieldBytes(Field(BEGIN_STRING, begin)), FieldBytes(Field(BODY_LENGTH, Print(n)));
      HeaderBytes(begin, n) == first + second && |second| > 0 && second[|second| - 1] == SOH
  {
    hide Print;
  }

  // ---------- Framing what the encoder wrote ----------

  /** The header of an encoding announces its exact length, whatever the values hold. */
  lemma HeaderOfEncoding(fields: seq<Field>, more: seq<Byte>)
    requires |Wire(fields)| <= USIZE_MAX
    ensures ScanHeader(Wire(fields) + more) == Announces(|Wire(fields)|)
  {
    hide ScanHeader, HeaderBytes, Body, FieldBytes, Sum, Print;
    CheckSumLength(fields);
    WireStart(fields);
    var n := |Body(fields)|;
    var rest := Body(fields) + FieldBytes(CheckSum(fields)) + more;
    assert Wire(fields) + more == HeaderBytes(VERSION, n) + rest;
    HeaderReads(VERSION, n, rest);
  }

  lemma WireStart(fields: seq<Field>)
    ensures Wire(fields) == HeaderBytes(VERSION, |Body(fields)|) + (Body(fields) + FieldBytes(CheckSum(fields)))
  {
    hide Body, FieldBytes, Sum, Print;
  }

  lemma FrameOfEncoding(build: Build, fields: seq<Field>, more: seq<Byte>)
    requires |Wire(fields)| <= USIZE_MAX
    ensures ScanFrame(build, Wire(fields) + more) == Complete(|Wire(fields)|)
  {
    hide ScanHeader, Wire;
    HeaderOfEncoding(fields, more);
  }

  lemma CheckSumLength(fields: seq<Field>)
    ensures |FieldBytes(CheckSum(fields))| == TRAILER_LEN
  {
    hide Summed, Sum;
    assert Print(CHECK_SUM) == [49, 48];
  }

  /** A header cut anywhere announces no more than the whole encoding. */
  lemma CutEncodingFits(fields: seq<Field>, k: nat)
    requires |Wire(fields)| <= USIZE_MAX && k <= |Wire(fields)|
    requires ScanHeader(Wire(fields)[..k]).Announces?
    ensures ScanHeader(Wire(fields)[..k]).total <= |Wire(fields)|
  {
    hide FieldStep, ParseInt, Wire, Body, Print;
    var whole, cut, more := Wire(fields), Wire(fields)[..k], Wire(fields)[k..];
    assert cut + more == whole;
    EncodingHeader(fields);
    var begin := FieldStep(cut, 0);
    NothingAtEnd(cut);
    FieldStepStable(cut, 0, more);
    FieldStepGrows(cut, begin.pos, more);
    ParsePrefix(|Body(fields)|, FieldStep(cut, begin.pos).field.value.value);
  }

  lemma NothingAtEnd(data: seq<Byte>)
    ensures FieldStep(data, |data|).field.None?
  {
  }

  lemma EncodingHeader(fields: seq<Field>)
    requires |Wire(fields)| <= USIZE_MAX
    ensures var begin := FieldStep(Wire(fields), 0);
      var length := FieldStep(Wire(fields), begin.pos);
      && length.field == Some(BodyLength(fields))
      && length.pos + |Body(fields)| + TRAILER_LEN == |Wire(fields)|
  {
    hide FieldStep, Print, FieldBytes, Body, Sum;
    var data, n := Wire(fields), |Body(fields)|;
    var first, second := FieldBytes(BeginString()), FieldBytes(BodyLength(fields));
    CheckSumLength(fields);
    assert data[0..|first|] == first && data[|first|..|first| + |second|] == second;
    FieldRoundTrip(data, 0, BeginString());
    DigitsAreText(n);
    FieldRoundTrip(data, |first|, BodyLength(fields));
  }

  /** No strict prefix of an encoding is taken for a message or halts the loop, wherever it is cut. */
  lemma PrefixNotExtracted(build: Build, fields: seq<Field>, k: nat)
    requires |Wire(fields)| <= USIZE_MAX && k < |Wire(fields)|
    ensures Framer(build)(Wire(fields)[..k]).Wait?
    ensures !ScanFrame(build, Wire(fields)[..k]).Complete?
  {
    hide Wire, ScanHeader;
    var whole := Wire(fields);
    var cut := whole[..k];
    if ScanHeader(cut).Announces? {
      CutEncodingFits(fields, k);
      if ScanHeader(cut).total <= |cut| {
        HeaderStable(cut, whole[k..]);
        assert cut + whole[k..] == whole + [];
        HeaderOfEncoding(fields, []);
        assert false;
      }
    }
  }

  function Wires(batch: seq<seq<Field>>): seq<seq<Byte>>
  {
    if batch == [] then [] else [Wire(batch[0])] + Wires(batch[1..])
  }

  /** Encodings one after the other, the last one possibly cut short. */
  function Sending(batch: seq<seq<Field>>, last: seq<Byte>): seq<Byte>
  {
    Flatten(Wires(batch)) + last
  }

  lemma SendingFirst(batch: seq<seq<Field>>, last: seq<Byte>)
    requires batch != []
    ensures Sending(batch, last) == Wire(batch[0]) + Sending(batch[1..], last)
    ensures Wires(batch) == [Wire(batch[0])] + Wires(batch[1..])
  {
    hide Wire, Flatten;
    var all := Wires(batch);
    assert all[0] == Wire(batch[0]) && all[1..] == Wires(batch[1..]);
    FlattenFront(all);
    assert Wire(batch[0]) + Flatten(all[1..]) + last == Wire(batch[0]) + (Flatten(all[1..]) + last);
  }

  /** What every byte of the sending so far leads to: encodings whole, nothing halted. */
  lemma {:induction false} SendingDrains(batch: seq<seq<Field>>, last: seq<Field>, k: nat)
    requires (forall fields :: fields in batch + [last] ==> |Wire(fields)| <= USIZE_MAX) && k < |Wire(last)|
    ensures var rest := Wire(last)[..k];
      && Drain(Framer(Checked), Sending(batch, rest)) == Drained(Wires(batch), rest, false)
      && NoEarlyHalt(Framer(Checked), Sending(batch, rest))
    decreases |batch|
  {
    hide Wire, ScanFrame, Drain, NoEarlyHalt, Sending;
    var f, rest := Framer(Checked), Wire(last)[..k];
    assert (batch + [last])[|batch|] == last;
    if batch == [] {
      NothingSent(rest);
      forall b | 0 <= b <= |rest|
        ensures f(rest[..b]).Wait?
      {
        assert rest[..b] == Wire(last)[..b];
        PrefixNotExtracted(Checked, last, b);
      }
      assert rest[..|rest|] == rest;
      DrainNone(f, rest);
      NoHaltIfNone(f, rest);
    } else {
      var first, later := Wire(batch[0]), Sending(batch[1..], rest);
      assert batch[0] in batch + [last];
      SendingFirst(batch, rest);
      FrameOfEncoding(Checked, batch[0], later);
      WireNotEmpty(batch[0]);
      assert (batch + [last])[1..] == batch[1..] + [last];
      SendingDrains(batch[1..], last, k);
      DrainSome(f, first + later);
      assert (first + later)[..|first|] == first && (first + later)[|first|..] == later;
      EncodingNoHalt(batch[0], later);
    }
  }

  lemma NothingSent(last: seq<Byte>)
    ensures Sending([], last) == last && Wires([]) == []
  {
    assert [] + last == last;
  }

  lemma NoHaltIfNone(cut: Cutter, stream: seq<Byte>)
    requires !Takes(cut, stream) && forall b :: 0 <= b < |stream| ==> !cut(stream[..b]).Halt?
    ensures NoEarlyHalt(cut, stream)
  {
  }

  lemma EncodingNoHalt(fields: seq<Field>, later: seq<Byte>)
    requires |Wire(fields)| <= USIZE_MAX && NoEarlyHalt(Framer(Checked), later)
    ensures NoEarlyHalt(Framer(Checked), Wire(fields) + later)
  {
    hide Wire, ScanFrame;
    var stream, n := Wire(fields) + later, |Wire(fields)|;
    forall b | 0 <= b < |stream|
      ensures !Framer(Checked)(stream[..b]).Halt?
    {
      if b < n {
        assert stream[..b] == Wire(fields)[..b];
        PrefixNotExtracted(Checked, fields, b);
      } else {
        assert stream[..b] == Wire(fields) + stream[n..b];
        FrameOfEncoding(Checked, fields, stream[n..b]);
        WireNotEmpty(fields);
      }
    }
    FrameOfEncoding(Checked, fields, later);
    assert stream[n..] == later;
  }

  lemma WireNotEmpty(fields: seq<Field>)
    ensures |Wire(fields)| > 0
  {
    hide Body, Sum;
  }

  /** Encodings sent one after the other, the last one possibly cut short, and received in
      any chunks, are taken back by every build as exactly those byte strings. */
  lemma EncodingsSurviveChunking(build: Build, batch: seq<seq<Field>>, last: seq<Field>, k: nat, chunks: seq<seq<Byte>>)
    requires forall fields :: fields in batch + [last] ==> |Wire(fields)| <= USIZE_MAX
    requires k < |Wire(last)|
    requires Flatten(chunks) == Sending(batch, Wire(last)[..k])
    ensures Fits(Flatten(chunks))
    ensures Feed(Framer(build), [], chunks) == Drained(Wires(batch), Wire(last)[..k], false)
  {
    hide Wire, Framer, Sending, Drain, Feed, NoEarlyHalt, Flatten;
    SendingDrains(batch, last, k);
    FittingStreams(build, Flatten(chunks), chunks);
  }
}
