/** A growable byte buffer (`BytesMut`). */
module Buffers {
  import opened Bytes

  class ByteBuffer {
    var data: seq<Byte>

    constructor ()
      ensures data == []
    {
      data := [];
    }

    method ExtendFromSlice(bytes: seq<Byte>)
      modifies this
      ensures data == old(data) + bytes
    {
      data := data + bytes;
    }

    /** Removes and returns the first `n` bytes. */
    method SplitTo(n: nat) returns (front: seq<Byte>)
      requires n <= |data|
      modifies this
      ensures front == old(data)[..n] && data == old(data)[n..]
    {
      front := data[..n];
      data := data[n..];
    }
  }
}

/** Encoding of messages (fix/codec.rs) and reading the encoding back field by field. */
module Encoder {
  import opened Wrappers
  import opened Bytes
  import opened Parser
  import opened Message
  import opened Tags
  import opened Buffers

  const VERSION: seq<Byte> := [70, 73, 88, 46, 52, 46, 52] // FIX.4.4

  /** The encoder supplies 8, 9 and 10 itself and skips any the message carries. */
  predicate OnWire(tag: nat)
  {
    tag != BEGIN_STRING && tag != BODY_LENGTH && tag != CHECK_SUM
  }

  /** The fields a message puts on the wire; None when one of them is a pair. */
  function WireFields(msg: RawMessage): Option<seq<Field>>
  {
    if msg == [] then Some([])
    else if !OnWire(msg[0].tag) then WireFields(msg[1..])
    else
      match (msg[0].val, WireFields(msg[1..]))
      case (Single(text), Some(later)) => Some([Field(msg[0].tag, text)] + later)
      case _ => None
  }

  function Body(fields: seq<Field>): seq<Byte>
  {
    if fields == [] then [] else FieldBytes(fields[0]) + Body(fields[1..])
  }

  function Sum(bytes: seq<Byte>): nat
  {
    if bytes == [] then 0 else Sum(bytes[..|bytes| - 1]) + bytes[|bytes| - 1]
  }

  function BeginString(): Field
  {
    Field(BEGIN_STRING, VERSION)
  }

  function BodyLength(fields: seq<Field>): Field
  {
    Field(BODY_LENGTH, Print(|Body(fields)|))
  }

  /** Everything before the trailer. */
  function Summed(fields: seq<Field>): seq<Byte>
  {
    FieldBytes(BeginString()) + FieldBytes(BodyLength(fields)) + Body(fields)
  }

  function CheckSum(fields: seq<Field>): Field
  {
    Field(CHECK_SUM, Print3(Sum(Summed(fields)) % 256))
  }

  function Wire(fields: seq<Field>): seq<Byte>
  {
    Summed(fields) + FieldBytes(CheckSum(fields))
  }

  function Encode(msg: RawMessage): Option<seq<Byte>>
  {
    match WireFields(msg)
    case Some(fields) => Some(Wire(fields))
    case None => None
  }

  /** `encode`: appends the encoding to `dst`, or reports a pair and appends nothing. */
  method EncodeTo(msg: RawMessage, dst: ByteBuffer) returns (ok: bool)
    modifies dst
    ensures ok == Encode(msg).Some?
    ensures dst.data == old(dst.data) + if ok then Encode(msg).value else []
  {
    var body := [];
    ghost var done: seq<Field> := [];
    assert msg[0..] == msg;
    PrependNothing(WireFields(msg));
    for i := 0 to |msg|
      invariant body == Body(done)
      invariant WireFields(msg) == Prepend(done, WireFields(msg[i..]))
      invariant dst.data == old(dst.data)
    {
      hide Body;
      var tag, value := msg[i].tag, msg[i].val;
      WireFieldsStep(msg, i);
      if tag == BEGIN_STRING || tag == BODY_LENGTH || tag == CHECK_SUM {
        continue;
      }
      if value.Pair? {
        return false;
      }
      body := body + Print(tag) + [EQUALS] + value.text + [SOH];
      ghost var f := Field(tag, value.text);
      BodySnoc(done, f);
      PrependTwice(done, [f], WireFields(msg[i + 1..]));
      done := done + [f];
    }
    assert WireFields(msg) == Some(done + []) && done + [] == done;
    var full := [56, EQUALS] + VERSION + [SOH];
    full := full + [57, EQUALS] + Print(|body|) + [SOH];
    full := full + body;
    var checksum := Sum(full) % 256;
    PiecesAreWire(done, full);
    dst.ExtendFromSlice(full);
    dst.ExtendFromSlice([49, 48, EQUALS] + Print3(checksum));
    dst.ExtendFromSlice([SOH]);
    return true;
  }

  lemma WireFieldsStep(msg: RawMessage, i: nat)
    requires i < |msg|
    ensures WireFields(msg[i..])
            == if !OnWire(msg[i].tag) then WireFields(msg[i + 1..])
               else if msg[i].val.Pair? then None
               else Prepend([Field(msg[i].tag, msg[i].val.text)], WireFields(msg[i + 1..]))
  {
    assert msg[i..][1..] == msg[i + 1..];
  }

  lemma PiecesAreWire(fields: seq<Field>, full: seq<Byte>)
    requires full == [56, EQUALS] + VERSION + [SOH] + [57, EQUALS] + Print(|Body(fields)|) + [SOH] + Body(fields)
    ensures full == Summed(fields)
    ensures full + ([49, 48, EQUALS] + Print3(Sum(full) % 256)) + [SOH] == Wire(fields)
  {
    hide Body, Sum, Print3;
    assert Print(8) == [56] && Print(9) == [57] && Print(10) == [49, 48];
    assert FieldBytes(BeginString()) == [56, EQUALS] + VERSION + [SOH];
    assert FieldBytes(BodyLength(fields)) == [57, EQUALS] + Print(|Body(fields)|) + [SOH];
    assert FieldBytes(CheckSum(fields)) == [49, 48, EQUALS] + Print3(Sum(Summed(fields)) % 256) + [SOH];
  }

  /** Puts fields already written in front of the outcome for the rest. */
  ghost function Prepend(done: seq<Field>, rest: Option<seq<Field>>): Option<seq<Field>>
  {
    match rest
    case Some(later) => Some(done + later)
    case None => None
  }

  lemma PrependNothing(rest: Option<seq<Field>>)
    ensures Prepend([], rest) == rest
  {
    if rest.Some? {
      assert [] + rest.value == rest.value;
    }
  }

  lemma PrependTwice(a: seq<Field>, b: seq<Field>, rest: Option<seq<Field>>)
    ensures Prepend(a, Prepend(b, rest)) == Prepend(a + b, rest)
  {
    if rest.Some? {
      assert a + (b + rest.value) == (a + b) + rest.value;
    }
  }

  lemma {:induction false} BodyConcat(a: seq<Field>, b: seq<Field>)
    ensures Body(a + b) == Body(a) + Body(b)
  {
    if a == [] {
      assert a + b == b;
    } else {
      assert (a + b)[1..] == a[1..] + b;
      BodyConcat(a[1..], b);
    }
  }

  lemma BodySnoc(fields: seq<Field>, f: Field)
    ensures Body(fields + [f]) == Body(fields) + Print(f.tag) + [EQUALS] + f.value + [SOH]
  {
    BodyConcat(fields, [f]);
    assert Body([f]) == FieldBytes(f) + Body([]);
  }

  lemma OnWireTags(tag: nat)
    ensures OnWire(tag) <==> tag != 8 && tag != 9 && tag != 10
  {
  }

  lemma WireFieldsOfOne(tag: nat, val: Val)
    ensures WireFields([RawField(tag, val)])
            == if tag == 8 || tag == 9 || tag == 10 then Some([])
               else match val case Single(text) => Some([Field(tag, text)]) case Pair(_, _) => None
  {
    assert [RawField(tag, val)][1..] == [];
    if val.Single? {
      assert [Field(tag, val.text)] + [] == [Field(tag, val.text)];
    }
  }

  /** Fields go on the wire one by one, in order; one that cannot spoils them all. */
  lemma {:induction false} WireFieldsConcat(a: RawMessage, b: RawMessage)
    ensures WireFields(a + b)
            == match (WireFields(a), WireFields(b)) case (Some(x), Some(y)) => Some(x + y) case _ => None
  {
    if a == [] {
      assert a + b == b;
      if WireFields(b).Some? {
        assert [] + WireFields(b).value == WireFields(b).value;
      }
    } else {
      assert (a + b)[0] == a[0] && (a + b)[1..] == a[1..] + b;
      WireFieldsConcat(a[1..], b);
      if WireFields(a).Some? && WireFields(b).Some? && OnWire(a[0].tag) {
        var f, x, y := Field(a[0].tag, a[0].val.text), WireFields(a[1..]).value, WireFields(b).value;
        assert [f] + (x + y) == ([f] + x) + y;
      }
    }
  }

  lemma BodyOfOne(f: Field)
    ensures Body([f]) == FieldBytes(f)
  {
    assert Body([f]) == FieldBytes(f) + Body([]);
  }

  lemma SumOfOne(b: Byte)
    ensures Sum([b]) == b
  {
    assert [b][..0] == [];
  }

  /** The sum of two stretches of bytes is the sum of their sums. */
  lemma {:induction false} SumConcat(a: seq<Byte>, b: seq<Byte>)
    ensures Sum(a + b) == Sum(a) + Sum(b)
    decreases |b|
  {
    if b == [] {
      assert a + b == a;
    } else {
      var front, last := b[..|b| - 1], b[|b| - 1];
      assert (a + b)[..|a + b| - 1] == a + front;
      SumConcat(a, front);
    }
  }

  /** Encoding is refused exactly when a field that would go on the wire holds a pair. */
  lemma {:induction false} EncodeRefused(msg: RawMessage)
    ensures Encode(msg).None? <==> exists f :: f in msg && OnWire(f.tag) && f.val.Pair?
  {
    hide Wire;
    if msg != [] {
      EncodeRefused(msg[1..]);
      assert msg == [msg[0]] + msg[1..];
      assert forall f :: f in msg <==> f == msg[0] || f in msg[1..];
    }
  }

  // ---------- Reading an encoding back ----------

  /** Fields a reader can tell apart again: u32 tags, no SOH inside a value. */
  ghost predicate Printable(fields: seq<Field>)
  {
    forall f :: f in fields ==> f.tag <= U32_MAX && SOH !in f.value
  }

  /** All the fields of an encoding, envelope included. */
  function AllFields(fields: seq<Field>): seq<Field>
  {
    [BeginString(), BodyLength(fields)] + fields + [CheckSum(fields)]
  }

  lemma WireIsBody(fields: seq<Field>)
    ensures Body(AllFields(fields)) == Wire(fields)
  {
    var front := [BeginString(), BodyLength(fields)];
    BodyConcat(front + fields, [CheckSum(fields)]);
    BodyConcat(front, fields);
    assert front[1..] == [BodyLength(fields)] && front[1..][1..] == [];
    assert Body(front) == FieldBytes(BeginString()) + FieldBytes(BodyLength(fields));
    assert [CheckSum(fields)][1..] == [];
    assert Body([CheckSum(fields)]) == FieldBytes(CheckSum(fields));
  }

  lemma EnvelopePrintable(fields: seq<Field>)
    requires Printable(fields)
    ensures Printable(AllFields(fields))
  {
    DigitsAreText(|Body(fields)|);
  }

  /** The first printed field reads back and the cursor stands before the next. */
  lemma ReadFirst(data: seq<Byte>, pos: nat, fields: seq<Field>)
    requires fields != [] && Printable(fields)
    requires pos + |Body(fields)| <= |data| && data[pos..pos + |Body(fields)|] == Body(fields)
    ensures var next := pos + |FieldBytes(fields[0])|;
      && FieldStep(data, pos) == Step(Some(fields[0]), next)
      && next + |Body(fields[1..])| == pos + |Body(fields)|
      && data[next..next + |Body(fields[1..])|] == Body(fields[1..])
  {
    var first, later := FieldBytes(fields[0]), Body(fields[1..]);
    assert Body(fields) == first + later;
    var n := |first|;
    var all := n + |later|;
    SliceOfSlice(data, pos, pos + all, 0, n);
    SliceOfSlice(data, pos, pos + all, n, all);
    assert (first + later)[..n] == first && (first + later)[n..all] == later;
    FieldRoundTrip(data, pos, fields[0]);
  }

  lemma FieldsFromStep(data: seq<Byte>, pos: nat, f: Field, next: nat)
    requires pos <= |data| && FieldStep(data, pos) == Step(Some(f), next)
    ensures FieldsFrom(data, pos) == [f] + FieldsFrom(data, next)
  {
  }

  /** Iterating the cursor over printed fields yields those fields, in order. */
  lemma {:induction false} ReadBack(data: seq<Byte>, pos: nat, fields: seq<Field>)
    requires Printable(fields)
    requires pos + |Body(fields)| <= |data| && data[pos..pos + |Body(fields)|] == Body(fields)
    ensures FieldsFrom(data, pos) == fields + FieldsFrom(data, pos + |Body(fields)|)
    decreases |fields|
  {
    hide FieldStep, FieldsFrom, FieldBytes;
    var end := pos + |Body(fields)|;
    if fields == [] {
      assert [] + FieldsFrom(data, end) == FieldsFrom(data, end);
    } else {
      hide Body;
      var first, later := fields[0], fields[1..];
      var next := pos + |FieldBytes(first)|;
      ReadFirst(data, pos, fields);
      ReadBack(data, next, later);
      FieldsFromStep(data, pos, first, next);
      assert fields == [first] + later;
      assert [first] + (later + FieldsFrom(data, end)) == fields + FieldsFrom(data, end);
    }
  }

  lemma TrailerIs(fields: seq<Field>)
    ensures var sum := CheckSum(fields).value;
      && AllFields(fields) == [Field(8, Ascii("FIX.4.4")), Field(9, Print(|Body(fields)|))] + fields + [Field(10, sum)]
      && |sum| == 3 && AllDigits(sum) && |Wire(fields)| > 7
      && Value(sum) == Sum(Wire(fields)[..|Wire(fields)| - 7]) % 256
  {
    hide Body, Sum, Value, Print3;
    assert Ascii("FIX.4.4") == VERSION;
    assert Print(10) == [49, 48];
    assert |FieldBytes(CheckSum(fields))| == 7;
    assert Wire(fields)[..|Wire(fields)| - 7] == Summed(fields);
  }

  /** The cursor reads an encoding as BeginString, the true BodyLength, the message's own
      fields and the CheckSum: three digits, the sum of all bytes before it modulo 256. */
  lemma FieldsOfEncoding(fields: seq<Field>)
    requires Printable(fields)
    ensures FieldsFrom(Wire(fields), 0) == AllFields(fields)
    ensures var sum := CheckSum(fields).value;
      && AllFields(fields) == [Field(8, Ascii("FIX.4.4")), Field(9, Print(|Body(fields)|))] + fields + [Field(10, sum)]
      && |sum| == 3 && AllDigits(sum) && |Wire(fields)| > 7
      && Value(sum) == Sum(Wire(fields)[..|Wire(fields)| - 7]) % 256
  {
    TrailerIs(fields);
    var data := Wire(fields);
    WireIsBody(fields);
    EnvelopePrintable(fields);
    assert data[0..|data|] == data;
    ReadBack(data, 0, AllFields(fields));
    assert FieldsFrom(data, |data|) == [];
  }
}
