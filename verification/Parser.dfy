/** The cursor over `TAG=VALUE<SOH>` fields (fix/parser.rs). */
module Parser {
  import opened Wrappers
  import opened Bytes

  datatype Field = Field(tag: nat, value: seq<Byte>)

  /** What one call of `next_field` leaves behind: the field, if any, and the cursor.
      A failed call may also have moved the cursor over the digits it accepted. */
  datatype Step = Step(field: Option<Field>, pos: nat)

  /** Where the tag loop stops: at `=` or the end with a tag, or stuck on a byte it refuses. */
  datatype TagScan = Tag(tag: nat, pos: nat) | Stuck(pos: nat)

  function ScanTag(data: seq<Byte>, pos: nat, tag: nat): (r: TagScan)
    requires pos <= |data|
    ensures pos <= r.pos <= |data|
    ensures r.Tag? && r.pos < |data| ==> data[r.pos] == EQUALS
    decreases |data| - pos
  {
    if pos == |data| || data[pos] == EQUALS then Tag(tag, pos)
    else if !IsDigit(data[pos]) then Stuck(pos)
    else if tag * 10 + (data[pos] - 48) > U32_MAX then Stuck(pos)
    else ScanTag(data, pos + 1, tag * 10 + (data[pos] - 48))
  }

  function FieldStep(data: seq<Byte>, pos: nat): (r: Step)
    requires pos <= |data|
    ensures pos <= r.pos <= |data|
    ensures r.field.Some? ==> pos < r.pos
  {
    if pos == |data| then Step(None, pos)
    else
      match ScanTag(data, pos, 0)
      case Stuck(p) => Step(None, p)
      case Tag(tag, p) =>
        if p == |data| then Step(None, p)
        else
          var end := Find(data, p + 1, SOH);
          Step(Some(Field(tag, data[p + 1..end])), if end < |data| then end + 1 else end)
  }

  /** Every field read from `pos` on, up to the first call that yields none. */
  function FieldsFrom(data: seq<Byte>, pos: nat): seq<Field>
    requires pos <= |data|
    decreases |data| - pos
  {
    var step := FieldStep(data, pos);
    if step.field.None? then [] else [step.field.value] + FieldsFrom(data, step.pos)
  }

  class FixParser {
    const data: seq<Byte>
    var pos: nat

    constructor (buf: seq<Byte>)
      ensures data == buf && pos == 0
    {
      data := buf;
      pos := 0;
    }

    method NextField() returns (field: Option<Field>)
      requires pos <= |data|
      modifies this
      ensures pos <= |data| && Step(field, pos) == FieldStep(data, old(pos))
    {
      if pos >= |data| {
        return None;
      }
      var tag: nat := 0;
      while pos < |data| && data[pos] != EQUALS
        invariant old(pos) <= pos <= |data|
        invariant ScanTag(data, pos, tag) == ScanTag(data, old(pos), 0)
        decreases |data| - pos
      {
        var byte := data[pos];
        if !IsDigit(byte) {
          return None;
        }
        if tag * 10 > U32_MAX || tag * 10 + (byte - 48) > U32_MAX {
          return None;
        }
        tag := tag * 10 + (byte - 48);
        pos := pos + 1;
      }
      if pos >= |data| {
        return None;
      }
      pos := pos + 1;
      var start := pos;
      while pos < |data| && data[pos] != SOH
        invariant start <= pos <= |data|
        invariant Find(data, pos, SOH) == Find(data, start, SOH)
        decreases |data| - pos
      {
        pos := pos + 1;
      }
      field := Some(Field(tag, data[start..pos]));
      if pos < |data| {
        pos := pos + 1;
      }
    }
  }

  // ---------- The grammar the cursor recognises ----------

  /** End of the run of digits that starts at `pos`. */
  function DigitsEnd(data: seq<Byte>, pos: nat): (d: nat)
    requires pos <= |data|
    ensures pos <= d <= |data|
    ensures AllDigits(data[pos..d])
    ensures d < |data| ==> !IsDigit(data[d])
    decreases |data| - pos
  {
    if pos < |data| && IsDigit(data[pos]) then
      var d := DigitsEnd(data, pos + 1);
      assert data[pos..d] == [data[pos]] + data[pos + 1..d];
      d
    else pos
  }

  /** One more digit appended to a numeral. */
  lemma ValueSnoc(data: seq<Byte>, start: nat, pos: nat)
    requires start <= pos < |data| && AllDigits(data[start..pos]) && IsDigit(data[pos])
    ensures AllDigits(data[start..pos + 1])
    ensures Value(data[start..pos + 1]) == Value(data[start..pos]) * 10 + (data[pos] - 48)
  {
    var longer := data[start..pos + 1];
    assert longer == data[start..pos] + [data[pos]];
    assert longer[..|longer| - 1] == data[start..pos];
  }

  /** The checked accumulation yields a tag exactly when the digits end at `=` (or at
      the end of input) and denote a u32; the tag is then the number they denote. */
  lemma {:induction false} TagScanExact(data: seq<Byte>, start: nat, pos: nat, tag: nat)
    requires start <= pos <= |data| && AllDigits(data[start..pos])
    requires tag == Value(data[start..pos]) <= U32_MAX
    ensures AllDigits(data[start..DigitsEnd(data, pos)])
    ensures ScanTag(data, pos, tag).Tag? <==>
            var d := DigitsEnd(data, pos);
            (d == |data| || data[d] == EQUALS) && Value(data[start..d]) <= U32_MAX
    ensures ScanTag(data, pos, tag).Tag? ==>
            ScanTag(data, pos, tag) == Tag(Value(data[start..DigitsEnd(data, pos)]), DigitsEnd(data, pos))
    decreases |data| - pos
  {
    hide Value;
    if pos < |data| && IsDigit(data[pos]) {
      ValueSnoc(data, start, pos);
      var d := DigitsEnd(data, pos);
      assert d == DigitsEnd(data, pos + 1);
      var longer := Value(data[start..pos + 1]);
      if longer <= U32_MAX {
        TagScanExact(data, start, pos + 1, longer);
      } else {
        var all := data[start..d];
        assert all == data[start..pos] + data[pos..d];
        assert all[..pos + 1 - start] == data[start..pos + 1];
        ValueOfPrefix(all, pos + 1 - start);
      }
    }
  }

  /** The declarative reading of one field at `pos`. */
  ghost predicate IsFieldAt(data: seq<Byte>, pos: nat, step: Step)
  {
    && pos < |data|
    && var d := DigitsEnd(data, pos);
    && d < |data| && data[d] == 61
    && Value(data[pos..d]) <= U32_MAX
    && step.field.Some?
    && step.field.value.tag == Value(data[pos..d])
    && var value := step.field.value.value;
    && d + 1 + |value| <= |data| && data[d + 1..d + 1 + |value|] == value && 1 !in value
    && (if d + 1 + |value| == |data| then step.pos == |data|
        else data[d + 1 + |value|] == 1 && step.pos == d + 1 + |value| + 1)
  }

  /** `next_field` yields a field exactly where the grammar has one, and it is that one. */
  lemma FieldStepExact(data: seq<Byte>, pos: nat, step: Step)
    requires pos <= |data|
    ensures IsFieldAt(data, pos, step) <==> step.field.Some? && step == FieldStep(data, pos)
  {
    hide FieldStep, Value, DigitsEnd;
    if IsFieldAt(data, pos, step) {
      FieldIsStep(data, pos, step);
    }
    if step.field.Some? && step == FieldStep(data, pos) {
      StepIsField(data, pos);
    }
  }

  lemma FieldIsStep(data: seq<Byte>, pos: nat, step: Step)
    requires pos <= |data| && IsFieldAt(data, pos, step)
    ensures step == FieldStep(data, pos)
  {
    assert data[pos..pos] == [] && Value([]) == 0;
    hide Value, ScanTag, DigitsEnd;
    TagScanExact(data, pos, pos, 0);
    ValueEnds(data, DigitsEnd(data, pos) + 1, step.field.value.value);
  }

  lemma StepIsField(data: seq<Byte>, pos: nat)
    requires pos <= |data| && FieldStep(data, pos).field.Some?
    ensures IsFieldAt(data, pos, FieldStep(data, pos))
  {
    assert data[pos..pos] == [] && Value([]) == 0;
    hide Value, ScanTag, DigitsEnd;
    TagScanExact(data, pos, pos, 0);
  }

  /** A value without SOH ends at the first SOH, or with the input. */
  lemma ValueEnds(data: seq<Byte>, start: nat, value: seq<Byte>)
    requires start + |value| <= |data| && data[start..start + |value|] == value && SOH !in value
    requires start + |value| < |data| ==> data[start + |value|] == SOH
    ensures Find(data, start, SOH) == start + |value|
  {
    forall j | start <= j < start + |value|
      ensures data[j] != SOH
    {
      assert data[j] == value[j - start];
    }
    FindIs(data, start, SOH, start + |value|);
  }

  /** A field that ended before the end of the input reads the same when more bytes follow. */
  lemma FieldStepStable(data: seq<Byte>, pos: nat, more: seq<Byte>)
    requires pos <= |data| && FieldStep(data, pos).field.Some? && FieldStep(data, pos).pos < |data|
    ensures FieldStep(data + more, pos) == FieldStep(data, pos)
  {
    hide FieldStep, Value, DigitsEnd;
    var step := FieldStep(data, pos);
    FieldStepExact(data, pos, step);
    DigitsEndStable(data, pos, more);
    var d := DigitsEnd(data, pos);
    assert (data + more)[pos..d] == data[pos..d];
    var end := d + 1 + |step.field.value.value|;
    assert (data + more)[d + 1..end] == data[d + 1..end];
    FieldStepExact(data + more, pos, step);
  }

  /** A field that ended before byte `n` is read the same from the first `n` bytes alone. */
  lemma FieldStepLocal(data: seq<Byte>, pos: nat, n: nat)
    requires pos <= n <= |data| && FieldStep(data, pos).field.Some? && FieldStep(data, pos).pos < n
    ensures FieldStep(data[..n], pos) == FieldStep(data, pos)
  {
    hide FieldStep, Value, DigitsEnd;
    var step := FieldStep(data, pos);
    FieldStepExact(data, pos, step);
    var d := DigitsEnd(data, pos);
    assert data[..n][pos..d] == data[pos..d];
    DigitsEndIs(data[..n], pos, d);
    var end := d + 1 + |step.field.value.value|;
    assert data[..n][d + 1..end] == data[d + 1..end];
    FieldStepExact(data[..n], pos, step);
  }

  /** More bytes can only lengthen a field already there, and only its value. */
  lemma FieldStepGrows(data: seq<Byte>, pos: nat, more: seq<Byte>)
    requires pos <= |data| && FieldStep(data, pos).field.Some?
    ensures var step, longer := FieldStep(data, pos), FieldStep(data + more, pos);
      && longer.field.Some? && longer.field.value.tag == step.field.value.tag
      && step.field.value.value <= longer.field.value.value && step.pos <= longer.pos
  {
    hide FieldStep, Value, DigitsEnd, Find;
    var step := FieldStep(data, pos);
    FieldStepExact(data, pos, step);
    DigitsEndStable(data, pos, more);
    var whole, d := data + more, DigitsEnd(data, pos);
    var value := step.field.value.value;
    assert whole[pos..d] == data[pos..d];
    assert whole[d + 1..d + 1 + |value|] == data[d + 1..d + 1 + |value|] == value;
    var end := Find(whole, d + 1, SOH);
    FindPast(whole, d + 1, |value|);
    var longer := Field(step.field.value.tag, whole[d + 1..end]);
    SliceWithout(whole, d + 1, end);
    assert longer.value[..|value|] == value;
    FieldStepExact(whole, pos, Step(Some(longer), if end < |whole| then end + 1 else end));
  }

  lemma FindPast(s: seq<Byte>, from: nat, n: nat)
    requires from + n <= |s| && SOH !in s[from..from + n]
    ensures Find(s, from, SOH) >= from + n
  {
  }

  lemma SliceWithout(s: seq<Byte>, from: nat, end: nat)
    requires from <= end <= |s| && forall j :: from <= j < end ==> s[j] != SOH
    ensures SOH !in s[from..end]
  {
  }

  lemma {:induction false} DigitsEndStable(data: seq<Byte>, pos: nat, more: seq<Byte>)
    requires pos <= |data| && DigitsEnd(data, pos) < |data|
    ensures DigitsEnd(data + more, pos) == DigitsEnd(data, pos)
    decreases |data| - pos
  {
    if IsDigit(data[pos]) {
      DigitsEndStable(data, pos + 1, more);
    }
  }

  // ---------- Printing, then reading ----------

  /** One field as the encoder writes it. */
  function FieldBytes(f: Field): seq<Byte>
  {
    Print(f.tag) + [EQUALS] + f.value + [SOH]
  }

  lemma FieldBytesAre(f: Field)
    ensures FieldBytes(f) == Print(f.tag) + Ascii("=") + f.value + [1]
  {
    hide Print;
    assert Ascii("=") == [61];
  }

  /** A printed field with a u32 tag and an SOH-free value reads back as itself,
      whatever stands before and after it. */
  lemma FieldRoundTrip(data: seq<Byte>, pos: nat, f: Field)
    requires f.tag <= U32_MAX && SOH !in f.value
    requires pos + |FieldBytes(f)| <= |data| && data[pos..pos + |FieldBytes(f)|] == FieldBytes(f)
    ensures FieldStep(data, pos) == Step(Some(f), pos + |FieldBytes(f)|)
  {
    hide FieldStep, FieldBytes, Print, Value, DigitsEnd;
    var d := pos + |Print(f.tag)|;
    PrintValue(f.tag);
    FieldPieces(data, pos, f);
    DigitsEndIs(data, pos, d);
    FieldStepExact(data, pos, Step(Some(f), pos + |FieldBytes(f)|));
  }

  /** The last field of an input may lack its SOH. */
  lemma FieldAtEnd(data: seq<Byte>, pos: nat, f: Field)
    requires f.tag <= U32_MAX && SOH !in f.value
    requires pos <= |data| && data[pos..] + [SOH] == FieldBytes(f)
    ensures FieldStep(data, pos) == Step(Some(f), |data|)
  {
    hide FieldStep, FieldBytes, Print, Value, DigitsEnd;
    var whole := data + [SOH];
    var d := pos + |Print(f.tag)|;
    PrintValue(f.tag);
    assert whole[pos..pos + |FieldBytes(f)|] == FieldBytes(f);
    FieldPieces(whole, pos, f);
    assert data[pos..d] == whole[pos..d] && data[d] == whole[d];
    assert data[d + 1..|data|] == whole[d + 1..|data|];
    DigitsEndIs(data, pos, d);
    FieldStepExact(data, pos, Step(Some(f), |data|));
  }

  lemma FieldPieces(data: seq<Byte>, pos: nat, f: Field)
    requires pos + |FieldBytes(f)| <= |data| && data[pos..pos + |FieldBytes(f)|] == FieldBytes(f)
    ensures var d := pos + |Print(f.tag)|;
      && |FieldBytes(f)| == |Print(f.tag)| + |f.value| + 2
      && data[pos..d] == Print(f.tag) && data[d] == EQUALS
      && data[d + 1..d + 1 + |f.value|] == f.value && data[d + 1 + |f.value|] == SOH
  {
    hide Print;
    var bytes := FieldBytes(f);
    var k, n := |Print(f.tag)|, |f.value|;
    var window := data[pos..pos + |bytes|];
    assert window[..k] == Print(f.tag) && window[k] == EQUALS;
    assert window[k + 1..k + 1 + n] == f.value && window[k + 1 + n] == SOH;
    SliceOfSlice(data, pos, pos + |bytes|, 0, k);
    SliceOfSlice(data, pos, pos + |bytes|, k + 1, k + 1 + n);
  }

  lemma {:induction false} DigitsEndIs(data: seq<Byte>, pos: nat, d: nat)
    requires pos <= d < |data| && AllDigits(data[pos..d]) && !IsDigit(data[d])
    ensures DigitsEnd(data, pos) == d
    decreases d - pos
  {
    if pos < d {
      assert data[pos] == data[pos..d][0];
      assert data[pos + 1..d] == data[pos..d][1..];
      DigitsEndIs(data, pos + 1, d);
    }
  }
}
