/** Tag numbers (fix/tag.rs). */
module Tags {
  const BEGIN_SEQ: nat := 7
  const BEGIN_STRING: nat := 8
  const BODY_LENGTH: nat := 9
  const CHECK_SUM: nat := 10
  const MSG_SEQ_NUM: nat := 34
  const MSG_TYPE: nat := 35
  const NEW_SEQ_NO: nat := 36
  const POSS_DUP_FLAG: nat := 43
  const SENDER_COMP_ID: nat := 49
  const SENDING_TIME: nat := 52
  const SYMBOL: nat := 55
  const TARGET_COMP_ID: nat := 56
  const ENCRYPT_METHOD: nat := 98
  const HEART_BT_INT: nat := 108
  const TEST_REQ_ID: nat := 112
  const GAP_FILL_FLAG: nat := 123
  const RESET_SEQ_NUM_FLAG: nat := 141
  const NO_RELATED_SYM: nat := 146
  const MD_REQ_ID: nat := 262
  const SUBSCRIPTION_REQUEST_TYPE: nat := 263
  const MARKET_DEPTH: nat := 264
  const NO_MD_ENTRY_TYPES: nat := 267
  const MD_ENTRY_NO: nat := 268
  const MD_ENTRY_TYPE: nat := 269
  const MD_ENTRY_PX: nat := 270
  const MD_ENTRY_SIZE: nat := 271
  const MD_ENTRY_DATE: nat := 272
  const MD_ENTRY_TIME: nat := 273
  const USERNAME: nat := 553
  const PASSWORD: nat := 554
  const TRADE_TYPE: nat := 828
}

/** Decoded messages: an ordered list of tagged values, looked up by first match (fix/raw_msg.rs). */
module Message {
  import opened Wrappers
  import opened Bytes
  import opened Parser

  datatype Val = Single(text: seq<Byte>) | Pair(first: seq<Byte>, second: seq<Byte>)
  datatype RawField = RawField(tag: nat, val: Val)
  type RawMessage = seq<RawField>

  function GetVal(msg: RawMessage, tag: nat): Option<Val>
  {
    if msg == [] then None
    else if msg[0].tag == tag then Some(msg[0].val)
    else GetVal(msg[1..], tag)
  }

  function GetInt(msg: RawMessage, tag: nat): Option<int>
  {
    match GetVal(msg, tag)
    case Some(Single(text)) => ParseI32(text)
    case _ => None
  }

  function GetPairInt(msg: RawMessage, tag: nat): (Option<int>, Option<int>)
  {
    match GetVal(msg, tag)
    case Some(Pair(first, second)) => (ParseI32(first), ParseI32(second))
    case _ => (None, None)
  }

  predicate AllSingle(msg: RawMessage)
  {
    forall f :: f in msg ==> f.val.Single?
  }

  /** Fields as `append_single` stores them. */
  function Singles(fields: seq<Field>): (msg: RawMessage)
  {
    if fields == [] then [] else [AsSingle(fields[0])] + Singles(fields[1..])
  }

  function AsSingle(f: Field): RawField
  {
    RawField(f.tag, Single(f.value))
  }

  lemma {:induction false} SinglesConcat(a: seq<Field>, b: seq<Field>)
    ensures Singles(a + b) == Singles(a) + Singles(b)
  {
    if a == [] {
      assert a + b == b;
    } else {
      assert (a + b)[1..] == a[1..] + b;
      SinglesConcat(a[1..], b);
    }
  }

  /** First match wins, so a lookup in a concatenation tries the left part first. */
  lemma {:induction false} GetValConcat(a: RawMessage, b: RawMessage, tag: nat)
    ensures GetVal(a + b, tag) == if GetVal(a, tag).Some? then GetVal(a, tag) else GetVal(b, tag)
  {
    if a == [] {
      assert a + b == b;
    } else {
      assert (a + b)[1..] == a[1..] + b;
      GetValConcat(a[1..], b, tag);
    }
  }

  lemma GetValOne(tag: nat, val: Val)
    ensures GetVal([RawField(tag, val)], tag) == Some(val)
  {
  }

  lemma {:induction false} GetValAbsent(msg: RawMessage, tag: nat)
    ensures GetVal(msg, tag).None? <==> forall i :: 0 <= i < |msg| ==> msg[i].tag != tag
  {
    if msg != [] {
      GetValAbsent(msg[1..], tag);
      if GetVal(msg, tag).None? {
        forall i | 0 <= i < |msg|
          ensures msg[i].tag != tag
        {
          if i > 0 {
            assert msg[i] == msg[1..][i - 1];
          }
        }
      } else if msg[0].tag != tag {
        var i :| 0 <= i < |msg[1..]| && msg[1..][i].tag == tag;
        assert msg[i + 1].tag == tag;
      }
    }
  }
}
