/** Outbound messages (fix/messages.rs). */
module Messages {
  import opened Wrappers
  import opened Bytes
  import opened Message
  import opened Tags
  import opened Encoder

  const LOGON: seq<Byte> := [65]
  const LOGOUT: seq<Byte> := [53]
  const HEARTBEAT: seq<Byte> := [48]
  const TEST_REQUEST: seq<Byte> := [49]
  const RESEND_REQUEST: seq<Byte> := [50]
  const SEQUENCE_RESET: seq<Byte> := [52]
  const MARKET_DATA_REQUEST: seq<Byte> := [86]
  const SNAPSHOT_FULL_REFRESH: seq<Byte> := [87]
  const INCREMENTAL_REFRESH: seq<Byte> := [88]

  datatype Config = Config(senderId: seq<Byte>, targetId: seq<Byte>, username: seq<Byte>,
                           password: seq<Byte>, resetSeqNo: bool, heartBtInt: nat)

  function One(tag: nat, text: seq<Byte>): RawMessage
  {
    [RawField(tag, Single(text))]
  }

  function Header(msgType: seq<Byte>, number: nat, config: Config, time: seq<Byte>): RawMessage
  {
    One(MSG_TYPE, msgType) + One(MSG_SEQ_NUM, Print(number)) + One(SENDER_COMP_ID, config.senderId)
    + One(TARGET_COMP_ID, config.targetId) + One(SENDING_TIME, time)
  }

  function Logon(number: nat, config: Config, time: seq<Byte>): RawMessage
  {
    Header(LOGON, number, config, time) + One(ENCRYPT_METHOD, [48])
    + One(HEART_BT_INT, Print(config.heartBtInt))
    + One(RESET_SEQ_NUM_FLAG, if config.resetSeqNo then [89] else [78])
    + One(USERNAME, config.username) + One(PASSWORD, config.password)
  }

  function Heartbeat(number: nat, config: Config, time: seq<Byte>, testReqId: Option<seq<Byte>>): RawMessage
  {
    Header(HEARTBEAT, number, config, time)
    + match testReqId case Some(id) => One(TEST_REQ_ID, id) case None => []
  }

  function MarketDataRequest(number: nat, config: Config, time: seq<Byte>, reqId: seq<Byte>,
                             symbols: seq<seq<Byte>>): RawMessage
  {
    Header(MARKET_DATA_REQUEST, number, config, time) + One(MD_REQ_ID, reqId)
    + One(SUBSCRIPTION_REQUEST_TYPE, [49]) + One(MARKET_DEPTH, [49]) + One(NO_MD_ENTRY_TYPES, Print(3))
    + One(MD_ENTRY_TYPE, [48]) + One(MD_ENTRY_TYPE, [49]) + One(MD_ENTRY_TYPE, [50])
    + One(NO_RELATED_SYM, Print(|symbols|)) + EachSymbol(symbols)
  }

  function EachSymbol(symbols: seq<seq<Byte>>): RawMessage
  {
    if symbols == [] then [] else One(SYMBOL, symbols[0]) + EachSymbol(symbols[1..])
  }

  function SeqNumberReset(number: nat, config: Config, time: seq<Byte>, newStart: nat): RawMessage
  {
    Header(SEQUENCE_RESET, number, config, time) + One(GAP_FILL_FLAG, [89]) + One(POSS_DUP_FLAG, [89])
    + One(NEW_SEQ_NO, Print(newStart))
  }

  /** One message a session sends. */
  datatype Sent =
    | SentLogon(number: nat)
    | SentRequest(number: nat)
    | SentHeartbeat(number: nat, testReqId: Option<seq<Byte>>)
    | SentGapFill(number: nat, newSeqNo: nat)

  function MessageOf(s: Sent, config: Config, time: seq<Byte>, symbols: seq<seq<Byte>>): RawMessage
  {
    match s
    case SentLogon(n) => Logon(n, config, time)
    case SentRequest(n) => MarketDataRequest(n, config, time, [109, 100, 114, 45, 49], symbols)
    case SentHeartbeat(n, id) => Heartbeat(n, config, time, id)
    case SentGapFill(n, newSeqNo) => SeqNumberReset(n, config, time, newSeqNo)
  }

  // ---------- The messages, field by field ----------

  lemma HeaderFields(msgType: seq<Byte>, number: nat, config: Config, time: seq<Byte>)
    ensures Header(msgType, number, config, time)
      == [RawField(35, Single(msgType)), RawField(34, Single(Print(number))), RawField(49, Single(config.senderId)),
          RawField(56, Single(config.targetId)), RawField(52, Single(time))]
  {
    hide Print;
  }

  /** A Logon: credentials and session settings. */
  lemma LogonFields(number: nat, config: Config, time: seq<Byte>, symbols: seq<seq<Byte>>)
    ensures MessageOf(SentLogon(number), config, time, symbols)
      == [RawField(35, Single(Ascii("A"))), RawField(34, Single(Print(number))), RawField(49, Single(config.senderId)),
          RawField(56, Single(config.targetId)), RawField(52, Single(time)), RawField(98, Single(Ascii("0"))),
          RawField(108, Single(Print(config.heartBtInt))),
          RawField(141, Single(if config.resetSeqNo then Ascii("Y") else Ascii("N"))),
          RawField(553, Single(config.username)), RawField(554, Single(config.password))]
  {
    hide Print, Header;
    HeaderFields(LOGON, number, config, time);
    assert Ascii("A") == [65] && Ascii("0") == [48] && Ascii("Y") == [89] && Ascii("N") == [78];
  }

  /** A Heartbeat: the TestReqID of the request it answers, if it answers one. */
  lemma HeartbeatFields(number: nat, testReqId: Option<seq<Byte>>, config: Config, time: seq<Byte>, symbols: seq<seq<Byte>>)
    ensures MessageOf(SentHeartbeat(number, testReqId), config, time, symbols)
      == [RawField(35, Single(Ascii("0"))), RawField(34, Single(Print(number))), RawField(49, Single(config.senderId)),
          RawField(56, Single(config.targetId)), RawField(52, Single(time))]
         + match testReqId case Some(id) => [RawField(112, Single(id))] case None => []
  {
    hide Print, Header;
    HeaderFields(HEARTBEAT, number, config, time);
    assert Ascii("0") == [48];
  }

  /** A gap fill: the number it was asked from, and the number it resumes at. */
  lemma GapFillFields(number: nat, newSeqNo: nat, config: Config, time: seq<Byte>, symbols: seq<seq<Byte>>)
    ensures MessageOf(SentGapFill(number, newSeqNo), config, time, symbols)
      == [RawField(35, Single(Ascii("4"))), RawField(34, Single(Print(number))), RawField(49, Single(config.senderId)),
          RawField(56, Single(config.targetId)), RawField(52, Single(time)), RawField(123, Single(Ascii("Y"))),
          RawField(43, Single(Ascii("Y"))), RawField(36, Single(Print(newSeqNo)))]
  {
    hide Print, Header;
    HeaderFields(SEQUENCE_RESET, number, config, time);
    assert Ascii("4") == [52] && Ascii("Y") == [89];
  }

  lemma {:induction false} SymbolFields(symbols: seq<seq<Byte>>)
    ensures |EachSymbol(symbols)| == |symbols|
    ensures forall i :: 0 <= i < |symbols| ==> EachSymbol(symbols)[i] == RawField(55, Single(symbols[i]))
  {
    if symbols != [] {
      SymbolFields(symbols[1..]);
    }
  }

  /** A subscription: bids, offers and trades at depth one, for every symbol asked for, in order. */
  lemma RequestFields(number: nat, config: Config, time: seq<Byte>, symbols: seq<seq<Byte>>)
    ensures var msg := MessageOf(SentRequest(number), config, time, symbols);
      && |msg| == 13 + |symbols|
      && msg[..13]
         == [RawField(35, Single(Ascii("V"))), RawField(34, Single(Print(number))), RawField(49, Single(config.senderId)),
             RawField(56, Single(config.targetId)), RawField(52, Single(time)), RawField(262, Single(Ascii("mdr-1"))),
             RawField(263, Single(Ascii("1"))), RawField(264, Single(Ascii("1"))), RawField(267, Single(Ascii("3"))),
             RawField(269, Single(Ascii("0"))), RawField(269, Single(Ascii("1"))), RawField(269, Single(Ascii("2"))),
             RawField(146, Single(Print(|symbols|)))]
      && forall i :: 0 <= i < |symbols| ==> msg[13 + i] == RawField(55, Single(symbols[i]))
  {
    hide Header, EachSymbol;
    HeaderFields(MARKET_DATA_REQUEST, number, config, time);
    SymbolFields(symbols);
    assert Ascii("V") == [86] && Ascii("mdr-1") == [109, 100, 114, 45, 49] && Ascii("3") == [51] == Print(3);
    assert Ascii("0") == [48] && Ascii("1") == [49] && Ascii("2") == [50];
    hide Print;
  }

  lemma {:induction false} SymbolsAreSingle(symbols: seq<seq<Byte>>)
    ensures AllSingle(EachSymbol(symbols))
  {
    if symbols != [] {
      SymbolsAreSingle(symbols[1..]);
    }
  }

  lemma NumberField(s: Sent, config: Config, time: seq<Byte>, symbols: seq<seq<Byte>>)
    ensures var msg := MessageOf(s, config, time, symbols);
      |msg| > 1 && msg[1] == RawField(MSG_SEQ_NUM, Single(Print(s.number))) && msg[0].tag == MSG_TYPE
  {
    hide Print, EachSymbol;
  }

  lemma MessagesAreSingle(s: Sent, config: Config, time: seq<Byte>, symbols: seq<seq<Byte>>)
    ensures AllSingle(MessageOf(s, config, time, symbols))
  {
    hide Print, EachSymbol;
    match s {
      case SentLogon(_) =>
      case SentRequest(_) => RequestIsSingle(s.number, config, time, symbols);
      case SentHeartbeat(_, _) =>
      case SentGapFill(_, _) =>
    }
  }

  lemma RequestIsSingle(number: nat, config: Config, time: seq<Byte>, symbols: seq<seq<Byte>>)
    ensures AllSingle(MarketDataRequest(number, config, time, [109, 100, 114, 45, 49], symbols))
  {
    hide Print;
    SymbolsAreSingle(symbols);
    hide EachSymbol;
  }

  /** Every message a session builds encodes, and carries its own number under tag 34; a
      gap fill carries NewSeqNo under tag 36. */
  lemma SentOnWire(s: Sent, config: Config, time: seq<Byte>, symbols: seq<seq<Byte>>)
    ensures var msg := MessageOf(s, config, time, symbols);
      && Encode(msg).Some?
      && GetVal(msg, MSG_SEQ_NUM) == Some(Single(Print(s.number)))
      && (s.SentGapFill? ==> GetVal(msg, NEW_SEQ_NO) == Some(Single(Print(s.newSeqNo))))
  {
    hide Encode, MessageOf, Print;
    var msg := MessageOf(s, config, time, symbols);
    NumberField(s, config, time, symbols);
    MessagesAreSingle(s, config, time, symbols);
    EncodeRefused(msg);
    assert msg[1..][0] == msg[1];
    if s.SentGapFill? {
      GapFillLookup(s, config, time, symbols);
    }
  }

  lemma GapFillLookup(s: Sent, config: Config, time: seq<Byte>, symbols: seq<seq<Byte>>)
    requires s.SentGapFill?
    ensures GetVal(MessageOf(s, config, time, symbols), NEW_SEQ_NO) == Some(Single(Print(s.newSeqNo)))
  {
    hide Print;
    var last := One(NEW_SEQ_NO, Print(s.newSeqNo));
    var front := Header(SEQUENCE_RESET, s.number, config, time) + One(GAP_FILL_FLAG, [89]) + One(POSS_DUP_FLAG, [89]);
    assert MessageOf(s, config, time, symbols) == front + last;
    GetValConcat(front, last, NEW_SEQ_NO);
    GetValAbsent(front, NEW_SEQ_NO);
  }
}

/** One market-data session: the read loop, `dispatch`, and the outbound counter
    (network/session.rs). */
module Session {
  import opened Wrappers
  import opened Bytes
  import opened Message
  import opened Tags
  import opened Codec
  import opened Framing
  import opened Draining
  import opened Ticks
  import opened Messages
  import opened Buffers

  /** What the session cannot decide: the build, the libraries' readings, and which of its
      writes the connection accepts. */
  datatype Env<!F, !T> = Env(build: Build, reader: Reader<F, T>, accepts: nat -> bool)

  /** `handled` lists the framed messages taken off the buffer so far. `running` says that the
      task still waits for its next event: it does not once it has returned or panicked, or
      once it takes empty messages for ever. */
  datatype State<F, T> = State(buf: seq<Byte>, number: nat, sent: seq<Sent>, ticks: seq<Tick<F, T>>,
                               handled: seq<seq<Byte>>, running: bool)

  /** What one decoded message makes the session do. */
  datatype Effect<F, T> = Nothing | Forward(tick: Tick<F, T>) | Answer(testReqId: Option<seq<Byte>>)
                        | Refill(beginSeq: nat) | Stop

  function DispatchEffect<F, T>(env: Env<F, T>, msg: RawMessage): Effect<F, T>
  {
    match GetText(msg, MSG_TYPE)
    case None => Nothing
    case Some(kind) =>
      if kind == TEST_REQUEST then Answer(GetText(msg, TEST_REQ_ID))
      else if kind == SNAPSHOT_FULL_REFRESH || kind == INCREMENTAL_REFRESH then
        (match GetText(msg, SYMBOL)
         case None => Nothing
         case Some(symbol) =>
           match FromRaw(env.reader, msg, symbol)
           case Ok(tick) => Forward(tick)
           case Panicked => Stop
           case _ => Nothing)
      else if kind == RESEND_REQUEST then
        (match GetText(msg, BEGIN_SEQ)
         case None => Stop
         case Some(begin) =>
           match ParseUint(env.build, begin)
           case None => Stop
           case Some(n) => Refill(n))
      else if kind == LOGOUT then Stop
      else Nothing
  }

  /** Malformed messages are skipped; an overflow while decoding stops the session. */
  function EffectOf<F, T>(env: Env<F, T>, bytes: seq<Byte>): Effect<F, T>
  {
    match DecodeBytes(env.build, bytes)
    case Decoded(msg) => DispatchEffect(env, msg)
    case Malformed => Nothing
    case Overflow => Stop
  }

  /** A refused write ends the session. */
  function Written<F, T>(env: Env<F, T>, s: State<F, T>, message: Sent): State<F, T>
  {
    if env.accepts(|s.sent|) then s.(sent := s.sent + [message]) else s.(running := false)
  }

  /** Takes the next number, then writes. */
  function SendNext<F, T>(env: Env<F, T>, s: State<F, T>, message: Sent): State<F, T>
  {
    Written(env, s.(number := s.number + 1), message)
  }

  function Perform<F, T>(env: Env<F, T>, s: State<F, T>, e: Effect<F, T>): (r: State<F, T>)
    ensures r.buf == s.buf && r.handled == s.handled
  {
    match e
    case Nothing => s
    case Forward(tick) => s.(ticks := s.ticks + [tick])
    case Answer(id) => SendNext(env, s, SentHeartbeat(s.number + 1, id))
    case Refill(begin) => SendNext(env, s, SentGapFill(begin, s.number + 1))
    case Stop => s.(running := false)
  }

  function Handle<F, T>(env: Env<F, T>, s: State<F, T>, n: nat): (r: State<F, T>)
    requires n <= |s.buf|
    ensures r.buf == s.buf[n..]
  {
    Perform(env, s.(buf := s.buf[n..], handled := s.handled + [s.buf[..n]]), EffectOf(env, s.buf[..n]))
  }

  function DrainSession<F, T>(env: Env<F, T>, s: State<F, T>): State<F, T>
    decreases |s.buf|
  {
    var cut := Framer(env.build);
    if !s.running then s
    else if Takes(cut, s.buf) then DrainSession(env, Handle(env, s, cut(s.buf).n))
    else s.(running := !cut(s.buf).Halt?)
  }

  datatype Event = Chunk(bytes: seq<Byte>) | Timer | Closed

  function OnEvent<F, T>(env: Env<F, T>, s: State<F, T>, e: Event): State<F, T>
  {
    if !s.running then s
    else
      match e
      case Chunk(bytes) => DrainSession(env, s.(buf := s.buf + bytes))
      case Timer => SendNext(env, s, SentHeartbeat(s.number + 1, None))
      case Closed => s.(running := false)
  }

  /** After the logon and the subscription have been written. */
  function Start<F, T>(): State<F, T>
  {
    State([], 2, [SentLogon(1), SentRequest(2)], [], [], true)
  }

  function Run<F, T>(env: Env<F, T>, events: seq<Event>): State<F, T>
    decreases |events|
  {
    if events == [] then Start()
    else OnEvent(env, Run(env, events[..|events| - 1]), events[|events| - 1])
  }

  // ---------- What each message does to the session ----------

  /** A test request: one heartbeat with the next number and the request's own id; if it cannot
      be written the session is over. */
  lemma TestRequestAnswered<F, T>(env: Env<F, T>, s: State<F, T>, msg: RawMessage)
    requires GetVal(msg, 35) == Some(Single(Ascii("1")))
    ensures var id := if HasText(msg, 112) then Some(TextAt(msg, 112)) else None;
      Perform(env, s, DispatchEffect(env, msg))
      == if env.accepts(|s.sent|) then s.(number := s.number + 1, sent := s.sent + [SentHeartbeat(s.number + 1, id)])
         else s.(number := s.number + 1, running := false)
  {
    hide GetVal, FromRaw;
    assert Ascii("1") == [49];
  }

  /** Market data: the tick is forwarded, if the message names a symbol and makes one; nothing
      is sent; a panic ends the session. */
  lemma MarketDataForwarded<F, T>(env: Env<F, T>, s: State<F, T>, msg: RawMessage)
    requires GetVal(msg, 35) == Some(Single(Ascii("W"))) || GetVal(msg, 35) == Some(Single(Ascii("X")))
    ensures Perform(env, s, DispatchEffect(env, msg))
      == if !HasText(msg, 55) then s
         else match FromRaw(env.reader, msg, TextAt(msg, 55))
              case Ok(tick) => s.(ticks := s.ticks + [tick])
              case Panicked => s.(running := false)
              case _ => s
  {
    hide GetVal, FromRaw;
    assert Ascii("W") == [87] && Ascii("X") == [88];
  }

  /** A resend request: one gap fill from the number asked for, resuming at the next number;
      without a number to start from the session is over. */
  lemma ResendAnswered<F, T>(env: Env<F, T>, s: State<F, T>, msg: RawMessage)
    requires GetVal(msg, 35) == Some(Single(Ascii("2")))
    ensures Perform(env, s, DispatchEffect(env, msg))
      == if !HasText(msg, 7) || ParseUint(env.build, TextAt(msg, 7)) == None then s.(running := false)
         else if env.accepts(|s.sent|) then
           s.(number := s.number + 1,
              sent := s.sent + [SentGapFill(ParseUint(env.build, TextAt(msg, 7)).value, s.number + 1)])
         else s.(number := s.number + 1, running := false)
  {
    hide GetVal, FromRaw, ParseUint;
    assert Ascii("2") == [50];
  }

  /** A logout ends the session and nothing is sent. */
  lemma LogoutEnds<F, T>(env: Env<F, T>, s: State<F, T>, msg: RawMessage)
    requires GetVal(msg, 35) == Some(Single(Ascii("5")))
    ensures Perform(env, s, DispatchEffect(env, msg)) == s.(running := false)
  {
    hide GetVal, FromRaw;
    assert Ascii("5") == [53];
  }

  /** Any other message, and one without a type, changes nothing. */
  lemma OthersIgnored<F, T>(env: Env<F, T>, s: State<F, T>, msg: RawMessage)
    requires HasText(msg, 35) ==>
      TextAt(msg, 35) !in {Ascii("1"), Ascii("2"), Ascii("5"), Ascii("W"), Ascii("X")}
    ensures Perform(env, s, DispatchEffect(env, msg)) == s
  {
    hide GetVal, FromRaw;
    assert Ascii("1") == [49] && Ascii("2") == [50] && Ascii("5") == [53];
    assert Ascii("W") == [87] && Ascii("X") == [88];
  }

  /** Bytes that do not decode are skipped; a panic while decoding ends the session. */
  lemma UndecodedSkipped<F, T>(env: Env<F, T>, s: State<F, T>, bytes: seq<Byte>)
    ensures DecodeBytes(env.build, bytes).Malformed? ==> Perform(env, s, EffectOf(env, bytes)) == s
    ensures DecodeBytes(env.build, bytes).Overflow? ==> Perform(env, s, EffectOf(env, bytes)) == s.(running := false)
  {
    hide DecodeBytes, DispatchEffect;
  }

  /** The timer sends one heartbeat with the next number and no id. */
  lemma TimerSends<F, T>(env: Env<F, T>, s: State<F, T>)
    requires s.running
    ensures OnEvent(env, s, Timer)
      == if env.accepts(|s.sent|) then s.(number := s.number + 1, sent := s.sent + [SentHeartbeat(s.number + 1, None)])
         else s.(number := s.number + 1, running := false)
  {
  }

  /** The peer closing ends the session, and nothing happens afterwards. */
  lemma ClosedEnds<F, T>(env: Env<F, T>, s: State<F, T>, e: Event)
    ensures OnEvent(env, s, Closed) == s.(running := false)
    ensures OnEvent(env, OnEvent(env, s, Closed), e) == OnEvent(env, s, Closed)
  {
  }

  // ---------- The loop itself ----------

  class SessionTask<F, T> {
    const env: Env<F, T>
    const buf: ByteBuffer
    var number: nat
    var sent: seq<Sent>
    var ticks: seq<Tick<F, T>>
    var running: bool
    ghost var handled: seq<seq<Byte>>

    ghost function View(): State<F, T>
      reads this, buf
    {
      State(buf.data, number, sent, ticks, handled, running)
    }

    constructor (env: Env<F, T>)
      ensures this.env == env && fresh(buf) && View() == Start<F, T>()
    {
      this.env := env;
      var b := new ByteBuffer();
      buf := b;
      number, running := 2, true;
      sent, ticks, handled := [SentLogon(1), SentRequest(2)], [], [];
    }

    method Send(message: Sent)
      modifies this
      ensures View() == old(Written(env, View(), message))
    {
      if env.accepts(|sent|) {
        sent := sent + [message];
      } else {
        running := false;
      }
    }

    /** `dispatch`: answers control messages, forwards ticks, or ends the session. */
    method Dispatch(msg: RawMessage)
      modifies this
      ensures View() == old(Perform(env, View(), DispatchEffect(env, msg)))
    {
      var kind := GetText(msg, MSG_TYPE);
      if kind == Some(TEST_REQUEST) {
        var id := GetText(msg, TEST_REQ_ID);
        number := number + 1;
        Send(SentHeartbeat(number, id));
      } else if kind == Some(SNAPSHOT_FULL_REFRESH) || kind == Some(INCREMENTAL_REFRESH) {
        var symbol := GetText(msg, SYMBOL);
        if symbol.None? {
          return;
        }
        var r := FromRaw(env.reader, msg, symbol.value);
        if r.Ok? {
          ticks := ticks + [r.tick];
        } else if r.Panicked? {
          running := false;
        }
      } else if kind == Some(RESEND_REQUEST) {
        var begin := GetText(msg, BEGIN_SEQ);
        if begin.None? {
          running := false;
          return;
        }
        var start := ParseUint(env.build, begin.value);
        if start.None? {
          running := false;
          return;
        }
        number := number + 1;
        Send(SentGapFill(start.value, number));
      } else if kind == Some(LOGOUT) {
        running := false;
      }
    }

    /** One framed message: decode it, and act on it unless it is malformed. */
    method HandleRaw(raw: seq<Byte>)
      modifies this
      ensures View() == old(Perform(env, View().(handled := handled + [raw]), EffectOf(env, raw)))
    {
      handled := handled + [raw];
      var decoded := Decode(env.build, raw);
      match decoded {
        case Malformed =>
        case Overflow => running := false;
        case Decoded(msg) => Dispatch(msg);
      }
    }

    /** One arm of the read loop: append the chunk, then drain while messages come out. An empty
        message leaves the buffer as it is, so the session loop would never get past it. */
    method OnRead(chunk: seq<Byte>)
      requires running
      modifies this, buf
      ensures View() == old(OnEvent(env, View(), Chunk(chunk)))
    {
      hide Perform, EffectOf, ScanFrame;
      buf.ExtendFromSlice(chunk);
      while running
        invariant DrainSession(env, View()) == old(OnEvent(env, View(), Chunk(chunk)))
        decreases |buf.data|, running
      {
        var raw := ExtractMessage(env.build, buf);
        if raw.Panicked? || raw == Extracted.Message([]) {
          running := false;
          return;
        }
        if !raw.Message? {
          return;
        }
        HandleRaw(raw.bytes);
      }
    }

    method OnTimer()
      requires running
      modifies this
      ensures View() == old(OnEvent(env, View(), Timer))
    {
      number := number + 1;
      Send(SentHeartbeat(number, None));
    }
  }
}
