/** What holds over whole runs of a session (network/session.rs). */
module SessionRuns {
  import opened Wrappers
  import opened Bytes
  import opened Parser
  import opened Message
  import opened Tags
  import opened Codec
  import opened Encoder
  import opened RoundTrip
  import opened Draining
  import opened Framing
  import opened Messages
  import opened Session
  import opened Ticks

  // ---------- Outbound numbers ----------

  /** The value of the outbound counter a sent message carries: its own number, or the
      NewSeqNo of a gap fill. */
  function Counter(s: Sent): nat
  {
    if s.SentGapFill? then s.newSeqNo else s.number
  }

  ghost predicate Numbered<F, T>(s: State<F, T>)
  {
    && |s.sent| >= 2 && s.sent[0] == SentLogon(1) && s.sent[1] == SentRequest(2)
    && (forall i :: 0 <= i < |s.sent| ==> Counter(s.sent[i]) == i + 1)
    && (s.running ==> s.number == |s.sent|)
  }

  lemma PerformNumbered<F, T>(env: Env<F, T>, s: State<F, T>, e: Effect<F, T>)
    requires Numbered(s) && s.running
    ensures Numbered(Perform(env, s, e))
  {
  }

  lemma {:induction false} DrainNumbered<F, T>(env: Env<F, T>, s: State<F, T>)
    requires Numbered(s)
    ensures Numbered(DrainSession(env, s))
    decreases |s.buf|
  {
    hide EffectOf, Framer, Perform;
    if s.running && Takes(Framer(env.build), s.buf) {
      var n := Framer(env.build)(s.buf).n;
      PerformNumbered(env, s.(buf := s.buf[n..], handled := s.handled + [s.buf[..n]]), EffectOf(env, s.buf[..n]));
      DrainNumbered(env, Handle(env, s, n));
    }
  }

  /** In every run the i-th message sent carries the counter value i (counting from 1). */
  lemma {:induction false} RunNumbered<F, T>(env: Env<F, T>, events: seq<Event>)
    ensures Numbered(Run(env, events))
    decreases |events|
  {
    if events != [] {
      hide DrainSession;
      var before := Run(env, events[..|events| - 1]);
      var e := events[|events| - 1];
      RunNumbered(env, events[..|events| - 1]);
      if e.Chunk? {
        DrainNumbered(env, before.(buf := before.buf + e.bytes));
      }
    }
  }

  /** Ordinary messages carry 1, 2 and then strictly increasing numbers; each gap fill's
      NewSeqNo lies strictly between the ordinary numbers sent before and after it: an ordinary
      message sent d messages after a gap fill carries NewSeqNo + d. */
  lemma OutboundNumbers<F, T>(env: Env<F, T>, events: seq<Event>, i: nat, j: nat)
    requires i < j < |Run(env, events).sent|
    ensures var sent := Run(env, events).sent;
      && sent[0] == SentLogon(1) && sent[1] == SentRequest(2)
      && (!sent[i].SentGapFill? && !sent[j].SentGapFill? ==> sent[j].number == sent[i].number + (j - i))
      && (!sent[i].SentGapFill? && sent[j].SentGapFill? ==> sent[j].newSeqNo == sent[i].number + (j - i))
      && (sent[i].SentGapFill? && !sent[j].SentGapFill? ==> sent[j].number == sent[i].newSeqNo + (j - i))
  {
    hide Run;
    RunNumbered(env, events);
  }

  /** A resend request from 1 on: tags 35 and 7. */
  function ResendRequest(): seq<Field>
  {
    [Field(MSG_TYPE, RESEND_REQUEST), Field(BEGIN_SEQ, [49])]
  }

  lemma ResendOnWire()
    ensures var msg := Singles(ResendRequest());
      && IsWireMessage(msg, ResendRequest()) && NoEntry(ResendRequest())
      && GetVal(msg, MSG_TYPE) == Some(Single(RESEND_REQUEST)) && GetVal(msg, BEGIN_SEQ) == Some(Single([49]))
  {
    var fields := ResendRequest();
    assert fields[1..] == [fields[1]] && fields[1..][1..] == [];
    var msg := Singles(fields);
    assert msg == [AsSingle(fields[0]), AsSingle(fields[1])];
    assert msg[1..] == [AsSingle(fields[1])] && msg[1..][1..] == [];
    assert WireFields(msg[1..]) == Some([fields[1]] + []);
    assert WireFields(msg) == Some([fields[0]] + ([fields[1]] + []));
    assert [fields[0]] + ([fields[1]] + []) == fields;
    AsciiIsUtf8(RESEND_REQUEST);
    AsciiIsUtf8([49]);
  }

  lemma ResendIsShort()
    ensures |Wire(ResendRequest())| <= USIZE_MAX
  {
    hide Sum;
    CheckSumLength(ResendRequest());
    var fields := ResendRequest();
    assert Print(35) == [51, 53] && Print(7) == [55] && Print(8) == [56] && Print(9) == [57];
    assert fields[1..] == [fields[1]] && fields[1..][1..] == [];
    assert |FieldBytes(fields[0])| == 5 && |FieldBytes(fields[1])| == 4;
    assert |Body(fields)| == 9;
    assert |FieldBytes(BeginString())| == 10;
    assert |FieldBytes(BodyLength(fields))| == 4;
  }

  lemma OneDigit(build: Build)
    ensures ParseUint(build, [49]) == Some(1)
  {
    assert [49][..0] == [];
  }

  lemma ResendRefills<F, T>(env: Env<F, T>)
    ensures EffectOf(env, Wire(ResendRequest())) == Refill(1)
    ensures Framer(env.build)(Wire(ResendRequest())) == Take(|Wire(ResendRequest())|)
    ensures Wire(ResendRequest()) != []
  {
    hide DecodeBytes, Wire, WireFields, ParseUint, IsWireMessage, ScanFrame, NoEntry;
    ResendOnWire();
    ResendIsShort();
    OneDigit(env.build);
    var fields := ResendRequest();
    var msg := Singles(fields);
    PlainLookups(env.build, msg, fields, MSG_TYPE);
    PlainLookups(env.build, msg, fields, BEGIN_SEQ);
    ResendEncodes();
    WireNotEmpty(fields);
    FrameOfEncoding(env.build, fields, []);
    assert Wire(fields) + [] == Wire(fields);
  }

  lemma ResendEncodes()
    ensures Encode(Singles(ResendRequest())) == Some(Wire(ResendRequest()))
  {
    hide Wire, Utf8;
    ResendOnWire();
  }

  /** One whole message in an empty buffer is handled and nothing is left. */
  lemma OneMessage<F, T>(env: Env<F, T>, s: State<F, T>, bytes: seq<Byte>)
    requires s.running && s.buf == [] && bytes != [] && Framer(env.build)(bytes) == Take(|bytes|)
    ensures OnEvent(env, s, Chunk(bytes)) == Perform(env, s.(handled := s.handled + [bytes]), EffectOf(env, bytes))
  {
    hide EffectOf, ScanFrame;
    var filled := s.(buf := s.buf + bytes);
    assert s.buf + bytes == bytes;
    assert bytes[..|bytes|] == bytes && bytes[|bytes|..] == [];
    NothingWaits(env.build);
    var after := Handle(env, filled, |bytes|);
    assert after == Perform(env, s.(handled := s.handled + [bytes]), EffectOf(env, bytes));
    assert DrainSession(env, after) == after;
  }

  /** NewSeqNo is not the next number sent, nor one below it, when two resend requests come in
      a row: the gap fills say 3 and 4, and the next ordinary message carries 5. */
  lemma NewSeqNoIsNotNext<F, T>(env: Env<F, T>)
    requires forall k :: env.accepts(k)
    ensures var w := Wire(ResendRequest());
      Run(env, [Chunk(w), Chunk(w), Timer]).sent
      == [SentLogon(1), SentRequest(2), SentGapFill(1, 3), SentGapFill(1, 4), SentHeartbeat(5, None)]
  {
    hide EffectOf, DrainSession, Framer, Wire;
    var w := Wire(ResendRequest());
    ResendRefills(env);
    var s0: State<F, T> := Start();
    OneMessage(env, s0, w);
    var s1 := OnEvent(env, s0, Chunk(w));
    OneMessage(env, s1, w);
    var s2 := OnEvent(env, s1, Chunk(w));
    assert s1.sent == [SentLogon(1), SentRequest(2), SentGapFill(1, 3)];
    assert s2.sent == [SentLogon(1), SentRequest(2), SentGapFill(1, 3), SentGapFill(1, 4)];
    assert [] + [Chunk(w)] == [Chunk(w)] && [Chunk(w)] + [Chunk(w)] == [Chunk(w), Chunk(w)];
    assert [Chunk(w), Chunk(w)] + [Timer] == [Chunk(w), Chunk(w), Timer];
    RunOne(env, [], Chunk(w));
    RunOne(env, [Chunk(w)], Chunk(w));
    RunOne(env, [Chunk(w), Chunk(w)], Timer);
  }

  lemma RunOne<F, T>(env: Env<F, T>, events: seq<Event>, e: Event)
    ensures Run(env, events + [e]) == OnEvent(env, Run(env, events), e) && Run<F, T>(env, []) == Start()
  {
    assert (events + [e])[..|events|] == events;
  }

  // ---------- Forwarded ticks ----------

  /** The ticks of the messages that carry one, in order. */
  function TicksOf<F, T>(env: Env<F, T>, messages: seq<seq<Byte>>): seq<Tick<F, T>>
  {
    if messages == [] then []
    else
      var last := |messages| - 1;
      TicksOf(env, messages[..last])
      + match EffectOf(env, messages[last]) case Forward(tick) => [tick] case _ => []
  }

  function Received(events: seq<Event>): seq<seq<Byte>>
  {
    if events == [] then []
    else
      var last := |events| - 1;
      Received(events[..last]) + if events[last].Chunk? then [events[last].bytes] else []
  }

  /** Messages after which the session is to go on: none of these stops it. */
  ghost predicate NoneStops<F, T>(env: Env<F, T>, messages: seq<seq<Byte>>)
  {
    forall i :: 0 <= i < |messages| ==> !EffectOf(env, messages[i]).Stop?
  }

  /** Every write the session makes is accepted, and the peer does not close. */
  ghost predicate Undisturbed<F, T>(env: Env<F, T>, events: seq<Event>)
  {
    (forall k :: env.accepts(k)) && Closed !in events
  }

  /** How far a session has got that is no longer running: it has handled messages up to one
      that stops it, or all there were before framing halted. */
  ghost predicate Ended<F, T>(env: Env<F, T>, handled: seq<seq<Byte>>, fed: Drained, undisturbed: bool)
  {
    && handled <= fed.units
    && (handled != [] ==> NoneStops(env, handled[..|handled| - 1]))
    && (undisturbed ==>
        || (handled != [] && EffectOf(env, handled[|handled| - 1]).Stop?)
        || (fed.halted && handled == fed.units && NoneStops(env, handled)))
  }

  /** The state between two messages of a drain, given all there is to be framed. */
  ghost predicate Tracks<F, T>(env: Env<F, T>, s: State<F, T>, fed: Drained, undisturbed: bool)
  {
    && s.ticks == TicksOf(env, s.handled)
    && (s.running ==> NoneStops(env, s.handled) && fed == Onto(s.handled, Drain(Framer(env.build), s.buf)))
    && (!s.running ==> Ended(env, s.handled, fed, undisturbed))
  }

  lemma TicksSnoc<F, T>(env: Env<F, T>, messages: seq<seq<Byte>>, bytes: seq<Byte>)
    ensures TicksOf(env, messages + [bytes])
            == TicksOf(env, messages) + match EffectOf(env, bytes) case Forward(tick) => [tick] case _ => []
  {
    assert (messages + [bytes])[..|messages|] == messages;
  }

  /** One message further along the stream. */
  lemma Advance(cut: Cutter, handled: seq<seq<Byte>>, buf: seq<Byte>, fed: Drained)
    requires Takes(cut, buf) && fed == Onto(handled, Drain(cut, buf))
    ensures var more := handled + [buf[..cut(buf).n]];
      more[..|more| - 1] == handled && more <= fed.units && fed == Onto(more, Drain(cut, buf[cut(buf).n..]))
  {
    hide Drain;
    DrainSome(cut, buf);
    OntoTwice(handled, [buf[..cut(buf).n]], Drain(cut, buf[cut(buf).n..]));
  }

  lemma HandleTracks<F, T>(env: Env<F, T>, s: State<F, T>, fed: Drained, undisturbed: bool)
    requires Tracks(env, s, fed, undisturbed) && s.running && Takes(Framer(env.build), s.buf)
    requires undisturbed ==> forall k :: env.accepts(k)
    ensures Tracks(env, Handle(env, s, Framer(env.build)(s.buf).n), fed, undisturbed)
  {
    hide EffectOf, Framer, Drain, TicksOf, Onto;
    var bytes := s.buf[..Framer(env.build)(s.buf).n];
    Advance(Framer(env.build), s.handled, s.buf, fed);
    TicksSnoc(env, s.handled, bytes);
    assert s.ticks + [] == s.ticks;
  }

  /** Draining stops the session, halts it, or leaves nothing complete. */
  lemma {:induction false} DrainTracks<F, T>(env: Env<F, T>, s: State<F, T>, fed: Drained, undisturbed: bool)
    requires Tracks(env, s, fed, undisturbed)
    requires undisturbed ==> forall k :: env.accepts(k)
    ensures var t := DrainSession(env, s);
      && Tracks(env, t, fed, undisturbed)
      && (t.running ==> !Takes(Framer(env.build), t.buf) && !Framer(env.build)(t.buf).Halt?)
    decreases |s.buf|
  {
    hide Tracks, EffectOf, Framer, Perform;
    if s.running && Takes(Framer(env.build), s.buf) {
      HandleTracks(env, s, fed, undisturbed);
      DrainTracks(env, Handle(env, s, Framer(env.build)(s.buf).n), fed, undisturbed);
    } else if s.running && Framer(env.build)(s.buf).Halt? {
      HaltTracks(env, s, fed, undisturbed);
    }
  }

  lemma HaltTracks<F, T>(env: Env<F, T>, s: State<F, T>, fed: Drained, undisturbed: bool)
    requires Tracks(env, s, fed, undisturbed) && s.running && Framer(env.build)(s.buf).Halt?
    ensures Tracks(env, s.(running := false), fed, undisturbed)
  {
    hide EffectOf, Framer, Drain, TicksOf;
    DrainNone(Framer(env.build), s.buf);
    assert s.handled + [] == s.handled;
  }

  /** Between events: a running session has handled all that was framed. */
  ghost predicate Settled<F, T>(env: Env<F, T>, s: State<F, T>, fed: Drained, undisturbed: bool)
  {
    && s.ticks == TicksOf(env, s.handled)
    && (s.running ==> NoneStops(env, s.handled) && fed == Drained(s.handled, s.buf, false))
    && (!s.running ==> Ended(env, s.handled, fed, undisturbed))
  }

  lemma ChunkSettled<F, T>(env: Env<F, T>, s: State<F, T>, fed: Drained, chunk: seq<Byte>, undisturbed: bool)
    requires Settled(env, s, fed, undisturbed)
    requires undisturbed ==> forall k :: env.accepts(k)
    ensures Settled(env, OnEvent(env, s, Chunk(chunk)),
                    if fed.halted then fed else Onto(fed.units, Drain(Framer(env.build), fed.rest + chunk)), undisturbed)
  {
    hide EffectOf, Framer, Drain, DrainSession, TicksOf;
    if s.running {
      var fed' := Onto(fed.units, Drain(Framer(env.build), fed.rest + chunk));
      DrainTracks(env, s.(buf := s.buf + chunk), fed', undisturbed);
      var t := OnEvent(env, s, Chunk(chunk));
      if t.running {
        DrainNone(Framer(env.build), t.buf);
        assert t.handled + [] == t.handled;
      }
    }
  }

  lemma SendSettled<F, T>(env: Env<F, T>, s: State<F, T>, fed: Drained, e: Event, undisturbed: bool)
    requires Settled(env, s, fed, undisturbed) && !e.Chunk?
    requires undisturbed ==> !e.Closed? && forall k :: env.accepts(k)
    ensures Settled(env, OnEvent(env, s, e), fed, undisturbed)
  {
    hide EffectOf, TicksOf;
  }

  function Fed<F, T>(env: Env<F, T>, events: seq<Event>): Drained
  {
    Feed(Framer(env.build), [], Received(events))
  }

  lemma {:induction false} RunSettled<F, T>(env: Env<F, T>, events: seq<Event>, undisturbed: bool)
    requires undisturbed ==> Undisturbed(env, events)
    ensures Settled(env, Run(env, events), Fed(env, events), undisturbed)
    decreases |events|
  {
    hide OnEvent, Settled, Feed, Framer;
    if events == [] {
      FeedNothing(Framer(env.build), []);
      StartSettled(env, undisturbed);
    } else {
      var front, e := events[..|events| - 1], events[|events| - 1];
      RunSettled(env, front, undisturbed);
      if e.Chunk? {
        FeedSnoc(Framer(env.build), [], Received(front), e.bytes);
        ChunkSettled(env, Run(env, front), Fed(env, front), e.bytes, undisturbed);
      } else {
        assert Received(front) + [] == Received(front);
        SendSettled(env, Run(env, front), Fed(env, front), e, undisturbed);
      }
    }
  }

  lemma StartSettled<F, T>(env: Env<F, T>, undisturbed: bool)
    ensures Settled(env, Run(env, []), Drained([], [], false), undisturbed)
  {
  }

  /** The ticks a run forwards are those of the messages framed from what was received, in
      order, up to the one that ended the session: timers and answers play no part. While the
      session runs, no framed message is missing. */
  lemma ForwardedTicks<F, T>(env: Env<F, T>, events: seq<Event>)
    ensures var s, fed := Run(env, events), Fed(env, events);
      && s.handled <= fed.units
      && s.ticks == TicksOf(env, s.handled)
      && (s.running ==> fed == Drained(s.handled, s.buf, false) && NoneStops(env, s.handled))
  {
    hide Feed, EffectOf, Framer, Run, TicksOf;
    RunSettled(env, events, false);
  }

  /** With every write accepted and the connection open, the session ends exactly at the first
      framed message that stops it, or where framing halts, and has handled everything before. */
  lemma StopsAtFirstStop<F, T>(env: Env<F, T>, events: seq<Event>)
    requires Undisturbed(env, events)
    ensures var s, fed := Run(env, events), Fed(env, events);
      && (s.running <==> NoneStops(env, fed.units) && !fed.halted)
      && (!s.running ==>
          || (s.handled != [] && s.handled <= fed.units
              && EffectOf(env, s.handled[|s.handled| - 1]).Stop?
              && NoneStops(env, fed.units[..|s.handled| - 1]))
          || (fed.halted && s.handled == fed.units && NoneStops(env, fed.units)))
  {
    hide Feed, EffectOf, Framer, Run, TicksOf;
    RunSettled(env, events, true);
    var s, fed := Run(env, events), Fed(env, events);
    if !s.running && s.handled != [] {
      var last := |s.handled| - 1;
      assert fed.units[last] == s.handled[last];
      assert s.handled[..last] == fed.units[..last];
    }
  }

  /** Where no header announces more than usize, both speak of the whole stream: neither the
      split into chunks nor the build plays a part, and framing never halts. */
  lemma StreamDecides<F, T>(env: Env<F, T>, events: seq<Event>)
    requires Fits(Flatten(Received(events)))
    ensures Fed(env, events) == Drain(Framer(Checked), Flatten(Received(events))) && !Fed(env, events).halted
  {
    hide Feed, Framer, Drain, Flatten;
    FittingStreams(env.build, Flatten(Received(events)), Received(events));
  }

  /** A peer sends encodings one after the other, the last one possibly cut short, none of them
      ending the session. In any chunks, in any build, and whatever the timer does in between,
      the session still runs, has forwarded exactly their ticks, and keeps the cut one. */
  lemma EncodingsForwarded<F, T>(env: Env<F, T>, events: seq<Event>, batch: seq<seq<Field>>, last: seq<Field>, k: nat)
    requires (forall fields :: fields in batch + [last] ==> |Wire(fields)| <= USIZE_MAX) && k < |Wire(last)|
    requires Flatten(Received(events)) == Sending(batch, Wire(last)[..k])
    requires Undisturbed(env, events) && NoneStops(env, Wires(batch))
    ensures var s := Run(env, events);
      s.running && s.handled == Wires(batch) && s.ticks == TicksOf(env, Wires(batch)) && s.buf == Wire(last)[..k]
  {
    hide Feed, EffectOf, Framer, Run, TicksOf, Wire, Wires, Sending, Flatten, Fits;
    EncodingsSurviveChunking(env.build, batch, last, k, Received(events));
    StopsAtFirstStop(env, events);
    ForwardedTicks(env, events);
  }

  /** What a session does with a message depends on first-match lookups outside the envelope. */
  lemma SameLookups<F, T>(env: Env<F, T>, a: RawMessage, b: RawMessage)
    requires forall tag :: OnWire(tag) ==> GetVal(a, tag) == GetVal(b, tag)
    ensures DispatchEffect(env, a) == DispatchEffect(env, b)
  {
    hide GetVal, ParseInt, ParseUint;
    assert OnWire(MSG_TYPE) && OnWire(TEST_REQ_ID) && OnWire(SYMBOL) && OnWire(BEGIN_SEQ);
    assert OnWire(MD_ENTRY_NO) && OnWire(MD_ENTRY_PX) && OnWire(MD_ENTRY_SIZE);
    assert OnWire(MD_ENTRY_DATE) && OnWire(MD_ENTRY_TIME) && OnWire(TRADE_TYPE);
  }

  /** A session does with an encoded trade what its own fields call for: the tick forwarded is
      the one `Tick::from_raw` makes of the message that was encoded. */
  lemma EncodedTradeEffect<F, T>(env: Env<F, T>, msg: RawMessage, head: seq<Field>, entry: Field, tail: seq<Field>)
    requires IsWireMessage(msg, head + [entry] + tail)
    requires NoEntry(head) && entry.tag == MD_ENTRY_NO && ParseUint(env.build, entry.value) == Some(1)
    requires forall f :: f in tail ==> f.tag in {268, 269, 270, 271, 272, 273}
    ensures Encode(msg).Some? && EffectOf(env, Encode(msg).value) == DispatchEffect(env, msg)
  {
    hide DecodeBytes, Encode, IsWireMessage, DispatchEffect, Envelope, Singles, NoEntry, ParseUint;
    TradeRoundTrip(env.build, msg, head, entry, tail);
    var fields := head + [entry] + tail;
    var decoded := Singles(Envelope(fields) + fields);
    forall tag | OnWire(tag)
      ensures GetVal(decoded, tag) == GetVal(msg, tag)
    {
      WireIsFields(msg, fields);
      LookupOnWire(msg, fields, tag);
      SinglesConcat(Envelope(fields), fields);
      EnvelopeLookup(fields, tag);
      GetValConcat(Singles(Envelope(fields)), Singles(fields), tag);
    }
    SameLookups(env, decoded, msg);
  }

  lemma WireIsFields(msg: RawMessage, fields: seq<Field>)
    requires IsWireMessage(msg, fields)
    ensures WireFields(msg) == Some(fields)
  {
  }

  /** Where the announced total wraps to zero the loop takes an empty message, which changes
      nothing and stops nothing: it is back where it was, and takes it again. */
  lemma ZeroTotalSpins<F, T>(env: Env<F, T>, s: State<F, T>)
    requires ScanFrame(env.build, s.buf) == Complete(0)
    ensures Handle(env, s, 0) == s.(handled := s.handled + [[]])
  {
    hide ScanFrame;
    assert s.buf[..0] == [] && s.buf[0..] == s.buf;
    assert EffectOf(env, []) == Nothing by { NothingToDo(env); }
  }

  lemma NothingToDo<F, T>(env: Env<F, T>)
    ensures EffectOf(env, []) == Nothing
  {
    assert FieldsFrom([], 0) == [];
    assert DecodeBytes(env.build, []) == Decoded([] + EmptyPairs());
    var pairs := [] + EmptyPairs();
    assert pairs[1..][1..] == [] && GetVal(pairs[1..][1..], MSG_TYPE) == None;
    assert GetVal(pairs[1..], MSG_TYPE) == None;
    assert GetVal(pairs, MSG_TYPE) == None;
  }
}
