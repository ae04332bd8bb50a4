/** Ticks as they reach the store and rows as the store keeps them. */
module Rows {
  import opened Wrappers

  /** An f32, kept as its bit pattern: the store copies prices and never computes with them. */
  type F32 = nat

  /** Times are nanoseconds since the epoch. */
  datatype Quote = Quote(receiveTime: int, bidPrice: F32, bidVol: nat, askPrice: F32, askVol: nat)
  datatype Trade = Trade(receiveTime: int, price: F32, vol: nat, tradeType: Option<nat>)

  datatype Row =
    | QuoteRow(micros: int, bidPrice: F32, bidVol: nat, askPrice: F32, askVol: nat)
    | TradeRow(micros: int, price: F32, vol: nat, tradeType: Option<nat>)

  /** `timestamp_micros`: rounds down, before the epoch too. */
  function Micros(nanos: int): int
  {
    nanos / 1000
  }

  function RowOfQuote(q: Quote): Row
  {
    QuoteRow(Micros(q.receiveTime), q.bidPrice, q.bidVol, q.askPrice, q.askVol)
  }

  function RowOfTrade(t: Trade): Row
  {
    TradeRow(Micros(t.receiveTime), t.price, t.vol, t.tradeType)
  }

  function RowsOfQuotes(quotes: seq<Quote>): (rows: seq<Row>)
    ensures |rows| == |quotes|
    ensures forall i :: 0 <= i < |quotes| ==> rows[i] == RowOfQuote(quotes[i])
  {
    seq(|quotes|, i requires 0 <= i < |quotes| => RowOfQuote(quotes[i]))
  }

  /** A time is kept to the microsecond, rounded down. */
  lemma MicrosAre(nanos: int)
    ensures 1000 * Micros(nanos) <= nanos < 1000 * Micros(nanos) + 1000
  {
  }

  function RowsOfTrades(trades: seq<Trade>): (rows: seq<Row>)
    ensures |rows| == |trades|
    ensures forall i :: 0 <= i < |trades| ==> rows[i] == RowOfTrade(trades[i])
  {
    seq(|trades|, i requires 0 <= i < |trades| => RowOfTrade(trades[i]))
  }
}

/** The columnar hot buffers (tick_score/src/hot_buf.rs). */
module HotBuf {
  import opened Wrappers
  import opened Rows

  datatype Frame =
    | QuoteFrame(times: seq<int>, bidPrices: seq<F32>, bidVols: seq<nat>, askPrices: seq<F32>, askVols: seq<nat>)
    | TradeFrame(times: seq<int>, prices: seq<F32>, vols: seq<nat>, tradeTypes: seq<Option<nat>>)

  predicate EqualLengths(len: nat, f: Frame)
  {
    |f.times| == len
    && match f
       case QuoteFrame(_, bp, bv, ap, av) => |bp| == len && |bv| == len && |ap| == len && |av| == len
       case TradeFrame(_, p, v, tt) => |p| == len && |v| == len && |tt| == len
  }

  /** The rows a frame of equal-length columns stands for. */
  function RowsOfFrame(f: Frame): (rows: seq<Row>)
    requires EqualLengths(|f.times|, f)
    ensures |rows| == |f.times|
  {
    match f
    case QuoteFrame(t, bp, bv, ap, av) =>
      seq(|t|, i requires 0 <= i < |t| => QuoteRow(t[i], bp[i], bv[i], ap[i], av[i]))
    case TradeFrame(t, p, v, tt) =>
      seq(|t|, i requires 0 <= i < |t| => TradeRow(t[i], p[i], v[i], tt[i]))
  }

  /** `DataFrame::new`: refuses columns whose length is not `len`; None is the `expect` firing. */
  function NewFrame(len: nat, f: Frame): Option<Frame>
  {
    if EqualLengths(len, f) then Some(f) else None
  }

  /** What the columns hold when they stand for these quotes. */
  lemma ColumnsOfQuotes(f: Frame, quotes: seq<Quote>, i: nat)
    requires EqualLengths(|f.times|, f) && RowsOfFrame(f) == RowsOfQuotes(quotes) && i < |quotes|
    ensures f.QuoteFrame? && |f.times| == |quotes|
    ensures 1000 * f.times[i] <= quotes[i].receiveTime < 1000 * f.times[i] + 1000
    ensures f.bidPrices[i] == quotes[i].bidPrice && f.bidVols[i] == quotes[i].bidVol
    ensures f.askPrices[i] == quotes[i].askPrice && f.askVols[i] == quotes[i].askVol
  {
    assert RowsOfFrame(f)[i] == RowOfQuote(quotes[i]);
    MicrosAre(quotes[i].receiveTime);
  }

  lemma ColumnsOfTrades(f: Frame, trades: seq<Trade>, i: nat)
    requires EqualLengths(|f.times|, f) && RowsOfFrame(f) == RowsOfTrades(trades) && i < |trades|
    ensures f.TradeFrame? && |f.times| == |trades|
    ensures 1000 * f.times[i] <= trades[i].receiveTime < 1000 * f.times[i] + 1000
    ensures f.prices[i] == trades[i].price && f.vols[i] == trades[i].vol && f.tradeTypes[i] == trades[i].tradeType
  {
    assert RowsOfFrame(f)[i] == RowOfTrade(trades[i]);
    MicrosAre(trades[i].receiveTime);
  }

  class HotBufQuote {
    var times: seq<int>
    var bidPrices: seq<F32>
    var bidVols: seq<nat>
    var askPrices: seq<F32>
    var askVols: seq<nat>
    var len: nat
    var oldestReceiveTime: Option<int>
    const capacity: nat
    /** The quotes pushed since the last reset. */
    ghost var pushed: seq<Quote>

    function Columns(): Frame
      reads this
    {
      QuoteFrame(times, bidPrices, bidVols, askPrices, askVols)
    }

    ghost predicate Valid()
      reads this
    {
      && len == |pushed|
      && EqualLengths(len, Columns())
      && RowsOfFrame(Columns()) == RowsOfQuotes(pushed)
      && oldestReceiveTime == (if pushed == [] then None else Some(pushed[0].receiveTime))
    }

    constructor (capacity: nat)
      ensures Valid() && pushed == [] && this.capacity == capacity
    {
      times, bidPrices, bidVols, askPrices, askVols := [], [], [], [], [];
      len, oldestReceiveTime, pushed := 0, None, [];
      this.capacity := capacity;
    }

    method Push(quote: Quote)
      requires Valid()
      modifies this
      ensures Valid() && pushed == old(pushed) + [quote]
    {
      if oldestReceiveTime.None? {
        oldestReceiveTime := Some(quote.receiveTime);
      }
      times := times + [Micros(quote.receiveTime)];
      bidPrices := bidPrices + [quote.bidPrice];
      bidVols := bidVols + [quote.bidVol];
      askPrices := askPrices + [quote.askPrice];
      askVols := askVols + [quote.askVol];
      len := len + 1;
      pushed := pushed + [quote];
    }

    /** What a live query reads: the rows pushed so far, the buffer untouched. */
    method Snapshot() returns (frame: Frame)
      requires Valid()
      ensures EqualLengths(len, frame) && RowsOfFrame(frame) == RowsOfQuotes(pushed)
      ensures NewFrame(len, Columns()) == Some(frame)
    {
      frame := NewFrame(len, Columns()).value;
    }

    /** What a flush writes; called on the value `Take` hands over. */
    method ToDataFrame() returns (frame: Frame)
      requires Valid()
      ensures EqualLengths(len, frame) && RowsOfFrame(frame) == RowsOfQuotes(pushed)
      ensures NewFrame(len, Columns()) == Some(frame)
    {
      frame := NewFrame(len, Columns()).value;
    }

    method Clear()
      modifies this
      ensures Valid() && pushed == []
    {
      times, bidPrices, bidVols, askPrices, askVols := [], [], [], [], [];
      len, oldestReceiveTime, pushed := 0, None, [];
    }

    /** Hands over the buffered rows and starts afresh with the same capacity. */
    method Take() returns (full: HotBufQuote)
      requires Valid()
      modifies this
      ensures fresh(full) && full.Valid() && full.pushed == old(pushed) && full.capacity == capacity
      ensures full.Columns() == old(Columns())
      ensures Valid() && pushed == []
    {
      full := new HotBufQuote(capacity);
      full.times, full.bidPrices, full.bidVols := times, bidPrices, bidVols;
      full.askPrices, full.askVols := askPrices, askVols;
      full.len, full.oldestReceiveTime, full.pushed := len, oldestReceiveTime, pushed;
      Clear();
    }
  }

  class HotBufTrade {
    var times: seq<int>
    var prices: seq<F32>
    var vols: seq<nat>
    var tradeTypes: seq<Option<nat>>
    var len: nat
    var oldestReceiveTime: Option<int>
    const capacity: nat
    /** The trades pushed since the last reset. */
    ghost var pushed: seq<Trade>

    function Columns(): Frame
      reads this
    {
      TradeFrame(times, prices, vols, tradeTypes)
    }

    ghost predicate Valid()
      reads this
    {
      && len == |pushed|
      && EqualLengths(len, Columns())
      && RowsOfFrame(Columns()) == RowsOfTrades(pushed)
      && oldestReceiveTime == (if pushed == [] then None else Some(pushed[0].receiveTime))
    }

    constructor (capacity: nat)
      ensures Valid() && pushed == [] && this.capacity == capacity
    {
      times, prices, vols, tradeTypes := [], [], [], [];
      len, oldestReceiveTime, pushed := 0, None, [];
      this.capacity := capacity;
    }

    method Push(trade: Trade)
      requires Valid()
      modifies this
      ensures Valid() && pushed == old(pushed) + [trade]
    {
      if oldestReceiveTime.None? {
        oldestReceiveTime := Some(trade.receiveTime);
      }
      times := times + [Micros(trade.receiveTime)];
      prices := prices + [trade.price];
      vols := vols + [trade.vol];
      tradeTypes := tradeTypes + [trade.tradeType];
      len := len + 1;
      pushed := pushed + [trade];
    }

    method Snapshot() returns (frame: Frame)
      requires Valid()
      ensures EqualLengths(len, frame) && RowsOfFrame(frame) == RowsOfTrades(pushed)
      ensures NewFrame(len, Columns()) == Some(frame)
    {
      frame := NewFrame(len, Columns()).value;
    }

    method ToDataFrame() returns (frame: Frame)
      requires Valid()
      ensures EqualLengths(len, frame) && RowsOfFrame(frame) == RowsOfTrades(pushed)
      ensures NewFrame(len, Columns()) == Some(frame)
    {
      frame := NewFrame(len, Columns()).value;
    }

    method Clear()
      modifies this
      ensures Valid() && pushed == []
    {
      times, prices, vols, tradeTypes := [], [], [], [];
      len, oldestReceiveTime, pushed := 0, None, [];
    }

    method Take() returns (full: HotBufTrade)
      requires Valid()
      modifies this
      ensures fresh(full) && full.Valid() && full.pushed == old(pushed) && full.capacity == capacity
      ensures full.Columns() == old(Columns())
      ensures Valid() && pushed == []
    {
      full := new HotBufTrade(capacity);
      full.times, full.prices, full.vols, full.tradeTypes := times, prices, vols, tradeTypes;
      full.len, full.oldestReceiveTime, full.pushed := len, oldestReceiveTime, pushed;
      Clear();
    }
  }

  // ---------- Any sequence of calls ----------

  datatype Call<T> = CallPush(row: T) | CallTake | CallClear | CallSnapshot

  /** What has been pushed since the last call that resets the buffer. */
  function SinceReset<T>(calls: seq<Call<T>>): seq<T>
  {
    if calls == [] then []
    else
      var earlier := SinceReset(calls[..|calls| - 1]);
      match calls[|calls| - 1]
      case CallPush(q) => earlier + [q]
      case CallSnapshot => earlier
      case _ => []
  }

  /** Whatever calls a buffer has seen, its columns still fit together, a snapshot shows the
      quotes since the last reset in order, and the oldest time is the first of them. */
  method AfterCalls(capacity: nat, calls: seq<Call<Quote>>) returns (frame: Frame, oldest: Option<int>)
    ensures EqualLengths(|SinceReset(calls)|, frame)
    ensures RowsOfFrame(frame) == RowsOfQuotes(SinceReset(calls))
    ensures oldest == if SinceReset(calls) == [] then None else Some(SinceReset(calls)[0].receiveTime)
  {
    var buf := new HotBufQuote(capacity);
    for i := 0 to |calls|
      invariant buf.Valid() && fresh(buf) && buf.pushed == SinceReset(calls[..i])
    {
      assert calls[..i + 1][..i] == calls[..i];
      match calls[i] {
        case CallPush(q) => buf.Push(q);
        case CallTake => var full := buf.Take();
        case CallClear => buf.Clear();
        case CallSnapshot => var shown := buf.Snapshot();
      }
    }
    assert calls[..|calls|] == calls;
    frame := buf.Snapshot();
    oldest := buf.oldestReceiveTime;
  }

  /** The same for trades. */
  method AfterTradeCalls(capacity: nat, calls: seq<Call<Trade>>) returns (frame: Frame, oldest: Option<int>)
    ensures EqualLengths(|SinceReset(calls)|, frame)
    ensures RowsOfFrame(frame) == RowsOfTrades(SinceReset(calls))
    ensures oldest == if SinceReset(calls) == [] then None else Some(SinceReset(calls)[0].receiveTime)
  {
    var buf := new HotBufTrade(capacity);
    for i := 0 to |calls|
      invariant buf.Valid() && fresh(buf) && buf.pushed == SinceReset(calls[..i])
    {
      assert calls[..i + 1][..i] == calls[..i];
      match calls[i] {
        case CallPush(q) => buf.Push(q);
        case CallTake => var full := buf.Take();
        case CallClear => buf.Clear();
        case CallSnapshot => var shown := buf.Snapshot();
      }
    }
    assert calls[..|calls|] == calls;
    frame := buf.Snapshot();
    oldest := buf.oldestReceiveTime;
  }

  /** What a flush writes is what a live query was shown just before, whatever the buffer has
      seen; the flush leaves it empty. */
  method FlushShown(buf: HotBufQuote) returns (shown: Frame, flushed: Frame)
    requires buf.Valid()
    modifies buf
    ensures shown == flushed == old(buf.Columns())
    ensures RowsOfFrame(flushed) == RowsOfQuotes(old(buf.pushed))
    ensures buf.Valid() && buf.pushed == []
  {
    shown := buf.Snapshot();
    var full := buf.Take();
    flushed := full.ToDataFrame();
  }

  /** The same for trades. */
  method FlushShownTrades(buf: HotBufTrade) returns (shown: Frame, flushed: Frame)
    requires buf.Valid()
    modifies buf
    ensures shown == flushed == old(buf.Columns())
    ensures RowsOfFrame(flushed) == RowsOfTrades(old(buf.pushed))
    ensures buf.Valid() && buf.pushed == []
  {
    shown := buf.Snapshot();
    var full := buf.Take();
    flushed := full.ToDataFrame();
  }
}
