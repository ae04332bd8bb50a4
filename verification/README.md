# mimiKDB: tick store and FIX wire layer, modelled and proved in Dafny

mimiKDB takes market data off a FIX 4.4 session, buffers it per symbol, writes it to parquet
files, merges those files in the background, and answers queries over files and buffers together.
This project models its two cores and proves what they promise over all inputs and all runs.

**The tick store** (`Rows`, `HotBuf`, `Paths`, `Disks`, `Catalogs`, `Batchers`, `Compactors`,
`Queries`, `Protocol`, `ProtocolInvariant`, `Ledger`, `StoreRuns`, `DeferredReads`). `Protocol` is a state machine: one batcher,
one compactor and any number of queries interleave at every point where a lock is taken or released
or the disk is touched; any write may fail and leave anything, or nothing, at its target; any
deletion may fail. Its state carries a history (ticks accepted, batches taken and whether they were
lost, every write) that no step looks at; `Ledger` proves that history to be what the events of the run say. `ProtocolInvariant` states one inductive invariant, a part
at a time; `StoreRuns` draws the theorems about every run from it. Beside it stand the classes
(`HotBufQuote`, `HotBufTrade`, `Catalog`, `Batcher`) with the code's own methods, each proved against
sequences of rows and maps of paths. The contracts of `Flush` and `ConcatFromCache` are the predicates
`FlushEffect` and `MergeEffect`; `FlushIsFourSteps` and `MergeIsItsSteps` prove that these are exactly
the outcomes of the state machine's own flush and merge.

**The wire layer** (`Bytes`, `Parser`, `Message`, `Codec`, `Buffers`, `Encoder`, `RoundTrip`,
`Draining`, `Framing`, `Unicode`, `Texts`, `Lines`, `Ticks`, `Messages`, `Session`, `SessionRuns`, `EndToEnd`). Functions say what the
parser, the decoder, the encoder and the framer compute; methods with the code's loops are proved
equal to them; lemmas then prove grammar exactness, round trips, independence from chunking and facts
about whole session runs. Tags, message types and separators are written as numbers and texts in these
lemmas, so that they do not rest on the names the functions use. A byte is an integer below 256 and a text is a byte sequence; overflow is
modelled where the code checks it (tags) and where bytes a peer sends can bring it about: in
`parse_uint` and in the framer's total, for a build that stops on overflow (`Checked`) and for one
that wraps (`Wrapping`).

The standard behind the wire layer is FIX 4.4: Volume 1, "FIX 'Tag=Value' Syntax", "Standard Message
Header" and "Standard Message Trailer".

## Where the code and its documentation differ

The model follows the code.

- The design document keeps the rows of a failed write in the hot buffer (section on errors, line
  254). The code empties the buffer first (`batcher.rs:164`), so a failed write loses them.
  `FailedFlushLosesTicks` gives such a run; `OwedIsAccepted` says exactly when a query misses nothing.
- The design document spares the newest file when merging (line 186); the code merges all of them.
- `sweep_stale` is documented to flush buffers that have reached `max_age`; it flushes every non-empty one.
- The design document says a reader never meets a deleted path (lines 157-161). Scans are lazy and run
  after the lock is released, so a read can meet one: `ReaderMeetsDeletedPath` is such a run.
  `ReadFailsIfRemoved` says that a read fails exactly if the run has deleted its file,
  `OnlySupersededFilesVanish` that this file is one a later merge replaced, and `AnswerIsWhatWasOwed`
  that a read that gets through is exact.
- `is_safe_symbol` is documented to keep `../` out, and does (`NoSeparators`, `StaysUnderKind`); the symbol `..` on its own passes, and its files land
  directly under the kind, without their date (`DotDotDropsTheDate`). `SameFile` shows that only dates can
  collide because of it.
- `Tick::from_raw` is documented to choose as `decode` does. `BranchesAgree` gives the exact condition,
  `AgreeWithoutOverflow` its plain case, both of what `FromRaw` returns, and `OverlongTagSplitsTheChoice` a message (`4294967295268=1`)
  on which they differ.
- `extract_message` is documented to leave a partial message untouched and to split any byte stream. A
  BodyLength near 2^64 makes its additions overflow: a build that stops on overflow panics, one that wraps
  takes zero bytes for ever or a number that depends on the chunks (`TotalWrapsToZero`, `ZeroTotalSpins`,
  `WrappedTotalMoves`). `FramingExactly` and `FramingIgnoresChunks` say for exactly which streams chunks play
  no part, and `FittingStreams` that all is well where no announced total exceeds usize.
- A gap fill's NewSeqNo should be the next number sent. An ordinary message sent d messages after a gap
  fill carries NewSeqNo + d (`OutboundNumbers`), and d is at least 1: after two resend requests in a row
  NewSeqNo 3 and 4 are followed by a 5 (`NewSeqNoIsNotNext`).

## Model

| member | source | states |
|---|---|---|
| ProtocolInvariant.RunInv | lib/tick_score/src/batcher.rs:76-113 | the inductive invariant (locks, targets, lists, conservation, sizes, views, passes) holds in every state any interleaving of batcher, compactor and queries reaches |
| ProtocolInvariant.InvB | lib/tick_score/src/batcher.rs:139-205 | every batcher step keeps the invariant: push, take, write (failed or not), listing, sweep |
| ProtocolInvariant.InvC | lib/tick_score/src/compactor.rs:24-47 | every compactor step keeps the invariant: due list read under one lock, each merge and its deletions under another |
| ProtocolInvariant.InvQ | lib/query_engine/src/query.rs:196-202 | every query step keeps the invariant, with any number of other queries in progress |
| Ledger.HistoryIsTrue | lib/tick_score/src/batcher.rs:76-113 | in every run the accepted ticks of a symbol and kind are those its events accepted, in order; the files counted since the due list was read, the failed merges and the lost batches are those its events show |
| Ledger.BatcherGoesOn | lib/tick_score/src/batcher.rs:74-154 | the batcher always has a step to take, or waits for a lock someone holds |
| Ledger.CompactorGoesOn | lib/tick_score/src/compactor.rs:24-47 | so has the compactor |
| StoreRuns.ExactlyOnce | lib/query_engine/src/query.rs:94-158 | a query holding both locks for a kind: its listed files in order, then the hot rows, are exactly the accepted ticks of that symbol and kind in arrival order, less the batches lost to failed writes |
| StoreRuns.OwedIsAccepted | lib/tick_score/src/batcher.rs:164-180 | a query sees every accepted tick if and only if no write lost a batch (or, with dates that miss the day, nothing has been flushed) |
| StoreRuns.FailedFlushLosesTicks | lib/tick_score/src/batcher.rs:164-175 | a run in which a failed flush makes a later query miss an accepted tick: rows are not retained |
| StoreRuns.PromiseHasOrigin | lib/query_engine/src/query.rs:196-200 | what a query carries as owed is what it was owed at one earlier step, the one at which it held both locks |
| StoreRuns.AnswerIsWhatWasOwed | lib/query_engine/src/query.rs:196-206 | a query that gets through its files after releasing its locks returns exactly what it was owed while it held both, whatever was flushed, merged or deleted since |
| StoreRuns.CapturedFilesKeep | lib/tick_score/src/catalog.rs:162-175 | captured files that still exist hold the rows of the snapshot: no path is ever rewritten |
| DeferredReads.ReadFailsIfRemoved | lib/tick_score/src/catalog.rs:174-191 | a deferred read fails if and only if an earlier step of the run deleted the very file it is about to read |
| DeferredReads.MissingIsRemoved | lib/tick_score/src/catalog.rs:181-191 | a file once written is missing if and only if the run has deleted it after a merge: no failed write and no rewrite takes one away |
| DeferredReads.OnlySupersededFilesVanish | lib/tick_score/src/catalog.rs:174-175 | a deferred read that fails does so on a file that was written and that its partition no longer lists |
| DeferredReads.ReaderMeetsDeletedPath | lib/query_engine/src/query.rs:196-202 | a run in which a file is captured, merged away and deleted, and then read |
| DeferredReads.PlanKeepsPromise | lib/query_engine/src/query.rs:196-206 | a plan built over the files a query captured, run at any later point of the run, gives what the query was owed when it held both locks, or nothing if and only if the run has deleted one of those files |
| StoreRuns.Conservation | lib/tick_score/src/batcher.rs:159-205 | per symbol and kind, accepted ticks are the batches taken, then the rows in flight, then the hot rows; the listed files hold on disk, in order, exactly the batches not lost, through any number of merges and failures |
| StoreRuns.NoDanglingFile | lib/tick_score/src/catalog.rs:122-191 | every listed path exists with the rows written to it, is listed once in its list and in no other, and is not among those being deleted |
| StoreRuns.MutualExclusion | lib/query_engine/src/query.rs:196-200 | nobody reads a hot map from a push or the start of a sweep to its end, nobody reads the catalog while it is written, merged or cleaned up after, and it has one writer |
| StoreRuns.HotBufferBound | lib/tick_score/src/batcher.rs:85-103 | between ticks and sweeps every hot buffer has fewer than max(max_rows, 1) rows |
| StoreRuns.PartFileBound | lib/tick_score/src/batcher.rs:159-181 | every part file ever written has between 1 and max(max_rows, 1) rows |
| StoreRuns.SweepEmpties | lib/tick_score/src/batcher.rs:139-154 | a finished sweep leaves every buffer of its kind empty |
| StoreRuns.SweepEmptiesBoth | lib/tick_score/src/batcher.rs:109-112 | a sweep that ends with the batcher waiting for ticks again has emptied the buffers of both kinds |
| StoreRuns.SweepRunsToItsEnd | lib/tick_score/src/batcher.rs:109-154 | a sweep starts with every symbol there is and is left only at the end of the trades, whatever its writes come to |
| StoreRuns.CompactionBound | lib/tick_score/src/compactor.rs:24-47 | after a pass with no failed merge a partition lists at most max(threshold, 1) files plus those flushed to it during the pass |
| StoreRuns.RunSafe | lib/tick_score/src/batcher.rs:76-104 | every buffer, list and write target of a run belongs to a safe symbol and the day the batcher started |
| StoreRuns.FreshTarget | lib/tick_score/src/batcher.rs:207-221 | every flush and merge writes a path that no earlier write of the run, failed or not, has touched; for any data directory it leads to another directory entry than all of those |
| Paths.SafeExactly | lib/tick_score/src/batcher.rs:127-133 | a symbol is let through if and only if it has 1 to 32 characters, each a letter, a digit, a dot, an underscore or a dash |
| Paths.NoSeparators | lib/tick_score/src/batcher.rs:120-133 | no separator and no NUL is let through; `BTC-USD` is, `../../etc/passwd` is not |
| Paths.Names | lib/tick_score/src/catalog.rs:14-21 | the directories are `Quote` and `Trade`, the files `part-{n}.parquet` and `merged-{n}.parquet` |
| Paths.SplitsBack | lib/tick_score/src/batcher.rs:207-221 | the path written splits at its separators into the data directory, the kind, the date, the symbol and the file if and only if the symbol has no separator |
| Paths.SeparatorsEscape | lib/tick_score/src/batcher.rs:120-126 | a symbol with separators, which is not let through, would lead out of the kind's directory |
| Paths.AbsoluteReplaces | lib/tick_score/src/batcher.rs:120-126 | an absolute symbol, which is not let through, would put the data directory itself aside |
| Paths.DatesCanBeNamed | lib/tick_score/src/batcher.rs:210-217 | what the path laws ask of written dates, that each is one name and no two are alike, can be met |
| Paths.FileTextInjective | lib/tick_score/src/batcher.rs:166-166 | different part or merged numbers give different file names |
| Paths.Resolved | lib/tick_score/src/batcher.rs:207-221 | the directory entry the text of a path leads to, for any data directory and any separator-free symbol, `.` and `..` told apart |
| Paths.SameFile | lib/tick_score/src/batcher.rs:127-133 | the texts of two targets of safe symbols lead to the same entry if and only if the targets are equal, or differ only in date and their symbol is `..` |
| Paths.DotDotDropsTheDate | lib/tick_score/src/batcher.rs:127-133 | the symbol `..` is let through, and its files of two days with one name are one file |
| Paths.StaysUnderKind | lib/tick_score/src/batcher.rs:120-133 | whatever the data directory, the path of a safe symbol leads into the directory of its own kind |
| Catalogs.Catalog.Take | lib/tick_score/src/catalog.rs:49-55 | hands over the partition's list, leaves it empty, touches no other and adds no key |
| Catalogs.Catalog.AddFile | lib/tick_score/src/catalog.rs:58-60 | the path is appended to its own partition's list and to no other |
| Catalogs.Catalog.FilesForSymbolInRange | lib/tick_score/src/catalog.rs:101-107 | the concatenation, in some order, of the lists of exactly the partitions of that symbol and kind with a date in range |
| Catalogs.Catalog.PartitionsOver | lib/tick_score/src/catalog.rs:114-120 | exactly the partitions listing more files than the threshold, each once |
| Catalogs.Catalog.ConcatFromCache | lib/tick_score/src/catalog.rs:122-178 | `MergeEffect`: every error exit, a source file missing among them, leaves all lists as they were and deletes nothing; success leaves one file holding the old files' rows in order; exactly the files it replaced are tried for deletion, one write at most is tried, and it fails if and only if a plan or the write did |
| Catalogs.RemoveMergedFiles | lib/tick_score/src/catalog.rs:185-191 | tries each superseded file once, in order; no other file changes |
| Catalogs.OneDayRange | lib/query_engine/src/query.rs:122-122 | with one partition per symbol and kind, a range lookup gives that partition's list or nothing, whatever the map's order |
| Batchers.Batcher.Flush | lib/tick_score/src/batcher.rs:159-205 | `FlushEffect`: the buffer is emptied and its number used up either way; only a successful write puts its rows at its target and lists it; exactly one write, of exactly its rows, is tried |
| Batchers.Batcher.OnTick | lib/tick_score/src/batcher.rs:76-108 | an unsafe symbol changes nothing; otherwise one row is added to one buffer, and at max_rows, and only then, the buffer is written and emptied |
| Batchers.Batcher.SweepStale | lib/tick_score/src/batcher.rs:139-154 | every non-empty buffer of the kind is written once under its own number and emptied; each list gains that file exactly if the write succeeded; nothing else changes |
| Batchers.SweptMeans | lib/tick_score/src/batcher.rs:147-153 | after a sweep each buffer of the kind that held rows has been written once under its own number, and its partition has gained that file exactly if the write succeeded; no other list has changed |
| Batchers.FlushIsFourSteps | lib/tick_score/src/batcher.rs:159-181 | `FlushEffect`, the contract of `Flush`, allows an outcome if and only if the state machine's flush, run undisturbed, has one with the same buffers, lists and files, whatever a failed write leaves |
| Compactors.MergeOne | lib/tick_score/src/compactor.rs:35-46 | one merge, failed or not, leaves the rows of every partition and their order unchanged |
| Compactors.MergeIsItsSteps | lib/tick_score/src/catalog.rs:122-178 | `MergeEffect`, the contract of `ConcatFromCache`, allows an outcome if and only if the state machine's merge, run undisturbed, has one with the same lists, number and files: the empty list, each failure, and success followed by any of its deletions failing |
| Compactors.Pass | lib/tick_score/src/compactor.rs:24-47 | a whole pass keeps every partition's rows in order and leaves alone those at or below the threshold; with no failure every other ends with one file; the failures counted are those of its plans and writes |
| Queries.ScanKind | lib/query_engine/src/query.rs:114-158 | the plan built, whenever it is run, gives the listed files' rows in catalog order, then the hot rows copied, or fails if one of those files is gone; it is built unless planning to read a listed file fails |
| Queries.PlanReads | lib/query_engine/src/query.rs:144-157 | no frame, one frame and several frames are treated alike: the frames' rows in order |
| HotBuf.HotBufQuote.Push | lib/tick_score/src/hot_buf.rs:81-91 | one row appended to every column; the columns still stand for the quotes pushed since the last reset |
| HotBuf.HotBufQuote.Snapshot | lib/tick_score/src/hot_buf.rs:133-145 | the rows pushed so far, without changing the buffer; the equal-length check cannot fail |
| HotBuf.HotBufQuote.Take | lib/tick_score/src/hot_buf.rs:147-153 | hands over all rows with their columns and leaves an empty buffer of the same capacity |
| HotBuf.HotBufTrade.Push | lib/tick_score/src/hot_buf.rs:179-188 | as for quotes, with the optional trade type |
| HotBuf.HotBufTrade.Snapshot | lib/tick_score/src/hot_buf.rs:220-228 | as for quotes |
| HotBuf.HotBufTrade.Take | lib/tick_score/src/hot_buf.rs:230-236 | as for quotes |
| HotBuf.AfterCalls | lib/tick_score/src/hot_buf.rs:81-154 | after any sequence of push, take, clear and snapshot, a snapshot shows exactly the quotes since the last reset in order, and the oldest time is the first of them |
| HotBuf.AfterTradeCalls | lib/tick_score/src/hot_buf.rs:179-237 | the same for the trade buffer |
| HotBuf.FlushShown | lib/tick_score/src/hot_buf.rs:121-153 | what a flush writes, `take` then `to_dataframe`, is the frame a snapshot showed just before, column by column; the buffer is left empty |
| HotBuf.FlushShownTrades | lib/tick_score/src/hot_buf.rs:216-236 | the same for trades |
| HotBuf.ColumnsOfQuotes | lib/tick_score/src/hot_buf.rs:81-109 | column by column, a frame that stands for some quotes holds their times to the microsecond, rounded down, their prices and their volumes |
| HotBuf.ColumnsOfTrades | lib/tick_score/src/hot_buf.rs:179-204 | the same for trades, the optional type included |
| Parser.FixParser.NextField | lib/ingestion_engine/src/fix/parser.rs:30-74 | the loop computes `FieldStep`, field and cursor both, also when it fails halfway through a tag |
| Parser.TagScanExact | lib/ingestion_engine/src/fix/parser.rs:35-52 | the checked accumulation yields a tag if and only if the digits end at `=` (or the end) and denote a u32; the tag is that number |
| Parser.FieldStepExact | lib/ingestion_engine/src/fix/parser.rs:30-74 | a field is read if and only if the tag=value grammar has one there, and it is that one |
| Parser.FieldStepStable | lib/ingestion_engine/src/fix/parser.rs:61-73 | a field that ended before the end of the input reads the same whatever follows |
| Parser.FieldStepGrows | lib/ingestion_engine/src/fix/parser.rs:61-73 | more bytes can only lengthen the value of a field already read, never change its tag or drop it |
| Parser.FieldBytesAre | lib/ingestion_engine/src/fix/codec.rs:144-152 | a field is written as its tag in decimals, `=`, its value and the byte 1 |
| Parser.FieldRoundTrip | lib/ingestion_engine/src/fix/codec.rs:144-152 | a printed field with a u32 tag and no SOH in its value reads back as itself, wherever it stands |
| Encoder.EncodeTo | lib/ingestion_engine/src/fix/codec.rs:138-168 | the loop appends exactly the encoding to the buffer, or refuses and appends nothing |
| Encoder.EncodeRefused | lib/ingestion_engine/src/fix/codec.rs:140-150 | refused if and only if a field other than 8, 9 and 10 holds a pair |
| Encoder.WireFieldsConcat | lib/ingestion_engine/src/fix/codec.rs:140-153 | fields go on the wire one by one and in order; a pair anywhere refuses them all |
| Encoder.WireFieldsOfOne | lib/ingestion_engine/src/fix/codec.rs:141-152 | a single field goes on the wire as it is, a pair is refused, and 8, 9 and 10 are left out |
| Encoder.SumConcat | lib/ingestion_engine/src/fix/codec.rs:162-162 | the byte sum of two stretches is the sum of their byte sums |
| Encoder.SumOfOne | lib/ingestion_engine/src/fix/codec.rs:162-162 | the byte sum of one byte is that byte |
| Encoder.BodyOfOne | lib/ingestion_engine/src/fix/codec.rs:144-152 | the body of one field is that field as written |
| Encoder.BodyConcat | lib/ingestion_engine/src/fix/codec.rs:139-153 | the body of two lists of fields is their bodies in a row |
| Encoder.OnWireTags | lib/ingestion_engine/src/fix/codec.rs:141-143 | exactly 8, 9 and 10 are left to the encoder |
| Encoder.ReadBack | lib/ingestion_engine/src/fix/parser.rs:30-74 | iterating the cursor over printed fields gives those fields, in order, and goes on after them |
| Encoder.FieldsOfEncoding | lib/ingestion_engine/src/fix/codec.rs:155-166 | an encoding reads as 8 with `FIX.4.4`, 9 with the true body length, the message's own fields in order, then 10 with three digits whose value is the sum of all bytes before it modulo 256 |
| Message.GetValConcat | lib/ingestion_engine/src/fix/raw_msg.rs:21-26 | first match: a lookup in a concatenation tries the left part first |
| Message.GetValOne | lib/ingestion_engine/src/fix/raw_msg.rs:21-26 | a lookup finds the value of a field with the tag |
| Message.GetValAbsent | lib/ingestion_engine/src/fix/raw_msg.rs:21-26 | a lookup finds nothing if and only if no field has the tag |
| Bytes.ParseI32Exactly | lib/ingestion_engine/src/fix/raw_msg.rs:28-35 | the texts read as an i32 are exactly its numerals, with a plus or a minus sign or none |
| Bytes.ParseUsizeExactly | lib/ingestion_engine/src/network/framing.rs:34-37 | the texts read as a usize are exactly its numerals, with a plus sign or none |
| Bytes.DigitsAreChars | lib/ingestion_engine/src/fix/parser.rs:44-46 | the digits are the characters 0 to 9 |
| Unicode.Utf8IsChars | lib/ingestion_engine/src/fix/raw_msg.rs:84-86 | the bytes accepted as text are exactly the UTF-8 encodings of Unicode scalar values in a row |
| Codec.ParseQuote | lib/ingestion_engine/src/fix/codec.rs:10-64 | the loop computes `QuoteFold` of the fields still to come |
| Codec.ParseTrade | lib/ingestion_engine/src/fix/codec.rs:66-96 | the loop computes `TradeFold` of the fields still to come |
| Codec.Decode | lib/ingestion_engine/src/fix/codec.rs:105-130 | the loop with its mode switch computes `DecodeBytes`, error exits included |
| RoundTrip.QuoteLegs | lib/ingestion_engine/src/fix/codec.rs:15-63 | with a second 268 between two legs, each side of the price and size pairs is the last value of its own leg, empty if absent; the other group fields are kept in order |
| RoundTrip.QuoteOneLeg | lib/ingestion_engine/src/fix/codec.rs:15-63 | without a second 268 every leg value lands on the first side, the last one winning |
| RoundTrip.GroupFieldsAre | lib/ingestion_engine/src/fix/codec.rs:17-57 | the fields of a group are the trailer 10 and the entry fields 268 to 273 in UTF-8 |
| RoundTrip.GroupLoopsAccept | lib/ingestion_engine/src/fix/codec.rs:15-96 | either loop decodes a message if and only if all its remaining fields are 10, or 268 to 273 in UTF-8, and refuses it otherwise |
| RoundTrip.LastValueIs | lib/ingestion_engine/src/fix/codec.rs:31-52 | the last of several values is the one that stays |
| RoundTrip.DecodeWithEntry | lib/ingestion_engine/src/fix/codec.rs:105-130 | decoding any bytes that hold a 268: malformed if and only if a field up to it is no UTF-8 or its group loop refuses a later one, an overflow if and only if its count overflows, otherwise a trade for count 1 and a quote for any other |
| RoundTrip.DecodeWithoutEntry | lib/ingestion_engine/src/fix/codec.rs:111-129 | decoding any bytes without one: malformed if a field is no UTF-8, otherwise the quote loop goes on from where the last read left the cursor |
| RoundTrip.QuoteRefused | lib/ingestion_engine/src/fix/codec.rs:56-56 | a quote decodes if and only if all its remaining fields are UTF-8 group fields or trailers |
| RoundTrip.TradeFields | lib/ingestion_engine/src/fix/codec.rs:66-96 | a trade keeps its group fields in order, drops the trailer, and is refused if and only if another field turns up |
| RoundTrip.DecodeOfEncode | lib/ingestion_engine/src/fix/codec.rs:105-168 | decoding an encoding's bytes is running the decoder's logic on the fields it was made from, envelope included |
| RoundTrip.TradeRoundTrip | lib/ingestion_engine/src/fix/codec.rs:66-168 | an encoded trade decodes to tags 8 and 9 and exactly its own fields, without trailer |
| RoundTrip.QuoteRoundTrip | lib/ingestion_engine/src/fix/codec.rs:10-168 | an encoded two-leg quote decodes to its fields with leg prices and sizes gathered in one pair each |
| RoundTrip.PlainRoundTrip | lib/ingestion_engine/src/fix/codec.rs:105-168 | an encoded message without 268 decodes to all its fields, envelope and trailer, then two empty pairs |
| RoundTrip.PlainLookups | lib/ingestion_engine/src/fix/raw_msg.rs:21-26 | for such a message first-match lookup of every tag outside 8, 9 and 10 is unchanged, except that 270 and 271 give an empty pair when it has none |
| Draining.DrainKeepsBytes | lib/ingestion_engine/src/network/session.rs:83-85 | units cut off and leftover together are the bytes that came in |
| Draining.DrainResumes | lib/ingestion_engine/src/network/session.rs:83-92 | draining early and going on with the leftover is draining everything at once |
| Draining.FeedSnoc | lib/ingestion_engine/src/network/session.rs:83-92 | one more chunk is one more drain of what was left, unless the loop had halted |
| Draining.ChunkingIrrelevant | lib/ingestion_engine/src/network/session.rs:76-93 | for any stable and prompt cut the append-and-drain loop does not depend on how the stream is split, if and only if no part of it short of its end halts the loop |
| Draining.SplittingExactly | lib/ingestion_engine/src/network/session.rs:76-93 | for any cut at all: the split plays no part if and only if, wherever the stream may stop and from every unit on, the cut takes what it takes of the whole stream and halts at its end only |
| Framing.ExtractMessage | lib/ingestion_engine/src/network/framing.rs:17-46 | the buffer loses exactly the message returned, and nothing on a partial or refused one; totals beyond usize panic in a checked build and wrap in another |
| Framing.RefusedExactly | lib/ingestion_engine/src/network/framing.rs:20-37 | a buffer is refused if and only if its first field is not 8, or its second not 9 or no number |
| Framing.DrainMessages | lib/ingestion_engine/src/network/session.rs:85-92 | the loop computes `Drain` of the framer: it ends after finitely many messages, and is marked halted where the code panics or takes empty messages for ever |
| Framing.FrameStable | lib/ingestion_engine/src/network/framing.rs:17-46 | a message whose announced total fits usize is found whatever bytes are appended, and in its own bytes alone |
| Framing.FramingExactly | lib/ingestion_engine/src/network/framing.rs:17-46 | for every byte stream and every build, the split plays no part if and only if the framer says of every part of the stream that can be there what it says of the whole |
| Framing.FramingIgnoresChunks | lib/ingestion_engine/src/network/framing.rs:9-46 | for every byte stream, malformed ones included, a checked build takes off the same messages and leaves the same bytes under every split, if and only if no part of the stream short of its end announces more than usize |
| Framing.FittingStreams | lib/ingestion_engine/src/network/framing.rs:34-46 | where no header, wherever cut, announces more than usize, every build takes off the messages of the whole stream under every split, and does not halt |
| Framing.TotalWrapsToZero | lib/ingestion_engine/src/network/framing.rs:39-45 | a header whose total is 2^64: a checked build panics, a wrapping one takes an empty message |
| Framing.WrappedTotalMoves | lib/ingestion_engine/src/network/framing.rs:39-45 | a header off which a wrapping build takes 17 bytes or 18, depending on the chunks |
| Framing.FrameOfEncoding | lib/ingestion_engine/src/network/framing.rs:5-46 | the framer takes exactly an encoding off the front of any buffer, even with SOH inside values |
| Framing.PrefixNotExtracted | lib/ingestion_engine/src/network/framing.rs:34-43 | no strict prefix of an encoding is extracted or halts the loop, in any build, not even one cut inside the BodyLength digits |
| Framing.EncodingsSurviveChunking | lib/ingestion_engine/src/network/framing.rs:9-46 | encodings sent in a row, the last possibly cut short, come back in every build and under any chunking as exactly those byte strings |
| Lines.ExtractLine | lib/query_engine/src/session.rs:84-88 | the first line and its newline are removed, and its bytes returned as text: ill-formed parts replaced, then trimmed; otherwise there is none and nothing changes |
| Lines.LineCutter | lib/query_engine/src/session.rs:84-88 | a line found in a buffer is found there whatever bytes are appended, and in its own bytes alone |
| Texts.LossyIsUtf8 | lib/query_engine/src/session.rs:87-87 | the converted text is well-formed UTF-8, and is the bytes themselves if and only if those were |
| Texts.LossyStep | lib/query_engine/src/session.rs:87-87 | an ill-formed part becomes U+FFFD, and what follows it is converted on its own |
| Texts.BrokenIsLongest | lib/query_engine/src/session.rs:87-87 | what is replaced cannot be longer: with the byte that follows no character begins so |
| Texts.BrokenCompletes | lib/query_engine/src/session.rs:87-87 | it is one byte, or the start of a character that could be completed |
| Texts.LossyKeeps | lib/query_engine/src/session.rs:87-87 | well-formed text is kept, whatever follows it |
| Unicode.SpacesAreWhite | lib/query_engine/src/session.rs:87-87 | what is trimmed are the encodings of the characters Unicode calls white space |
| Unicode.SpaceIsChar | lib/query_engine/src/session.rs:87-87 | and whatever is trimmed is one such character |
| Texts.TrimIs | lib/query_engine/src/session.rs:87-87 | trimming takes off white space at both ends, nothing else, and leaves none at either end |
| Lines.LinesIgnoreChunks | lib/query_engine/src/session.rs:46-71 | the query session sees the same lines however the client's bytes are split |
| Ticks.FirstEntryOf | lib/ingestion_engine/src/fix/codec.rs:111-127 | the first 268 of a decoded message is the one the decoder stopped at, or else what the quote loop found after it gave up |
| Ticks.NumbersAre | lib/ingestion_engine/src/fix/raw_msg.rs:28-61 | numbers and texts are read off the first field with the tag, if it holds a single value |
| Ticks.TradeOutcome | lib/ingestion_engine/src/types/types.rs:102-132 | all that comes of a message whose first 268 is one: the trade its first 270, 271, 272, 273 and 828 describe if all but the last can be read, a panic on a date that is none, a refusal otherwise |
| Ticks.QuoteOutcome | lib/ingestion_engine/src/types/types.rs:62-98 | all that comes of any other message: without a count a refusal, with another than two an incomplete snapshot, with two the quote whose bid stands first and whose ask stands second in 270 and 271 |
| Ticks.RanTradeShows | lib/ingestion_engine/src/fix/codec.rs:105-130 | the trade loop ran if and only if the decoded message holds no pair |
| Ticks.CountsAgree | lib/ingestion_engine/src/fix/codec.rs:171-182 | for every text a build gets through, `parse_uint` and the i32 parse agree on whether it is one, if and only if the count is sound: always in a checked build; in a wrapping one, a numeral of one without plus sign or with at least 32 digits after it, or a text whose digit sum is not one modulo 2^32 |
| Ticks.DigitCountsAgree | lib/ingestion_engine/src/fix/codec.rs:171-182 | on digits alone: if and only if the number is one, or is not one modulo 2^32 |
| Ticks.BranchesAgree | lib/ingestion_engine/src/types/types.rs:146-151 | for every decoded message and build, `FromRaw` makes of it what is made of a trade exactly when `decode` ran the trade loop, if and only if the count met is sound or, with none met, no overflowing tag left the cursor on a digit from where a first 268 of value 1 can be read; otherwise it is the other way round |
| Ticks.AgreeWithoutOverflow | lib/ingestion_engine/src/types/types.rs:143-151 | with a sound count, or without an overflowing tag where none was met, a trade comes only of the trade loop and a quote only of the quote loop |
| Ticks.OverlongTagSplitsTheChoice | lib/ingestion_engine/src/fix/parser.rs:47-52 | a decoded message on which the two choices differ: an overflowing tag leaves the cursor mid-digits |
| Ticks.WrappingCountsDiffer | lib/ingestion_engine/src/fix/codec.rs:171-182 | in a wrapping build `+1` and 4294967297 are counts on which the two readings differ |
| Messages.SentOnWire | lib/ingestion_engine/src/fix/messages.rs:8-75 | every message a session builds can be encoded, carries its own number under 34, and a gap fill its NewSeqNo under 36 |
| Messages.LogonFields | lib/ingestion_engine/src/fix/messages.rs:19-28 | a Logon, field by field |
| Messages.HeartbeatFields | lib/ingestion_engine/src/fix/messages.rs:32-38 | a Heartbeat, field by field, with the TestReqID it answers if it answers one |
| Messages.GapFillFields | lib/ingestion_engine/src/fix/messages.rs:67-75 | a gap fill, field by field |
| Messages.RequestFields | lib/ingestion_engine/src/fix/messages.rs:42-65 | a subscription, field by field: bids, offers and trades at depth one for every symbol asked for, in order |
| Session.MarketDataForwarded | lib/ingestion_engine/src/network/session.rs:135-144 | a W or X message forwards the tick made of it for its symbol, does nothing if it names none or makes none, and ends the session on a panic |
| Session.TestRequestAnswered | lib/ingestion_engine/src/network/session.rs:123-134 | a test request is answered by one heartbeat with the next number and its own 112 |
| Session.ResendAnswered | lib/ingestion_engine/src/network/session.rs:145-160 | a resend request is answered by one gap fill from the number asked for to the next one, or ends the session |
| Session.LogoutEnds | lib/ingestion_engine/src/network/session.rs:161-161 | a logout ends the session with nothing sent |
| Session.OthersIgnored | lib/ingestion_engine/src/network/session.rs:162-164 | any other message changes nothing |
| Session.UndecodedSkipped | lib/ingestion_engine/src/network/session.rs:86-88 | bytes that do not decode change nothing; a panic ends the session |
| Session.TimerSends | lib/ingestion_engine/src/network/session.rs:94-99 | the timer sends one heartbeat with the next number and no id |
| Session.ClosedEnds | lib/ingestion_engine/src/network/session.rs:79-82 | the peer closing ends the session for good |
| Session.SessionTask.Dispatch | lib/ingestion_engine/src/network/session.rs:114-165 | the answer sent, tick forwarded, counter step or stop is the one the message calls for, and nothing else changes |
| Session.SessionTask.OnRead | lib/ingestion_engine/src/network/session.rs:78-93 | appending a chunk and looping over its messages is one step of the session's run |
| Session.SessionTask.OnTimer | lib/ingestion_engine/src/network/session.rs:94-99 | a heartbeat takes the next number; a refused write ends the session |
| SessionRuns.RunNumbered | lib/ingestion_engine/src/network/session.rs:58-66 | in every run the i-th message sent carries counter value i: its number, or a gap fill's NewSeqNo |
| SessionRuns.OutboundNumbers | lib/ingestion_engine/src/network/session.rs:94-159 | ordinary numbers are 1, 2 and then strictly increase; each NewSeqNo lies above every earlier and below every later ordinary number; an ordinary message sent d messages after a gap fill carries NewSeqNo + d |
| SessionRuns.NewSeqNoIsNotNext | lib/ingestion_engine/src/network/session.rs:145-159 | two resend requests, then the timer: the gap fills announce 3 and 4, the next ordinary message carries 5 |
| SessionRuns.ForwardedTicks | lib/ingestion_engine/src/network/session.rs:76-93 | the forwarded ticks are those of the messages framed from what was received, in order, up to the one that ended the session; timers and answers play no part; while the session runs none is missing |
| SessionRuns.StreamDecides | lib/ingestion_engine/src/network/session.rs:83-92 | where no header announces more than usize, the messages framed are those of the whole received stream, whatever the chunks and the build |
| SessionRuns.StopsAtFirstStop | lib/ingestion_engine/src/network/session.rs:85-91 | with every write accepted and the connection open, the session ends exactly at the first framed message that stops it, or where framing halts |
| SessionRuns.EncodingsForwarded | lib/ingestion_engine/src/network/session.rs:76-93 | end to end: of encodings sent in a row, none ending the session and the last possibly cut short, a session forwards exactly the ticks, in any chunks and any build, keeps the cut one and still runs |
| SessionRuns.EncodedTradeEffect | lib/ingestion_engine/src/network/session.rs:114-144 | a session does with an encoded trade what the message that was encoded calls for: encoding, decoding and the trailer change nothing in it |
| EndToEnd.EncodedTradeTick | lib/ingestion_engine/src/network/session.rs:135-144 | an encoded trade in any layout makes the session forward the tick its own fields make |
| EndToEnd.TradeArrives | lib/ingestion_engine/src/network/session.rs:78-93 | a trade sent to a waiting session is forwarded with its own price, volume, symbol and time, and nothing else changes |
| EndToEnd.EncodedQuoteTick | lib/ingestion_engine/src/network/session.rs:135-144 | an encoded two-leg quote makes the session forward the quote whose bid is the last 270 and 271 of the first leg and whose ask is those of the second |
| EndToEnd.QuoteArrives | lib/ingestion_engine/src/network/session.rs:78-93 | a quote sent to a waiting session is forwarded with its bid and its ask as sent, and nothing else changes |
| SessionRuns.ZeroTotalSpins | lib/ingestion_engine/src/network/session.rs:85-92 | where the total wraps to zero one turn of the loop changes nothing but the count of messages, so the next does the same |

## Left out

- Deadlock freedom: an actor that is not waiting for a lock has a step, but the batcher takes a hot lock and then the catalog, a query the
  catalog and then a hot lock, so safety alone is stated.
- Compactors.MergeOne: does not say which superseded files are gone afterwards, because a deletion may fail.
- Batchers.Batcher.SweepStale: one method over one map keyed by kind and symbol, where the code has two maps and a flush per kind.
- SessionRuns.RunNumbered: counters are natural numbers; wrap-around of `u32` counters, file numbers and checksum sums is not modelled.
- Float and date texts are read by functions the model takes as parameters; that a text is no date is
  one of their results, and ends the session.
- Batchers.Batcher.Flush: hot buffers are sequences of rows there; that the columnar buffers stand for such
  sequences is proved of their own classes, and the two are not joined in one object.
- SessionRuns.StopsAtFirstStop: a session that takes empty messages for ever counts as ended.
- A decoded message is a sequence and outbound messages are built as values: capacity and sharing of `RawMessage` are not captured.
- Lock holders are read off the program counters; the compactor's reading of its due list, and a
  query's reading of file lists, are one step each, since nobody can write while they hold the read lock.
- Ticks of unsafe symbols and stream errors change nothing and have no step of their own.
- Row order across several dates: the catalog iterates a hash map, and a run has one date.
- Queries for the empty symbol, which gather all buffers and rely on the library's sort.
- Parsing of query messages beyond the field cursor: query type, sentence and date defaults (`resolve_date_range`).
- Polars, parquet, SQL and CSV: a file is a sequence of rows, a union is ordered concatenation, a sink
  is a write that may fail.
- TLS, sockets, timers, configuration files, lock poisoning, and restarting over existing data.
- File systems that ignore case or normalise names: paths are compared byte by byte.
- The symbol cache, the price refill state and the remaining catalog listings add only easy members.
