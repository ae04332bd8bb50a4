/** Cutting units off the front of a growing buffer: read, append, drain until nothing
    complete is left. Both the FIX session and the query session work this way. */
module Draining {
  import opened Wrappers
  import opened Bytes

  /** What stands at the front of the buffer: a unit of `n` bytes, nothing complete yet, or
      something the loop never gets past. */
  datatype Cut = Take(n: nat) | Wait | Halt

  type Cutter = seq<Byte> -> Cut

  /** The units cut off, what is left, and whether the loop halted for good. */
  datatype Drained = Drained(units: seq<seq<Byte>>, rest: seq<Byte>, halted: bool)

  predicate Takes(cut: Cutter, buf: seq<Byte>)
  {
    cut(buf).Take? && 0 < cut(buf).n <= |buf|
  }

  function Drain(cut: Cutter, buf: seq<Byte>): Drained
    decreases |buf|
  {
    if Takes(cut, buf) then
      var n := cut(buf).n;
      Onto([buf[..n]], Drain(cut, buf[n..]))
    else Drained([], buf, cut(buf).Halt?)
  }

  function Onto(units: seq<seq<Byte>>, later: Drained): Drained
  {
    later.(units := units + later.units)
  }

  /** The read loop: append each chunk as it arrives, drain after each, until it halts. */
  function Feed(cut: Cutter, buf: seq<Byte>, chunks: seq<seq<Byte>>): Drained
    decreases |chunks|
  {
    if chunks == [] then Drained([], buf, false)
    else
      var now := Drain(cut, buf + chunks[0]);
      if now.halted then now else Onto(now.units, Feed(cut, now.rest, chunks[1..]))
  }

  /** A complete unit stays the same unit whatever bytes follow it. */
  ghost predicate Stable(cut: Cutter)
  {
    forall buf, more :: Takes(cut, buf) ==> cut(buf + more) == cut(buf)
  }

  /** A unit is recognised as soon as its own bytes are there. */
  ghost predicate Prompt(cut: Cutter)
  {
    forall buf :: Takes(cut, buf) ==> cut(buf[..cut(buf).n]) == cut(buf)
  }

  lemma StableAt(cut: Cutter, buf: seq<Byte>, more: seq<Byte>)
    requires Stable(cut) && Takes(cut, buf)
    ensures cut(buf + more) == cut(buf) && Takes(cut, buf + more)
  {
  }

  lemma OntoTwice(a: seq<seq<Byte>>, b: seq<seq<Byte>>, later: Drained)
    ensures Onto(a, Onto(b, later)) == Onto(a + b, later) && Onto([], later) == later
  {
    assert a + (b + later.units) == (a + b) + later.units;
    assert [] + later.units == later.units;
  }

  lemma DrainSome(cut: Cutter, buf: seq<Byte>)
    requires Takes(cut, buf)
    ensures Drain(cut, buf) == Onto([buf[..cut(buf).n]], Drain(cut, buf[cut(buf).n..]))
  {
  }

  lemma DrainNone(cut: Cutter, buf: seq<Byte>)
    requires !Takes(cut, buf)
    ensures Drain(cut, buf) == Drained([], buf, cut(buf).Halt?)
  {
  }

  /** Draining loses and reorders nothing. */
  lemma {:induction false} DrainKeepsBytes(cut: Cutter, buf: seq<Byte>)
    ensures Flatten(Drain(cut, buf).units) + Drain(cut, buf).rest == buf
    decreases |buf|
  {
    hide Drain, Flatten;
    if Takes(cut, buf) {
      var n := cut(buf).n;
      DrainSome(cut, buf);
      DrainKeepsBytes(cut, buf[n..]);
      FlattenCons(buf[..n], Drain(cut, buf[n..]).units, Drain(cut, buf[n..]).rest);
    } else {
      DrainNone(cut, buf);
      NothingFlat(buf);
    }
  }

  lemma NothingFlat(rest: seq<Byte>)
    ensures Flatten<Byte>([]) + rest == rest
  {
  }

  lemma FlattenCons(first: seq<Byte>, units: seq<seq<Byte>>, rest: seq<Byte>)
    ensures Flatten([first] + units) + rest == first + (Flatten(units) + rest)
  {
    assert ([first] + units)[1..] == units;
  }

  /** The drain leaves nothing complete behind, and halts only on what it cannot get past. */
  lemma {:induction false} DrainIsFinal(cut: Cutter, buf: seq<Byte>)
    ensures var d := Drain(cut, buf);
      !Takes(cut, d.rest) && (d.halted <==> cut(d.rest).Halt?)
    decreases |buf|
  {
    if Takes(cut, buf) {
      DrainIsFinal(cut, buf[cut(buf).n..]);
    }
  }

  /** Draining early and going on with the leftover is draining everything at once. */
  lemma {:induction false} DrainResumes(cut: Cutter, buf: seq<Byte>, more: seq<Byte>)
    requires Stable(cut)
    ensures var early := Drain(cut, buf);
      Drain(cut, buf + more) == Onto(early.units, Drain(cut, early.rest + more))
    decreases |buf|
  {
    hide Drain, Onto, Stable;
    if Takes(cut, buf) {
      var n := cut(buf).n;
      var rest := buf[n..];
      DrainSome(cut, buf);
      StableAt(cut, buf, more);
      DrainSome(cut, buf + more);
      assert (buf + more)[..n] == buf[..n] && (buf + more)[n..] == rest + more;
      DrainResumes(cut, rest, more);
      OntoUnits([buf[..n]], Drain(cut, rest));
      OntoTwice([buf[..n]], Drain(cut, rest).units, Drain(cut, Drain(cut, rest).rest + more));
    } else {
      DrainNone(cut, buf);
      OntoTwice([], [], Drain(cut, buf + more));
    }
  }

  lemma OntoUnits(units: seq<seq<Byte>>, later: Drained)
    ensures Onto(units, later).units == units + later.units
    ensures Onto(units, later).rest == later.rest && Onto(units, later).halted == later.halted
  {
  }

  // ---------- Chunks, one after the other ----------

  lemma FeedStep(cut: Cutter, buf: seq<Byte>, chunks: seq<seq<Byte>>)
    requires chunks != []
    ensures var now := Drain(cut, buf + chunks[0]);
      Feed(cut, buf, chunks) == if now.halted then now else Onto(now.units, Feed(cut, now.rest, chunks[1..]))
  {
  }

  lemma FeedNothing(cut: Cutter, buf: seq<Byte>)
    ensures Feed(cut, buf, []) == Drained([], buf, false) && Flatten<Byte>([]) == []
  {
  }

  /** One more chunk is one more drain of what was left. */
  lemma {:induction false} FeedSnoc(cut: Cutter, buf: seq<Byte>, chunks: seq<seq<Byte>>, chunk: seq<Byte>)
    ensures var early := Feed(cut, buf, chunks);
      Feed(cut, buf, chunks + [chunk])
      == if early.halted then early else Onto(early.units, Drain(cut, early.rest + chunk))
    decreases |chunks|
  {
    hide Drain, Feed, Onto;
    FeedStep(cut, buf, chunks + [chunk]);
    FeedNothing(cut, buf);
    if chunks == [] {
      assert (chunks + [chunk])[1..] == [];
      var now := Drain(cut, buf + chunk);
      FeedNothing(cut, now.rest);
      OntoTwice([], [], now);
      if !now.halted {
        OntoNothing(now);
      }
    } else {
      assert (chunks + [chunk])[0] == chunks[0] && (chunks + [chunk])[1..] == chunks[1..] + [chunk];
      FeedStep(cut, buf, chunks);
      var now := Drain(cut, buf + chunks[0]);
      if !now.halted {
        FeedSnoc(cut, now.rest, chunks[1..], chunk);
        var early := Feed(cut, now.rest, chunks[1..]);
        OntoUnits(now.units, early);
        OntoTwice(now.units, early.units, Drain(cut, early.rest + chunk));
      }
    }
  }

  lemma OntoNothing(now: Drained)
    requires !now.halted
    ensures Onto(now.units, Drained([], now.rest, false)) == now
  {
    assert now.units + [] == now.units;
  }

  // ---------- When the split into chunks plays no part ----------

  ghost predicate SplitIrrelevant(cut: Cutter, stream: seq<Byte>)
  {
    forall chunks: seq<seq<Byte>> :: Flatten(chunks) == stream ==> Feed(cut, [], chunks) == Drain(cut, stream)
  }

  /** From no unit on does a part of the stream, short of its end, halt the loop. */
  ghost predicate NoEarlyHalt(cut: Cutter, stream: seq<Byte>)
    decreases |stream|
  {
    && (forall b :: 0 <= b < |stream| ==> !cut(stream[..b]).Halt?)
    && (Takes(cut, stream) ==> NoEarlyHalt(cut, stream[cut(stream).n..]))
  }

  /** The condition carries over to what a drain of the bytes received so far has left; and
      that drain has not halted unless nothing more comes. */
  lemma {:induction false} RestNoEarlyHalt(cut: Cutter, buf: seq<Byte>, more: seq<Byte>)
    requires Stable(cut) && NoEarlyHalt(cut, buf + more)
    ensures NoEarlyHalt(cut, Drain(cut, buf).rest + more)
    ensures Drain(cut, buf).halted ==> more == []
    decreases |buf|
  {
    hide Stable, Drain;
    if Takes(cut, buf) {
      var n := cut(buf).n;
      DrainSome(cut, buf);
      StableAt(cut, buf, more);
      assert (buf + more)[n..] == buf[n..] + more;
      RestNoEarlyHalt(cut, buf[n..], more);
      OntoUnits([buf[..n]], Drain(cut, buf[n..]));
    } else {
      DrainNone(cut, buf);
      assert (buf + more)[..|buf|] == buf;
    }
  }

  lemma {:induction false} FeedIsDrain(cut: Cutter, buf: seq<Byte>, chunks: seq<seq<Byte>>)
    requires Stable(cut) && NoEarlyHalt(cut, buf + Flatten(chunks))
    requires !Takes(cut, buf) && !cut(buf).Halt?
    ensures Feed(cut, buf, chunks) == Drain(cut, buf + Flatten(chunks))
    decreases |chunks|
  {
    hide Drain, Feed, Stable, Flatten, NoEarlyHalt, Onto;
    if chunks == [] {
      FeedNothing(cut, buf);
      DrainNone(cut, buf);
      assert buf + [] == buf;
    } else {
      var filled, later := buf + chunks[0], Flatten(chunks[1..]);
      FlattenFront(chunks);
      assert filled + later == buf + (chunks[0] + later);
      var now := Drain(cut, filled);
      FeedStep(cut, buf, chunks);
      RestNoEarlyHalt(cut, filled, later);
      DrainResumes(cut, filled, later);
      DrainIsFinal(cut, filled);
      if now.halted {
        assert filled + later == filled;
      } else {
        FeedIsDrain(cut, now.rest, chunks[1..]);
      }
    }
  }

  lemma FlattenFront(chunks: seq<seq<Byte>>)
    requires chunks != []
    ensures Flatten(chunks) == chunks[0] + Flatten(chunks[1..])
  {
  }

  lemma FlattenTwo(a: seq<Byte>, b: seq<Byte>)
    ensures Flatten([a, b]) == a + b
  {
    assert [a, b][1..] == [b] && [b][1..] == [];
    assert Flatten([b]) == b;
  }

  /** A halt met early is not undone by the bytes that never get read. */
  lemma EarlyHaltShows(cut: Cutter, stream: seq<Byte>, b: nat)
    requires b < |stream| && cut(stream[..b]).Halt?
    ensures !SplitIrrelevant(cut, stream)
  {
    hide Flatten;
    var chunks := [stream[..b], stream[b..]];
    FlattenTwo(stream[..b], stream[b..]);
    assert [] + stream[..b] == stream[..b];
    assert Feed(cut, [], chunks) == Drained([], stream[..b], true);
    hide Drain;
    DrainWhole(cut, stream);
  }

  lemma DrainWhole(cut: Cutter, stream: seq<Byte>)
    ensures Drain(cut, stream).units == [] ==> Drain(cut, stream).rest == stream
  {
  }

  /** A stream that may be split anywhere may be split anywhere behind its first unit. */
  lemma SplitBehind(cut: Cutter, stream: seq<Byte>)
    requires SplitIrrelevant(cut, stream) && Prompt(cut) && cut([]).Wait? && Takes(cut, stream)
    ensures SplitIrrelevant(cut, stream[cut(stream).n..])
  {
    hide Drain, Feed, Flatten;
    var n := cut(stream).n;
    var first, rest := stream[..n], stream[n..];
    forall chunks: seq<seq<Byte>> | Flatten(chunks) == rest
      ensures Feed(cut, [], chunks) == Drain(cut, rest)
    {
      var all := [first] + chunks;
      FlattenFront(all);
      assert all[1..] == chunks && [] + first == first;
      assert Flatten(all) == stream;
      FeedStep(cut, [], all);
      DrainSome(cut, first);
      assert first[..n] == first && first[n..] == [];
      DrainNone(cut, []);
      assert Drain(cut, first) == Drained([first], [], false);
      DrainSome(cut, stream);
      OntoCancels([first], Feed(cut, [], chunks), Drain(cut, rest));
    }
  }

  lemma OntoCancels(units: seq<seq<Byte>>, a: Drained, b: Drained)
    requires Onto(units, a) == Onto(units, b)
    ensures a == b
  {
    assert a.units == (units + a.units)[|units|..];
    assert b.units == (units + b.units)[|units|..];
  }

  lemma {:induction false} SplitNeedsNoHalt(cut: Cutter, stream: seq<Byte>)
    requires SplitIrrelevant(cut, stream) && Prompt(cut) && cut([]).Wait?
    ensures NoEarlyHalt(cut, stream)
    decreases |stream|
  {
    hide SplitIrrelevant, Prompt;
    forall b | 0 <= b < |stream|
      ensures !cut(stream[..b]).Halt?
    {
      if cut(stream[..b]).Halt? {
        EarlyHaltShows(cut, stream, b);
      }
    }
    if Takes(cut, stream) {
      SplitBehind(cut, stream);
      SplitNeedsNoHalt(cut, stream[cut(stream).n..]);
    }
  }

  /** What is cut off does not depend on how the stream was split into chunks exactly when no
      part of it short of its end halts the loop. */
  lemma ChunkingIrrelevant(cut: Cutter, stream: seq<Byte>)
    requires Stable(cut) && Prompt(cut) && cut([]).Wait?
    ensures SplitIrrelevant(cut, stream) <==> NoEarlyHalt(cut, stream)
  {
    hide Drain, Feed, Stable, Prompt, NoEarlyHalt, Flatten;
    if NoEarlyHalt(cut, stream) {
      forall chunks: seq<seq<Byte>> | Flatten(chunks) == stream
        ensures Feed(cut, [], chunks) == Drain(cut, stream)
      {
        assert [] + stream == stream;
        FeedIsDrain(cut, [], chunks);
      }
    }
    if SplitIrrelevant(cut, stream) {
      SplitNeedsNoHalt(cut, stream);
    }
  }

  // ---------- For any cutter at all ----------

  /** With the first `b` bytes of the stream there, the cutter takes what it takes of the whole
      stream, and goes on so behind it; it does not halt before the end; and where it waits,
      the same holds wherever the stream stops next. */
  ghost predicate AgreesFrom(cut: Cutter, stream: seq<Byte>, b: nat)
    requires b <= |stream|
    decreases |stream|, |stream| - b
  {
    var part := stream[..b];
    if Takes(cut, part) then
      var n := cut(part).n;
      Takes(cut, stream) && cut(stream).n == n && AgreesFrom(cut, stream[n..], b - n)
    else if cut(part).Halt? then b == |stream|
    else forall c :: b < c <= |stream| ==> AgreesFrom(cut, stream, c)
  }

  /** The loop from the moment `buf` is there to be drained. */
  function Resumed(cut: Cutter, buf: seq<Byte>, chunks: seq<seq<Byte>>): Drained
  {
    var now := Drain(cut, buf);
    if now.halted then now else Onto(now.units, Feed(cut, now.rest, chunks))
  }

  lemma ResumedTakes(cut: Cutter, buf: seq<Byte>, chunks: seq<seq<Byte>>)
    requires Takes(cut, buf)
    ensures var n := cut(buf).n;
      Resumed(cut, buf, chunks) == Onto([buf[..n]], Resumed(cut, buf[n..], chunks))
  {
    hide Drain, Feed, Onto;
    var n := cut(buf).n;
    DrainSome(cut, buf);
    var later := Drain(cut, buf[n..]);
    OntoUnits([buf[..n]], later);
    OntoTwice([buf[..n]], later.units, Feed(cut, later.rest, chunks));
  }

  lemma ResumedStops(cut: Cutter, buf: seq<Byte>, chunks: seq<seq<Byte>>)
    requires !Takes(cut, buf)
    ensures Resumed(cut, buf, chunks) == if cut(buf).Halt? then Drained([], buf, true) else Feed(cut, buf, chunks)
  {
    hide Drain, Feed;
    DrainNone(cut, buf);
    OntoTwice([], [], Feed(cut, buf, chunks));
  }

  lemma ResumedFirst(cut: Cutter, buf: seq<Byte>, chunks: seq<seq<Byte>>)
    requires chunks != []
    ensures Feed(cut, buf, chunks) == Resumed(cut, buf + chunks[0], chunks[1..])
  {
  }

  lemma {:induction false} AgreeingFeeds(cut: Cutter, stream: seq<Byte>, b: nat, chunks: seq<seq<Byte>>)
    requires b <= |stream| && Flatten(chunks) == stream[b..] && AgreesFrom(cut, stream, b)
    ensures Resumed(cut, stream[..b], chunks) == Drain(cut, stream)
    decreases |stream|, |stream| - b, |chunks|
  {
    hide Drain, Feed, Resumed, Flatten, Onto;
    var part := stream[..b];
    if Takes(cut, part) {
      var n := cut(part).n;
      ResumedTakes(cut, part, chunks);
      DrainSome(cut, stream);
      assert part[..n] == stream[..n] && part[n..] == stream[n..][..b - n];
      assert stream[n..][b - n..] == stream[b..];
      AgreeingFeeds(cut, stream[n..], b - n, chunks);
    } else {
      ResumedStops(cut, part, chunks);
      if cut(part).Halt? {
        assert part == stream;
        DrainNone(cut, stream);
      } else if chunks == [] {
        FeedNothing(cut, part);
        assert |stream[b..]| == 0;
        assert part == stream;
        DrainNone(cut, stream);
      } else {
        FlattenFront(chunks);
        var c := b + |chunks[0]|;
        assert stream[b..][..|chunks[0]|] == chunks[0];
        assert part + chunks[0] == stream[..c] && Flatten(chunks[1..]) == stream[c..];
        ResumedFirst(cut, part, chunks);
        AgreeingFeeds(cut, stream, c, chunks[1..]);
      }
    }
  }

  lemma {:induction false} FeedsAgreeing(cut: Cutter, stream: seq<Byte>, b: nat)
    requires b <= |stream|
    requires forall chunks: seq<seq<Byte>> :: Flatten(chunks) == stream[b..] ==>
      Resumed(cut, stream[..b], chunks) == Drain(cut, stream)
    ensures AgreesFrom(cut, stream, b)
    decreases |stream|, |stream| - b
  {
    hide Drain, Feed, Resumed, Flatten, Onto;
    var part := stream[..b];
    FlattenOne(stream[b..]);
    assert Resumed(cut, part, [stream[b..]]) == Drain(cut, stream);
    if Takes(cut, part) {
      var n := cut(part).n;
      ResumedTakes(cut, part, [stream[b..]]);
      assert part[..n] == stream[..n] && part[n..] == stream[n..][..b - n];
      SameFirst(cut, stream, stream[..n], Resumed(cut, part[n..], [stream[b..]]));
      forall chunks: seq<seq<Byte>> | Flatten(chunks) == stream[n..][b - n..]
        ensures Resumed(cut, stream[n..][..b - n], chunks) == Drain(cut, stream[n..])
      {
        assert stream[n..][b - n..] == stream[b..];
        ResumedTakes(cut, part, chunks);
        DrainSome(cut, stream);
        OntoCancels([stream[..n]], Resumed(cut, part[n..], chunks), Drain(cut, stream[n..]));
      }
      FeedsAgreeing(cut, stream[n..], b - n);
    } else if cut(part).Halt? {
      ResumedStops(cut, part, [stream[b..]]);
      DrainWhole(cut, stream);
    } else {
      forall c | b < c <= |stream|
        ensures AgreesFrom(cut, stream, c)
      {
        forall chunks: seq<seq<Byte>> | Flatten(chunks) == stream[c..]
          ensures Resumed(cut, stream[..c], chunks) == Drain(cut, stream)
        {
          var all := [stream[b..c]] + chunks;
          FlattenFront(all);
          assert all[1..] == chunks && stream[b..c] + stream[c..] == stream[b..];
          ResumedStops(cut, part, all);
          ResumedFirst(cut, part, all);
          assert part + stream[b..c] == stream[..c];
        }
        FeedsAgreeing(cut, stream, c);
      }
    }
  }

  lemma FlattenOne(part: seq<Byte>)
    ensures Flatten([part]) == part
  {
    assert [part][1..] == [];
  }

  /** If a drain starts with this unit, the cutter took it. */
  lemma SameFirst(cut: Cutter, stream: seq<Byte>, first: seq<Byte>, later: Drained)
    requires Drain(cut, stream) == Onto([first], later)
    ensures Takes(cut, stream) && cut(stream).n == |first|
  {
    if Takes(cut, stream) {
      assert Drain(cut, stream).units[0] == stream[..cut(stream).n] == first;
    }
  }

  /** What any cutter takes off does not depend on how the stream was split exactly when it
      agrees with itself wherever the stream may stop. */
  lemma SplittingExactly(cut: Cutter, stream: seq<Byte>)
    requires cut([]).Wait?
    ensures SplitIrrelevant(cut, stream) <==> AgreesFrom(cut, stream, 0)
  {
    hide Drain, Feed, Flatten, AgreesFrom, Resumed;
    assert stream[..0] == [] && stream[0..] == stream;
    if AgreesFrom(cut, stream, 0) {
      forall chunks: seq<seq<Byte>> | Flatten(chunks) == stream
        ensures Feed(cut, [], chunks) == Drain(cut, stream)
      {
        ResumedStops(cut, [], chunks);
        AgreeingFeeds(cut, stream, 0, chunks);
      }
    }
    if SplitIrrelevant(cut, stream) {
      forall chunks: seq<seq<Byte>> | Flatten(chunks) == stream[0..]
        ensures Resumed(cut, stream[..0], chunks) == Drain(cut, stream)
      {
        ResumedStops(cut, [], chunks);
      }
      FeedsAgreeing(cut, stream, 0);
    }
  }

  /** A cutter that never halts does so on no stream. */
  lemma {:induction false} NeverHalts(cut: Cutter, stream: seq<Byte>)
    requires forall buf :: !cut(buf).Halt?
    ensures NoEarlyHalt(cut, stream)
    decreases |stream|
  {
    if Takes(cut, stream) {
      NeverHalts(cut, stream[cut(stream).n..]);
    }
  }
}
