/** Newline-delimited queries off a growing buffer (query_engine/src/session.rs). */
module Lines {
  import opened Wrappers
  import opened Bytes
  import opened Buffers
  import opened Draining
  import opened Texts

  /** Bytes of the first line, newline included. */
  function LineCut(buf: seq<Byte>): Cut
  {
    var pos := Find(buf, 0, NEWLINE);
    if pos < |buf| then Take(pos + 1) else Wait
  }

  /** The query a line's bytes hold. */
  function LineText(line: seq<Byte>): seq<Byte>
    requires line != []
  {
    Trim(Lossy(line[..|line| - 1]))
  }

  method ExtractLine(buf: ByteBuffer) returns (line: Option<seq<Byte>>)
    modifies buf
    ensures line.Some? == Takes(LineCut, old(buf.data))
    ensures line.Some? ==>
      var n := LineCut(old(buf.data)).n;
      line == Some(LineText(old(buf.data)[..n])) && buf.data == old(buf.data)[n..]
    ensures line.None? ==> buf.data == old(buf.data) && 10 !in buf.data
    ensures line.Some? ==> exists text ::
      10 !in text && old(buf.data) == text + [10] + buf.data && line.value == Trim(Lossy(text))
  {
    var pos := Find(buf.data, 0, NEWLINE);
    if pos == |buf.data| {
      return None;
    }
    var front := buf.SplitTo(pos + 1);
    var text := front[..pos];
    assert NEWLINE !in text && old(buf.data) == text + [NEWLINE] + buf.data;
    return Some(Trim(Lossy(text)));
  }

  lemma LineCutter()
    ensures Stable(LineCut) && Prompt(LineCut)
  {
    forall buf: seq<Byte>, more | Takes(LineCut, buf)
      ensures LineCut(buf + more) == LineCut(buf)
    {
      FindIs(buf + more, 0, NEWLINE, Find(buf, 0, NEWLINE));
    }
    forall buf: seq<Byte> | Takes(LineCut, buf)
      ensures LineCut(buf[..LineCut(buf).n]) == LineCut(buf)
    {
      FindIs(buf[..LineCut(buf).n], 0, NEWLINE, Find(buf, 0, NEWLINE));
    }
  }

  /** The lines a session sees do not depend on how the client's bytes were split. */
  lemma LinesIgnoreChunks(chunks: seq<seq<Byte>>)
    ensures Feed(LineCut, [], chunks) == Drain(LineCut, Flatten(chunks))
  {
    LineCutter();
    NeverHalts(LineCut, Flatten(chunks));
    ChunkingIrrelevant(LineCut, Flatten(chunks));
  }
}
