/** internal/agent/exec/stream.go: the capped output of a running command. The
    mutex makes each write one step, so a run is a sequence of writes.
  */
module Sink {
  import opened Bytes
  import opened Lines

  const MaxChunkBytes: nat := 32768

  datatype Source = Stdout | Stderr

  datatype Chunk = Chunk(source: Source, data: Bytes)

  /** One call of write. */
  type Write = Chunk

  // ------------------------------------------------------ what is promised

  /** The bytes of the first n chunks, end to end. */
  function Data(chunks: seq<Chunk>, n: nat): Bytes
    requires n <= |chunks|
  {
    if n == 0 then [] else Data(chunks, n - 1) + chunks[n - 1].data
  }

  /** Which output each of those bytes came from. */
  function Tags(chunks: seq<Chunk>, n: nat): (t: seq<Source>)
    requires n <= |chunks|
    ensures |t| == |Data(chunks, n)|
  {
    if n == 0 then [] else Tags(chunks, n - 1) + Same(chunks[n - 1].source, |chunks[n - 1].data|)
  }

  function Same(s: Source, n: nat): seq<Source> { seq(n, _ => s) }

  function All(chunks: seq<Chunk>): Bytes { Data(chunks, |chunks|) }

  function AllTags(chunks: seq<Chunk>): (t: seq<Source>)
    ensures |t| == |All(chunks)|
  {
    Tags(chunks, |chunks|)
  }

  lemma {:induction false} FrontIsSame(chunks: seq<Chunk>, c: Chunk, n: nat)
    requires n <= |chunks|
    ensures Data(chunks + [c], n) == Data(chunks, n) && Tags(chunks + [c], n) == Tags(chunks, n)
  {
    if n > 0 {
      FrontIsSame(chunks, c, n - 1);
    }
  }

  lemma OneMore(chunks: seq<Chunk>, c: Chunk)
    ensures All(chunks + [c]) == All(chunks) + c.data
    ensures AllTags(chunks + [c]) == AllTags(chunks) + Same(c.source, |c.data|)
  {
    FrontIsSame(chunks, c, |chunks|);
  }

  /** How many of n bytes the cap lets through; a cap of 0 is none. */
  function Allowed(max: nat, n: nat): nat { if max == 0 then n else Min(n, max) }

  predicate ChunksOk(chunks: seq<Chunk>) {
    forall i :: 0 <= i < |chunks| ==> 1 <= |chunks[i].data| <= MaxChunkBytes
  }

  /** The stream holds the first k bytes of what was written, rightly labelled. */
  predicate Holds(stream: seq<Chunk>, written: Bytes, tags: seq<Source>, k: nat) {
    && k <= |written| == |tags| && All(stream) == written[..k] && AllTags(stream) == tags[..k]
  }

  /** While nothing has failed: what the cap allows went out and the rest is counted. */
  predicate Counts(max: nat, written: Bytes, sent: nat, omitted: nat, lines: nat) {
    && sent == Allowed(max, |written|) && sent + omitted == |written|
    && lines == Newlines(written[sent..])
  }

  // ------------------------------------------------------------ one write

  /** What a write of n bytes may still send, `sent` bytes having gone out. */
  function Room(max: nat, sent: nat, n: nat): nat {
    if max == 0 then n else Min(n, max - Min(sent, max))
  }

  lemma AllowedGrows(max: nat, before: nat, n: nat)
    ensures Allowed(max, before + n) == Allowed(max, before) + Room(max, Allowed(max, before), n)
  {
  }

  lemma SplitAt<T>(w: seq<T>, p: seq<T>, n0: nat, k: nat)
    requires n0 <= |w| && k <= |p| && (k > 0 ==> n0 == |w|)
    ensures (w + p)[..n0 + k] == w[..n0] + p[..k] && (w + p)[n0 + k..] == w[n0..] + p[k..]
  {
  }

  lemma PieceGrows(base: Bytes, baseTags: seq<Source>, p: Bytes, i: nat, n: nat, source: Source)
    requires i + n <= |p|
    ensures base + p[..i] + p[i..i + n] == base + p[..i + n]
    ensures baseTags + Same(source, i) + Same(source, n) == baseTags + Same(source, i + n)
  {
  }

  /** `written` and `tags` are everything written so far, in the order the mutex let
      it in; the code keeps neither. A send fails when it is the failAt-th. */
  class OutputSink {
    const maxBytes: nat
    const failAt: int
    var stream: seq<Chunk>
    var sent: nat
    var omitted: nat
    var omittedLines: nat
    var failed: bool
    ghost var written: Bytes
    ghost var tags: seq<Source>

    constructor (maxBytes: nat, failAt: int)
      ensures this.maxBytes == maxBytes && this.failAt == failAt
      ensures Valid() && written == [] && tags == [] && stream == [] && !failed
    {
      this.maxBytes, this.failAt := maxBytes, failAt;
      stream, sent, omitted, omittedLines, failed := [], 0, 0, 0, false;
      written, tags := [], [];
    }

    /** Whether or not a send has failed, the stream holds a prefix of the output, in
        chunks of 1 to 32768 bytes; while none has, exactly what the cap allows, and
        what was dropped is counted. */
    ghost predicate Valid()
      reads this
    {
      && ChunksOk(stream) && |tags| == |written|
      && sent == |All(stream)| <= Allowed(maxBytes, |written|) && Holds(stream, written, tags, sent)
      && (!failed ==> Counts(maxBytes, written, sent, omitted, omittedLines))
    }

    /** The loop over what fits: p[..end] goes out in chunks until a send fails. */
    method SendChunks(source: Source, p: Bytes, end: nat) returns (ghost k: nat)
      requires end <= |p| && ChunksOk(stream) && sent == |All(stream)|
      modifies this`stream, this`sent, this`failed
      ensures k <= end && ChunksOk(stream) && sent == |All(stream)|
      ensures All(stream) == old(All(stream)) + p[..k] && AllTags(stream) == old(AllTags(stream)) + Same(source, k)
      ensures if old(failed) then failed && k == 0 && stream == old(stream) else !failed ==> k == end
      ensures failAt < 0 && !old(failed) ==> !failed
    {
      ghost var base, baseTags := All(stream), AllTags(stream);
      var i := 0;
      k := 0;
      assert base + p[..0] == base && baseTags + Same(source, 0) == baseTags;
      while i < end && !failed
        invariant k <= i <= end && ChunksOk(stream) && sent == |All(stream)|
        invariant All(stream) == base + p[..k] && AllTags(stream) == baseTags + Same(source, k)
        invariant if old(failed) then failed && k == 0 && stream == old(stream) else !failed ==> k == i
        invariant failAt < 0 && !old(failed) ==> !failed
        decreases end - i
      {
        var n := Min(end - i, MaxChunkBytes);
        var ok := Send(Chunk(source, p[i..i + n]));
        i := i + n;
        if ok {
          PieceGrows(base, baseTags, p, k, n, source);
          sent := sent + n;
          k := k + n;
        } else {
          failed := true;
        }
      }
    }

    /** sendResult: nothing follows a failed send, the terminal result included. */
    method SendResult() returns (ok: bool)
      ensures ok ==> !failed
      ensures failAt < 0 && !failed ==> ok
    {
      if failed {
        return false;
      }
      return |stream| != failAt;
    }

    method Send(chunk: Chunk) returns (ok: bool)
      modifies this`stream
      ensures !ok ==> stream == old(stream)
      ensures ok ==> stream == old(stream) + [chunk] && All(stream) == old(All(stream)) + chunk.data
                     && AllTags(stream) == old(AllTags(stream)) + Same(chunk.source, |chunk.data|)
      ensures failAt < 0 ==> ok
    {
      if |stream| == failAt {
        return false;
      }
      OneMore(stream, chunk);
      stream := stream + [chunk];
      return true;
    }

    /** What does not fit under the cap is counted, not kept. */
    method DropExcess(p: Bytes) returns (end: nat)
      modifies this`omitted, this`omittedLines
      ensures end == Room(maxBytes, sent, |p|) <= |p|
      ensures omitted == old(omitted) + |p| - end && omittedLines == old(omittedLines) + Newlines(p[end..])
    {
      end := |p|;
      if maxBytes > 0 {
        var room := maxBytes - Min(sent, maxBytes);
        if |p| > room {
          var dropped := p[room..];
          end := room;
          omitted := omitted + |dropped|;
          omittedLines := omittedLines + Newlines(dropped);
        }
      }
    }

    /** write: always reports the full length. */
    method Write(source: Source, p: Bytes) returns (n: nat)
      requires Valid()
      modifies this
      ensures Valid() && n == |p|
      ensures written == old(written) + p && tags == old(tags) + Same(source, |p|)
      ensures old(failed) ==> failed && stream == old(stream)
      ensures failAt < 0 && !old(failed) ==> !failed
    {
      if |p| == 0 {
        assert written + p == written && tags + Same(source, |p|) == tags;
        return 0;
      }
      ghost var stream0, n0, omitted0, lines0 := stream, sent, omitted, omittedLines;
      var end := DropExcess(p);
      ghost var k := SendChunks(source, p, end);
      HoldsMore(stream0, stream, written, tags, p, source, n0, k);
      SentFits(maxBytes, |written|, |p|, n0, k);
      if !failed {
        CountsMore(maxBytes, written, p, n0, end, omitted0, lines0);
      }
      written := written + p;
      tags := tags + Same(source, |p|);
      n := |p|;
    }
  }

  /** What truncation() reports. */
  datatype Truncation = Truncation(truncated: bool, bytesOmitted: nat, linesOmitted: nat)

  /** Any sequence of writes, whichever output each comes from, and the report after
      them. With no failure the chunks are, end to end and rightly labelled, the
      first maxBytes of the output (all of it without a cap), and what is missing is
      exactly what the report counts; with one they are still a prefix. */
  method RunWrites(maxBytes: nat, failAt: int, writes: seq<Write>) returns (chunks: seq<Chunk>, t: Truncation, failed: bool)
    ensures ChunksOk(chunks) && |All(chunks)| <= Allowed(maxBytes, |All(writes)|)
    ensures IsPrefix(All(chunks), All(writes)) && IsPrefix(AllTags(chunks), AllTags(writes))
    ensures !failed ==>
              && |All(chunks)| == Allowed(maxBytes, |All(writes)|)
              && |All(chunks)| + t.bytesOmitted == |All(writes)|
              && t.linesOmitted == Newlines(All(writes)[|All(chunks)|..])
              && t.truncated == (|All(chunks)| < |All(writes)|)
    ensures failAt < 0 ==> !failed
    ensures forall i :: 0 <= i < |chunks| ==> 1 <= |chunks[i].data| <= 32768
    ensures !failed && (maxBytes == 0 || |All(writes)| <= maxBytes) ==> All(chunks) == All(writes) && t == Truncation(false, 0, 0)
    ensures !failed && 0 < maxBytes < |All(writes)| ==> |All(chunks)| == maxBytes && t.truncated
  {
    var s := new OutputSink(maxBytes, failAt);
    for i := 0 to |writes|
      invariant s.Valid() && s.maxBytes == maxBytes && s.failAt == failAt && (failAt < 0 ==> !s.failed)
      invariant s.written == Data(writes, i) && s.tags == Tags(writes, i)
    {
      var n := s.Write(writes[i].source, writes[i].data);
    }
    chunks, failed := s.stream, s.failed;
    t := Truncation(s.omitted > 0, s.omitted, s.omittedLines);
  }

  lemma HoldsMore(stream: seq<Chunk>, stream': seq<Chunk>, w: Bytes, t: seq<Source>, p: Bytes, source: Source, n0: nat, k: nat)
    requires Holds(stream, w, t, n0) && k <= |p| && (k > 0 ==> n0 == |w|)
    requires All(stream') == All(stream) + p[..k] && AllTags(stream') == AllTags(stream) + Same(source, k)
    ensures Holds(stream', w + p, t + Same(source, |p|), n0 + k)
  {
    SplitAt(w, p, n0, k);
    SplitAt(t, Same(source, |p|), n0, k);
    assert Same(source, |p|)[..k] == Same(source, k);
  }

  lemma SentFits(max: nat, before: nat, n: nat, n0: nat, k: nat)
    requires n0 <= Allowed(max, before) && k <= Room(max, n0, n) && (k > 0 ==> n0 == before)
    ensures n0 + k <= Allowed(max, before + n)
  {
  }

  lemma CountsMore(max: nat, w: Bytes, p: Bytes, n0: nat, end: nat, omitted: nat, lines: nat)
    requires n0 <= |w| && Counts(max, w, n0, omitted, lines) && end == Room(max, n0, |p|)
    ensures end <= |p| && Counts(max, w + p, n0 + end, omitted + |p| - end, lines + Newlines(p[end..]))
  {
    AllowedGrows(max, |w|, |p|);
    Dropped(w, p, n0, end);
  }

  lemma Dropped(w: Bytes, p: Bytes, n0: nat, end: nat)
    requires n0 <= |w| && end <= |p| && (end > 0 ==> n0 == |w|)
    ensures Newlines((w + p)[n0 + end..]) == Newlines(w[n0..]) + Newlines(p[end..])
  {
    SplitAt(w, p, n0, end);
    NewlinesConcat(w[n0..], p[end..]);
  }
}
