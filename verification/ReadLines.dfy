/** internal/agent/fs/read.go: readLines, over every way the reads can split the
    file. The file does not change while it is read.
  */
module ReadLines {
  import opened Optional
  import opened Bytes
  import opened Lines

  const Word: nat := 0x1_0000_0000_0000_0000

  // ------------------------------------------------------ what is wanted

  /** The line the byte at p belongs to, counting from one. */
  function LineAt(c: Bytes, p: nat): nat
    requires p <= |c|
  {
    NewlinesIn(c, 0, p) + 1
  }

  /** The bytes of c[..p] that lie on lines first to last. */
  function WindowTo(c: Bytes, first: nat, last: nat, p: nat): Bytes
    requires p <= |c|
  {
    if p == 0 then []
    else WindowTo(c, first, last, p - 1) + (if first <= LineAt(c, p - 1) <= last then [c[p - 1]] else [])
  }

  function Window(c: Bytes, first: nat, last: nat): Bytes { WindowTo(c, first, last, |c|) }

  /** How many bytes of c[..p] lie on lines before `first`. */
  function SkippedTo(c: Bytes, first: nat, p: nat): nat
    requires p <= |c|
  {
    if p == 0 then 0 else SkippedTo(c, first, p - 1) + (if LineAt(c, p - 1) < first then 1 else 0)
  }

  function Concat(chunks: seq<Bytes>): Bytes {
    if chunks == [] then [] else Concat(chunks[..|chunks| - 1]) + chunks[|chunks| - 1]
  }

  /** Bytes on one line: none but the last is a newline. */
  predicate OnOneLine(c: Bytes, p: nat, q: nat) {
    p < q <= |c| && forall k :: p <= k < q - 1 ==> c[k] != LF
  }

  lemma {:induction false} SegmentTo(c: Bytes, first: nat, last: nat, p: nat, q: nat, k: nat)
    requires OnOneLine(c, p, q) && p <= k <= q
    ensures k < q ==> LineAt(c, k) == LineAt(c, p)
    ensures WindowTo(c, first, last, k) == WindowTo(c, first, last, p) + (if first <= LineAt(c, p) <= last then c[p..k] else [])
    ensures SkippedTo(c, first, k) == SkippedTo(c, first, p) + (if LineAt(c, p) < first then k - p else 0)
    decreases k
  {
    if p < k {
      SegmentTo(c, first, last, p, q, k - 1);
      assert c[p..k] == c[p..k - 1] + [c[k - 1]];
      Assoc(WindowTo(c, first, last, p), c[p..k - 1], [c[k - 1]]);
    }
  }

  /** The window is one stretch of the file, right behind the lines it skips. */
  lemma {:induction false} WindowIsAStretch(c: Bytes, first: nat, last: nat, p: nat)
    requires p <= |c|
    ensures var s, w := SkippedTo(c, first, p), WindowTo(c, first, last, p);
            && s + |w| <= p && w == c[s..s + |w|]
            && (LineAt(c, p) < first ==> s == p)
            && (first <= LineAt(c, p) <= last ==> s + |w| == p)
  {
    if p > 0 {
      WindowIsAStretch(c, first, last, p - 1);
      var s, w := SkippedTo(c, first, p - 1), WindowTo(c, first, last, p - 1);
      if first <= LineAt(c, p - 1) <= last {
        assert c[s..s + |w| + 1] == c[s..s + |w|] + [c[p - 1]];
      }
    }
  }

  // ------------------------------------------------------ what is sent

  /** The emit and flush closures and the variables they share. A send fails when
      it is the failAt-th. */
  class Emitter {
    const maxBytes: nat
    const chunkBytes: nat
    const failAt: int
    var chunks: seq<Bytes>
    var out: Bytes
    var sentBytes: nat
    var consumed: nat
    var capped: bool

    constructor (maxBytes: nat, chunkBytes: nat, failAt: int)
      requires chunkBytes > 0
      ensures Valid() && Sent() == [] && chunks == [] && !capped
      ensures this.maxBytes == maxBytes && this.chunkBytes == chunkBytes && this.failAt == failAt
    {
      this.maxBytes, this.chunkBytes, this.failAt := maxBytes, chunkBytes, failAt;
      chunks, out, sentBytes, consumed, capped := [], [], 0, 0, false;
    }

    /** Everything emitted: what the stream has and what is still in hand. */
    ghost function Sent(): Bytes
      reads this
    {
      Concat(chunks) + out
    }

    ghost predicate Valid()
      reads this
    {
      && chunkBytes > 0 && |out| < chunkBytes && sentBytes == |Sent()|
      && forall i :: 0 <= i < |chunks| ==> 0 < |chunks[i]| < 2 * chunkBytes
    }

    method Flush() returns (ok: bool)
      requires |out| < 2 * chunkBytes
      requires forall i :: 0 <= i < |chunks| ==> 0 < |chunks[i]| < 2 * chunkBytes
      modifies this`chunks, this`out
      ensures Sent() == old(Sent())
      ensures ok ==> out == []
      ensures failAt < 0 ==> ok
      ensures !ok ==> chunks == old(chunks)
      ensures forall i :: 0 <= i < |chunks| ==> 0 < |chunks[i]| < 2 * chunkBytes
    {
      if |out| == 0 {
        return true;
      }
      if |chunks| == failAt {
        return false;
      }
      assert (chunks + [out])[..|chunks|] == chunks;
      assert Concat(chunks) + out == Concat(chunks) + out + [];
      chunks := chunks + [out];
      out := [];
      return true;
    }

    method Emit(seg: Bytes, offset: nat) returns (ok: bool)
      requires Valid() && 0 < |seg| <= chunkBytes && !capped && sentBytes <= maxBytes
      modifies this
      ensures ok ==> Valid()
      ensures failAt < 0 ==> ok
      ensures Sent() == old(Sent()) + Take(seg, maxBytes - old(sentBytes))
      ensures forall i :: 0 <= i < |chunks| ==> 0 < |chunks[i]| < 2 * chunkBytes
      ensures sentBytes == |Sent()|
      ensures consumed == if old(sentBytes) >= maxBytes then old(consumed) else offset + sentBytes - old(sentBytes)
      ensures capped == (old(sentBytes) + |seg| > maxBytes)
    {
      if sentBytes >= maxBytes {
        capped := true;
        assert Sent() + [] == Sent();
        return true;
      }
      var room := maxBytes - sentBytes;
      var part := seg;
      if |seg| > room {
        part, capped := seg[..room], true;
      }
      Assoc(Concat(chunks), out, part);
      out := out + part;
      sentBytes := sentBytes + |part|;
      consumed := offset + |part|;
      ok := true;
      if |out| >= chunkBytes {
        ok := Flush();
      }
    }
  }

  // ------------------------------------------------------- the accounting

  /** The loop's variables, having read the first p bytes. */
  predicate Counts(c: Bytes, p: nat, total: nat, curLine: nat, openLine: bool) {
    && p <= |c| && total == NewlinesIn(c, 0, p) && curLine == total + 1
    && openLine == (p > 0 && c[p - 1] != LF)
  }

  /** What has been emitted, and the lines it counts as. A line emitted in part
      and still open counts when its end is read. */
  ghost predicate Accounts(c: Bytes, first: nat, last: nat, max: nat, p: nat, sent: Bytes, consumed: nat,
                           capped: bool, emitted: nat, lineEmitted: bool)
  {
    && p <= |c| && sent == Take(WindowTo(c, first, last, p), max)
    && capped == (|WindowTo(c, first, last, p)| > max)
    && (sent != [] ==> consumed == SkippedTo(c, first, p) + |sent|)
    && emitted + (if lineEmitted then 1 else 0) == LineCount(sent)
    && (lineEmitted ==> p > 0 && c[p - 1] != LF && !Closed(sent) && first <= LineAt(c, p) <= last)
    && (!capped && !lineEmitted ==> Closed(sent))
  }

  lemma PartOfALine(x: Bytes)
    requires x != [] && forall k :: 0 <= k < |x| - 1 ==> x[k] != LF
    ensures LineCount(x) == 1
  {
    NoNewlines(x, 0, |x| - 1);
  }

  lemma CountSegment(c: Bytes, p: nat, q: nat, total: nat, curLine: nat, openLine: bool)
    requires Counts(c, p, total, curLine, openLine) && OnOneLine(c, p, q)
    ensures var ends := c[q - 1] == LF;
            Counts(c, q, if ends then total + 1 else total, if ends then curLine + 1 else curLine, !ends)
  {
    NewlinesSplit(c, 0, p, q);
    NoNewlines(c, p, q - 1);
  }

  /** A segment outside the window, or after the cap, changes nothing. */
  lemma PassSegment(c: Bytes, first: nat, last: nat, max: nat, p: nat, q: nat, sent: Bytes, consumed: nat,
                    capped: bool, emitted: nat, lineEmitted: bool)
    requires Accounts(c, first, last, max, p, sent, consumed, capped, emitted, lineEmitted) && OnOneLine(c, p, q)
    requires capped || !(first <= LineAt(c, p) <= last)
    ensures var ends := c[q - 1] == LF;
            Accounts(c, first, last, max, q, sent, consumed, capped,
                     if ends && lineEmitted then emitted + 1 else emitted, lineEmitted && !ends)
  {
    var w, seg := WindowTo(c, first, last, p), c[p..q];
    SegmentTo(c, first, last, p, q, q);
    WindowIsAStretch(c, first, last, p);
    NewlinesSplit(c, 0, p, q);
    NoNewlines(c, p, q - 1);
    if first <= LineAt(c, p) <= last {
      assert (w + seg)[..max] == w[..max];
    } else {
      assert w + [] == w;
    }
  }

  lemma TakeMore(w: Bytes, seg: Bytes, max: nat)
    requires |w| <= max
    ensures Take(w + seg, max) == w + Take(seg, max - |w|)
  {
  }

  /** Emitting part of a line adds a line unless it continues one. */
  lemma EmitLines(sent: Bytes, part: Bytes)
    requires forall k :: 0 <= k < |part| - 1 ==> part[k] != LF
    ensures LineCount(sent + part) == LineCount(sent) + (if part != [] && Closed(sent) then 1 else 0)
    ensures part != [] ==> (Closed(sent + part) <==> part[|part| - 1] == LF)
  {
    LineCountJoins(sent, part);
    if part == [] {
      assert sent + part == sent;
    } else {
      PartOfALine(part);
      assert (sent + part)[|sent + part| - 1] == part[|part| - 1];
    }
  }

  lemma EmitBytes(c: Bytes, first: nat, last: nat, max: nat, p: nat, q: nat, sent: Bytes)
    requires OnOneLine(c, p, q) && first <= LineAt(c, p) <= last
    requires sent == WindowTo(c, first, last, p) && |sent| <= max
    ensures Take(WindowTo(c, first, last, q), max) == sent + Take(c[p..q], max - |sent|)
    ensures |WindowTo(c, first, last, q)| == |sent| + (q - p)
    ensures SkippedTo(c, first, q) == SkippedTo(c, first, p) && SkippedTo(c, first, p) + |sent| == p
  {
    SegmentTo(c, first, last, p, q, q);
    WindowIsAStretch(c, first, last, p);
    TakeMore(sent, c[p..q], max);
  }

  lemma OpenStays(c: Bytes, p: nat, q: nat)
    requires OnOneLine(c, p, q) && c[q - 1] != LF
    ensures LineAt(c, q) == LineAt(c, p)
  {
    NewlinesSplit(c, 0, p, q);
    NoNewlines(c, p, q);
  }

  lemma PartOfSegment(c: Bytes, p: nat, q: nat, n: nat)
    requires OnOneLine(c, p, q)
    ensures var part := Take(c[p..q], n);
            && part == c[p..p + |part|] && (forall k :: 0 <= k < |part| - 1 ==> part[k] != LF)
            && (part != [] ==> part[|part| - 1] == c[p + |part| - 1])
  {
    var part := Take(c[p..q], n);
    assert part == c[p..p + |part|];
    assert forall k :: 0 <= k < |part| ==> part[k] == c[p + k];
  }

  /** A segment inside the window is emitted as far as there is room. */
  lemma EmitSegment(c: Bytes, first: nat, last: nat, max: nat, p: nat, q: nat, sent: Bytes, consumed: nat,
                    emitted: nat, was: bool, sent': Bytes, consumed': nat, capped': bool, lineEmitted: bool)
    requires Accounts(c, first, last, max, p, sent, consumed, false, emitted, was) && OnOneLine(c, p, q)
    requires first <= LineAt(c, p) <= last
    requires sent' == sent + Take(c[p..q], max - |sent|)
    requires consumed' == if |sent| >= max then consumed else p + |sent'| - |sent|
    requires capped' == (|sent| + (q - p) > max)
    requires lineEmitted == (was || |sent'| > |sent|)
    ensures var ends := c[q - 1] == LF;
            Accounts(c, first, last, max, q, sent', consumed', capped',
                     if ends && lineEmitted then emitted + 1 else emitted, lineEmitted && !ends)
  {
    var part := Take(c[p..q], max - |sent|);
    PartOfSegment(c, p, q, max - |sent|);
    EmitBytes(c, first, last, max, p, q, sent);
    EmitLines(sent, part);
    if c[q - 1] != LF {
      OpenStays(c, p, q);
    }
    if part == [] {
      assert sent' == sent;
    }
  }

  // ----------------------------------------------------------- the method

  datatype Request = Request(offsetLines: nat, limitLines: nat)

  datatype Limits = Limits(chunkBytes: nat, defaultReadLines: nat, lineCountLimit: int)

  datatype Answer = Answer(linesReturned: nat, totalLines: nat, exact: bool,
                           truncated: bool, bytesOmitted: nat, linesOmitted: nat)

  function Start(req: Request): nat { if req.offsetLines > 1 then req.offsetLines else 1 }

  function Limit(req: Request, lim: Limits): nat { if req.limitLines == 0 then lim.defaultReadLines else req.limitLines }

  /** The last line wanted, in the code's 64-bit arithmetic. */
  function End(req: Request, lim: Limits): nat { (Start(req) + Limit(req, lim) - 1) % Word }

  /** bytes.IndexByte on the data c[p..to), and the segment c[p..q) it delimits. */
  method NextSegment(c: Bytes, p: nat, to: nat) returns (q: nat, terminated: bool)
    requires p < to <= |c|
    ensures q <= to && OnOneLine(c, p, q) && terminated == (c[q - 1] == LF)
    ensures !terminated ==> q == to
  {
    q := p;
    while q < to
      invariant p <= q <= to && forall k :: p <= k < q ==> c[k] != LF
    {
      if c[q] == LF {
        return q + 1, true;
      }
      q := q + 1;
    }
    return q, false;
  }

  /** How much the i-th read returns: any amount that is there and fits. */
  function ReadSize(sizes: seq<nat>, i: nat, room: nat): (n: nat)
    ensures n <= room && (room > 0 ==> n > 0)
  {
    if i >= |sizes| || sizes[i] > room || (sizes[i] == 0 && room > 0) then room else sizes[i]
  }

  /** The loop's own variables. */
  datatype Vars = Vars(offset: nat, curLine: nat, totalLines: nat, emitted: nat, openLine: bool, lineEmitted: bool)

  ghost predicate Tracks(c: Bytes, first: nat, last: nat, v: Vars, e: Emitter)
    reads e
  {
    && Counts(c, v.offset, v.totalLines, v.curLine, v.openLine)
    && Accounts(c, first, last, e.maxBytes, v.offset, e.Sent(), e.consumed, e.capped, v.emitted, v.lineEmitted)
    && e.sentBytes == |e.Sent()|
  }

  /** What holds even when a send has just failed. */
  ghost predicate Partial(c: Bytes, first: nat, last: nat, p: nat, e: Emitter)
    reads e
  {
    && p <= |c| && e.Sent() == Take(WindowTo(c, first, last, p), e.maxBytes)
    && forall i :: 0 <= i < |e.chunks| ==> 0 < |e.chunks[i]| < 2 * e.chunkBytes
  }

  /** The accounts after the segment up to q, whether or not any of it was emitted. */
  ghost predicate After(c: Bytes, first: nat, last: nat, e: Emitter, v: Vars, q: nat, lineEmitted: bool)
    requires 0 < q <= |c|
    reads e
  {
    var ends := c[q - 1] == LF;
    && e.sentBytes == |e.Sent()|
    && Accounts(c, first, last, e.maxBytes, q, e.Sent(), e.consumed, e.capped,
                if ends && lineEmitted then v.emitted + 1 else v.emitted, lineEmitted && !ends)
  }

  lemma EmittedAfter(c: Bytes, first: nat, last: nat, e: Emitter, v: Vars, q: nat, sent: Bytes, consumed: nat, lineEmitted: bool)
    requires Accounts(c, first, last, e.maxBytes, v.offset, sent, consumed, false, v.emitted, v.lineEmitted)
    requires OnOneLine(c, v.offset, q) && first <= LineAt(c, v.offset) <= last
    requires e.Sent() == sent + Take(c[v.offset..q], e.maxBytes - |sent|) && e.sentBytes == |e.Sent()|
    requires e.consumed == if |sent| >= e.maxBytes then consumed else v.offset + |e.Sent()| - |sent|
    requires e.capped == (|sent| + (q - v.offset) > e.maxBytes) && lineEmitted == (v.lineEmitted || |e.Sent()| > |sent|)
    ensures After(c, first, last, e, v, q, lineEmitted)
  {
    EmitSegment(c, first, last, e.maxBytes, v.offset, q, sent, consumed, v.emitted, v.lineEmitted,
                e.Sent(), e.consumed, e.capped, lineEmitted);
  }

  lemma PassedAfter(c: Bytes, first: nat, last: nat, e: Emitter, v: Vars, q: nat)
    requires Tracks(c, first, last, v, e) && OnOneLine(c, v.offset, q)
    requires e.capped || !(first <= v.curLine <= last)
    ensures After(c, first, last, e, v, q, v.lineEmitted)
  {
    PassSegment(c, first, last, e.maxBytes, v.offset, q, e.Sent(), e.consumed, e.capped, v.emitted, v.lineEmitted);
  }

  /** The first half of a turn: emit the segment if its line is wanted. */
  method Offer(c: Bytes, first: nat, last: nat, e: Emitter, v: Vars, q: nat)
    returns (ok: bool, lineEmitted: bool)
    requires e.Valid() && Tracks(c, first, last, v, e)
    requires OnOneLine(c, v.offset, q) && q - v.offset <= e.chunkBytes
    modifies e
    ensures (ok ==> e.Valid()) && (e.failAt < 0 ==> ok)
    ensures forall i :: 0 <= i < |e.chunks| ==> 0 < |e.chunks[i]| < 2 * e.chunkBytes
    ensures After(c, first, last, e, v, q, lineEmitted)
  {
    lineEmitted, ok := v.lineEmitted, true;
    if v.curLine >= first && v.curLine <= last && !e.capped {
      ghost var sent, consumed := e.Sent(), e.consumed;
      var sentBefore := e.sentBytes;
      ok := e.Emit(c[v.offset..q], v.offset);
      lineEmitted := lineEmitted || e.sentBytes > sentBefore;
      EmittedAfter(c, first, last, e, v, q, sent, consumed, lineEmitted);
    } else {
      PassedAfter(c, first, last, e, v, q);
    }
  }

  /** The loop's variables one segment on. */
  function NextVars(v: Vars, q: nat, ends: bool, lineEmitted: bool): Vars {
    Vars(q, if ends then v.curLine + 1 else v.curLine, if ends then v.totalLines + 1 else v.totalLines,
         if ends && lineEmitted then v.emitted + 1 else v.emitted, !ends, lineEmitted && !ends)
  }

  lemma AfterIsTracked(c: Bytes, first: nat, last: nat, e: Emitter, v: Vars, q: nat, lineEmitted: bool)
    requires OnOneLine(c, v.offset, q) && After(c, first, last, e, v, q, lineEmitted)
    requires Counts(c, v.offset, v.totalLines, v.curLine, v.openLine)
    ensures Tracks(c, first, last, NextVars(v, q, c[q - 1] == LF, lineEmitted), e)
  {
    CountSegment(c, v.offset, q, v.totalLines, v.curLine, v.openLine);
  }

  /** One turn of the inner loop. */
  method TakeSegment(c: Bytes, first: nat, last: nat, e: Emitter, v: Vars, q: nat, terminated: bool)
    returns (ok: bool, v': Vars)
    requires e.Valid() && Tracks(c, first, last, v, e)
    requires OnOneLine(c, v.offset, q) && q - v.offset <= e.chunkBytes && terminated == (c[q - 1] == LF)
    modifies e
    ensures (ok ==> e.Valid()) && (e.failAt < 0 ==> ok)
    ensures forall i :: 0 <= i < |e.chunks| ==> 0 < |e.chunks[i]| < 2 * e.chunkBytes
    ensures Tracks(c, first, last, v', e)
    ensures v'.offset == q && v'.curLine == (if terminated then v.curLine + 1 else v.curLine) && v'.openLine == !terminated
  {
    var lineEmitted;
    ok, lineEmitted := Offer(c, first, last, e, v, q);
    AfterIsTracked(c, first, last, e, v, q, lineEmitted);
    if terminated {
      v' := Vars(q, v.curLine + 1, v.totalLines + 1, if lineEmitted then v.emitted + 1 else v.emitted, false, false);
    } else {
      v' := Vars(q, v.curLine, v.totalLines, v.emitted, true, lineEmitted);
    }
    assert v' == NextVars(v, q, terminated, lineEmitted);
  }

  /** One read's worth of segments: the data is c[v.offset..to). */
  method TakeData(c: Bytes, first: nat, last: nat, countToEOF: bool, e: Emitter, v: Vars, to: nat)
    returns (ok: bool, v': Vars, done: bool)
    requires e.Valid() && Tracks(c, first, last, v, e) && v.offset < to <= |c| && to - v.offset <= e.chunkBytes
    requires !countToEOF ==> v.curLine <= last || first > last
    modifies e
    ensures forall i :: 0 <= i < |e.chunks| ==> 0 < |e.chunks[i]| < 2 * e.chunkBytes
    ensures Tracks(c, first, last, v', e) && (e.failAt < 0 ==> ok)
    ensures ok ==> e.Valid() && v.offset < v'.offset
    ensures ok && !countToEOF && !done ==> v'.curLine <= last || first > last
    ensures ok && done ==> !countToEOF && (first <= last ==> v'.curLine == last + 1 && !v'.openLine)
  {
    ok, v', done := true, v, false;
    while v'.offset < to
      invariant ok && !done && e.Valid() && Tracks(c, first, last, v', e)
      invariant v.offset <= v'.offset <= to
      invariant !countToEOF ==> v'.curLine <= last || first > last
    {
      var q, terminated := NextSegment(c, v'.offset, to);
      ok, v' := TakeSegment(c, first, last, e, v', q, terminated);
      if !ok {
        return;
      }
      if v'.curLine > last && !countToEOF {
        return true, v', true;
      }
    }
  }

  // -------------------------------------------------------- what it answers

  /** What the loop has done when it stops: read to the end of the file, or just
      past the window's last line. */
  ghost predicate Stopped(c: Bytes, last: nat, countToEOF: bool, p: nat) {
    p == |c| || (0 < p < |c| && !countToEOF && LineAt(c, p) == last + 1 && c[p - 1] == LF)
  }

  lemma {:induction false} SkippedIsFixed(c: Bytes, first: nat, p: nat, q: nat)
    requires p <= q <= |c| && first <= LineAt(c, p)
    ensures SkippedTo(c, first, q) == SkippedTo(c, first, p)
    decreases q
  {
    if p < q {
      SkippedIsFixed(c, first, p, q - 1);
      NewlinesSplit(c, 0, p, q - 1);
    }
  }

  lemma {:induction false} NothingPastTheWindow(c: Bytes, first: nat, last: nat, p: nat, q: nat)
    requires p <= q <= |c| && last < LineAt(c, p)
    ensures WindowTo(c, first, last, q) == WindowTo(c, first, last, p)
    decreases q
  {
    if p < q {
      NothingPastTheWindow(c, first, last, p, q - 1);
      NewlinesSplit(c, 0, p, q - 1);
    }
  }

  /** Wherever the loop stopped, it has seen the whole window. */
  lemma StoppedHasAll(c: Bytes, first: nat, last: nat, countToEOF: bool, p: nat)
    requires p <= |c| && Stopped(c, last, countToEOF, p) && first <= last
    ensures WindowTo(c, first, last, p) == Window(c, first, last)
    ensures SkippedTo(c, first, p) == SkippedTo(c, first, |c|)
  {
    if p < |c| {
      NothingPastTheWindow(c, first, last, p, |c|);
      SkippedIsFixed(c, first, p, |c|);
    }
  }

  /** The count reported: exact when the file was read through, and otherwise as
      many lines as the read had to pass. */
  lemma CountedLines(c: Bytes, last: nat, countToEOF: bool, p: nat, total: nat, curLine: nat, openLine: bool)
    requires Counts(c, p, total, curLine, openLine) && Stopped(c, last, countToEOF, p)
    requires !countToEOF ==> curLine <= last + 1 && (openLine ==> curLine <= last)
    ensures var n := if openLine then total + 1 else total;
            n == if countToEOF then LineCount(c) else if LineCount(c) < last then LineCount(c) else last
  {
    NewlinesSplit(c, 0, p, |c|);
  }

  lemma {:induction false} WindowStarts(c: Bytes, first: nat, last: nat, p: nat)
    requires p <= |c| && first >= 1 && WindowTo(c, first, last, p) != []
    ensures SkippedTo(c, first, p) <= |c| && NewlinesIn(c, 0, SkippedTo(c, first, p)) == first - 1
  {
    WindowIsAStretch(c, first, last, p);
    WindowIsAStretch(c, first, last, p - 1);
    if WindowTo(c, first, last, p - 1) != [] {
      WindowStarts(c, first, last, p - 1);
    } else if p >= 2 {
      WindowIsAStretch(c, first, last, p - 2);
    }
  }

  lemma {:induction false} WindowEnds(c: Bytes, first: nat, last: nat, p: nat)
    requires p <= |c| && WindowTo(c, first, last, p) != []
    ensures var t := SkippedTo(c, first, p) + |WindowTo(c, first, last, p)|;
            0 < t <= p && LineAt(c, t - 1) <= last && (t < p ==> last < LineAt(c, t))
  {
    WindowIsAStretch(c, first, last, p);
    WindowIsAStretch(c, first, last, p - 1);
    if WindowTo(c, first, last, p - 1) != [] {
      WindowEnds(c, first, last, p - 1);
    }
  }

  // ------------------------------------------------------------ readLines

  predicate Fits(req: Request, lim: Limits) { Start(req) + Limit(req, lim) - 1 < Word }

  /** readLines, given how the reads split the file and which send or read fails.
      `chunks` is what the stream got, whether or not the call succeeds. */
  method Read(c: Bytes, req: Request, lim: Limits, maxBytes: nat, sizes: seq<nat>, sendFails: int, readFails: int)
    returns (r: Option<Answer>, chunks: seq<Bytes>)
    requires lim.chunkBytes > 0 && lim.defaultReadLines > 0
    requires Start(req) < Word && Limit(req, lim) < Word
    ensures forall i :: 0 <= i < |chunks| ==> 0 < |chunks[i]| < 2 * lim.chunkBytes
    ensures IsPrefix(Concat(chunks), Take(Window(c, Start(req), End(req, lim)), maxBytes))
    ensures r.Some? && Fits(req, lim) ==>
              AnswerOk(c, Start(req), End(req, lim), maxBytes, |c| <= lim.lineCountLimit, Concat(chunks), r.value)
    ensures sendFails < 0 && readFails < 0 ==> r.Some?
  {
    r, chunks := ReadFrom(c, Start(req), End(req, lim), |c| <= lim.lineCountLimit, maxBytes, lim.chunkBytes,
                          sizes, sendFails, readFails);
  }

  method ReadFrom(c: Bytes, start: nat, end: nat, countToEOF: bool, maxBytes: nat, chunkBytes: nat, sizes: seq<nat>,
                  sendFails: int, readFails: int)
    returns (r: Option<Answer>, chunks: seq<Bytes>)
    requires chunkBytes > 0 && start >= 1
    ensures forall i :: 0 <= i < |chunks| ==> 0 < |chunks[i]| < 2 * chunkBytes
    ensures IsPrefix(Concat(chunks), Take(Window(c, start, end), maxBytes))
    ensures r.Some? && start <= end ==> AnswerOk(c, start, end, maxBytes, countToEOF, Concat(chunks), r.value)
    ensures sendFails < 0 && readFails < 0 ==> r.Some?
  {
    var e := new Emitter(maxBytes, chunkBytes, sendFails);
    var v := Vars(0, 1, 0, 0, false, false);
    var i, done := 0, false;
    while !done
      invariant e.Valid() && Tracks(c, start, end, v, e) && Partial(c, start, end, v.offset, e)
      invariant !countToEOF && !done ==> v.curLine <= end || start > end
      invariant done && start <= end ==> Stopped(c, end, countToEOF, v.offset)
      invariant !countToEOF && start <= end ==> v.curLine <= end + 1 && (v.openLine ==> v.curLine <= end)
      decreases |c| - v.offset, if done then 0 else 1
    {
      if i == readFails {
        PartialIsPrefix(c, start, end, v.offset, e);
        return None, e.chunks;
      }
      var n := ReadSize(sizes, i, if |c| - v.offset < chunkBytes then |c| - v.offset else chunkBytes);
      i := i + 1;
      if n == 0 {
        break;
      }
      var ok;
      ok, v, done := TakeData(c, start, end, countToEOF, e, v, v.offset + n);
      if !ok {
        PartialIsPrefix(c, start, end, v.offset, e);
        return None, e.chunks;
      }
    }
    r := Finish(c, start, end, countToEOF, e, v);
    chunks := e.chunks;
  }

  /** The final flush and the answer. */
  method Finish(c: Bytes, first: nat, last: nat, countToEOF: bool, e: Emitter, v: Vars) returns (r: Option<Answer>)
    requires e.Valid() && Tracks(c, first, last, v, e) && Partial(c, first, last, v.offset, e) && first >= 1
    requires first <= last ==> Stopped(c, last, countToEOF, v.offset)
    requires first <= last && !countToEOF ==> v.curLine <= last + 1 && (v.openLine ==> v.curLine <= last)
    modifies e
    ensures forall i :: 0 <= i < |e.chunks| ==> 0 < |e.chunks[i]| < 2 * e.chunkBytes
    ensures IsPrefix(Concat(e.chunks), Take(Window(c, first, last), e.maxBytes))
    ensures r.Some? && first <= last ==> AnswerOk(c, first, last, e.maxBytes, countToEOF, Concat(e.chunks), r.value)
    ensures e.failAt < 0 ==> r.Some?
  {
    ghost var sent := e.Sent();
    var ok := e.Flush();
    PartialIsPrefix(c, first, last, v.offset, e);
    if !ok {
      return None;
    }
    assert Concat(e.chunks) + [] == Concat(e.chunks) && Concat(e.chunks) == sent;
    var a := Conclude(c, first, last, e.maxBytes, |c|, countToEOF, Concat(e.chunks), e.consumed, e.capped, v);
    r := Some(a);
  }

  lemma {:induction false} WindowGrows(c: Bytes, first: nat, last: nat, p: nat, q: nat)
    requires p <= q <= |c|
    ensures IsPrefix(WindowTo(c, first, last, p), WindowTo(c, first, last, q))
    decreases q
  {
    if p < q {
      WindowGrows(c, first, last, p, q - 1);
    }
  }

  lemma TakePrefix(a: Bytes, b: Bytes, n: nat)
    requires IsPrefix(a, b)
    ensures IsPrefix(Take(a, n), Take(b, n))
  {
  }

  lemma PartialIsPrefix(c: Bytes, first: nat, last: nat, p: nat, e: Emitter)
    requires Partial(c, first, last, p, e)
    ensures IsPrefix(Concat(e.chunks), Take(Window(c, first, last), e.maxBytes))
  {
    WindowGrows(c, first, last, p, |c|);
    TakePrefix(WindowTo(c, first, last, p), Window(c, first, last), e.maxBytes);
    assert IsPrefix(Concat(e.chunks), e.Sent());
  }

  lemma LinesIffBytes(x: Bytes)
    ensures LineCount(x) > 0 <==> x != []
  {
  }

  /** A window that stops short of the end of the file leaves lines unread. */
  lemma LinesRemain(c: Bytes, first: nat, last: nat)
    requires first >= 1 && Window(c, first, last) != []
    ensures var w := Window(c, first, last); var t := SkippedTo(c, first, |c|) + |w|;
            t <= |c| && (t < |c| ==> LineCount(c) > first - 1 + LineCount(w))
  {
    var s, w := SkippedTo(c, first, |c|), Window(c, first, last);
    var t := s + |w|;
    WindowIsAStretch(c, first, last, |c|);
    WindowStarts(c, first, last, |c|);
    WindowEnds(c, first, last, |c|);
    if t < |c| {
      assert c[t - 1] == LF && w[|w| - 1] == c[t - 1];
      NewlinesOfSlice(c, s, t);
      NewlinesSplit(c, 0, s, t);
      NewlinesSplit(c, 0, t, |c|);
      LinesIffBytes(c[t..|c|]);
      NewlinesOfSlice(c, t, |c|);
    }
  }

  /** The answer, measured against the file and what was sent. */
  ghost predicate AnswerOk(c: Bytes, first: nat, last: nat, max: nat, countToEOF: bool, sent: Bytes, a: Answer) {
    var s := SkippedTo(c, first, |c|);
    var n := LineCount(c);
    && sent == Take(Window(c, first, last), max)
    && a.linesReturned == LineCount(sent)
    && a.exact == countToEOF && a.totalLines == (if countToEOF || n < last then n else last)
    && (sent != [] ==> a.truncated == (s + |sent| < |c|))
    && (sent == [] ==> a.truncated == (Window(c, first, last) != []))
    && (sent != [] ==> a.bytesOmitted == |c| - s - |sent|)
    && a.linesOmitted == (if countToEOF && sent != [] && n > first - 1 + LineCount(sent) then n - (first - 1 + LineCount(sent)) else 0)
  }

  /** The lines after the loop. */
  method Conclude(ghost c: Bytes, first: nat, last: nat, ghost max: nat, size: nat, countToEOF: bool,
                  ghost sent: Bytes, consumed: nat, capped: bool, v: Vars)
    returns (a: Answer)
    requires 1 <= first && size == |c|
    requires Counts(c, v.offset, v.totalLines, v.curLine, v.openLine)
    requires first <= last ==> Stopped(c, last, countToEOF, v.offset)
    requires first <= last && !countToEOF ==> v.curLine <= last + 1 && (v.openLine ==> v.curLine <= last)
    requires Accounts(c, first, last, max, v.offset, sent, consumed, capped, v.emitted, v.lineEmitted)
    ensures first <= last ==> AnswerOk(c, first, last, max, countToEOF, sent, a)
  {
    if first <= last {
      StoppedHasAll(c, first, last, countToEOF, v.offset);
      CountedLines(c, last, countToEOF, v.offset, v.totalLines, v.curLine, v.openLine);
    }
    LinesIffBytes(sent);
    var totalLines, emitted := v.totalLines, v.emitted;
    if v.openLine {
      totalLines := totalLines + 1;
      if v.lineEmitted {
        emitted := emitted + 1;
      }
    }
    assert emitted == LineCount(sent);
    var lastLine := first + emitted - 1;
    var linesOmitted := 0;
    if countToEOF && totalLines > lastLine && emitted > 0 {
      linesOmitted := totalLines - lastLine;
    }
    var bytesOmitted, truncated := 0, capped;
    if consumed < size && emitted > 0 {
      bytesOmitted := size - consumed;
      truncated := truncated || linesOmitted > 0 || !countToEOF;
    }
    a := Answer(emitted, totalLines, countToEOF, truncated, bytesOmitted, linesOmitted);
    if first <= last && sent != [] {
      LinesRemain(c, first, last);
    }
  }

  /** The wanted window has its last line at Start + Limit - 1. The code's 64-bit
      sum names that window exactly when it does not wrap. */
  lemma EndIsRightIffItFits(req: Request, lim: Limits)
    requires Start(req) < Word && 0 < Limit(req, lim) < Word
    ensures Fits(req, lim) <==>
            forall c :: Window(c, Start(req), End(req, lim)) == Window(c, Start(req), Start(req) + Limit(req, lim) - 1)
  {
    if !Fits(req, lim) {
      var first, last := Start(req), Start(req) + Limit(req, lim) - 1;
      assert End(req, lim) == last - Word < first;
      var c: Bytes := seq(first, _ => LF);
      AllNewlines(c, first - 1);
      NothingInAnEmptyWindow(c, first, End(req, lim), |c|);
      assert WindowTo(c, first, last, first) == WindowTo(c, first, last, first - 1) + [c[first - 1]];
      assert Window(c, first, last) != Window(c, first, End(req, lim));
    }
  }

  lemma {:induction false} AllNewlines(c: Bytes, p: nat)
    requires p <= |c| && forall k :: 0 <= k < |c| ==> c[k] == LF
    ensures LineAt(c, p) == p + 1
  {
    if p > 0 {
      AllNewlines(c, p - 1);
    }
  }

  lemma {:induction false} NothingInAnEmptyWindow(c: Bytes, first: nat, last: nat, p: nat)
    requires p <= |c| && last < first
    ensures WindowTo(c, first, last, p) == []
  {
    if p > 0 {
      NothingInAnEmptyWindow(c, first, last, p - 1);
    }
  }

  /** A window's first byte and the byte behind its last. */
  predicate Edges(c: Bytes, first: nat, j: nat, s: nat, t: nat) {
    s < t <= |c| && (s > 0 ==> c[s - 1] == LF) && LineAt(c, s) == first <= j && LineAt(c, t - 1) == j
  }

  lemma LineEdges(c: Bytes, spans: seq<Span>, first: nat, j: nat)
    requires AreLines(c, spans) && 1 <= first <= j <= |spans| && c != []
    ensures Edges(c, first, j, spans[first - 1].start, spans[j - 1].end)
  {
    LineBounds(c, spans, first - 1);
    LineBounds(c, spans, j - 1);
    if first < j {
      SpansAscend(c, spans, first - 1, j - 1);
    }
  }

  /** Behind the line `last` the window gains nothing. */
  lemma NothingBehind(c: Bytes, spans: seq<Span>, first: nat, last: nat)
    requires AreLines(c, spans) && 1 <= first <= last < |spans| && c != []
    ensures spans[last - 1].end <= |c| && Window(c, first, last) == WindowTo(c, first, last, spans[last - 1].end)
  {
    LineBounds(c, spans, last);
    assert Adjoin(spans, last - 1);
    NothingPastTheWindow(c, first, last, spans[last - 1].end, |c|);
  }

  /** The window, byte by byte defined, is the wanted lines end to end. */
  lemma WindowIsTheLines(c: Bytes, spans: seq<Span>, first: nat, last: nat)
    requires AreLines(c, spans) && 1 <= first <= last && first <= |spans| && c != []
    ensures var j := if last < |spans| then last else |spans|;
            spans[first - 1].start <= spans[j - 1].end <= |c|
            && Window(c, first, last) == c[spans[first - 1].start..spans[j - 1].end]
  {
    var j := if last < |spans| then last else |spans|;
    LineEdges(c, spans, first, j);
    if last < |spans| {
      NothingBehind(c, spans, first, last);
    }
    Stretch(c, first, last, spans[first - 1].start, spans[j - 1].end, j);
  }

  lemma Stretch(c: Bytes, first: nat, last: nat, s: nat, t: nat, j: nat)
    requires Edges(c, first, j, s, t) && j <= last
    ensures WindowTo(c, first, last, t) == c[s..t]
  {
    forall p | s <= p < t
      ensures LineAt(c, p) <= last
    {
      NewlinesSplit(c, 0, p, t - 1);
    }
    BeforeTheWindow(c, first, last, s, s);
    InTheWindow(c, first, last, s, t);
  }

  lemma LineBounds(c: Bytes, spans: seq<Span>, i: nat)
    requires AreLines(c, spans) && i < |spans| && c != []
    ensures var (s, t) := (spans[i].start, spans[i].end);
            && s < t <= |c| && LineAt(c, s) == i + 1 && LineAt(c, t - 1) == i + 1 && (s > 0 ==> c[s - 1] == LF)
  {
    var s, t := spans[i].start, spans[i].end;
    NewlinesBefore(c, spans, i);
    assert LineOk(c, spans[i], i == |spans| - 1);
    NoNewlines(c, s, t - 1);
    NewlinesSplit(c, 0, s, t - 1);
    if i > 0 {
      assert LineOk(c, spans[i - 1], false) && Adjoin(spans, i - 1);
    }
  }

  lemma {:induction false} BeforeTheWindow(c: Bytes, first: nat, last: nat, s: nat, p: nat)
    requires p <= s <= |c| && NewlinesIn(c, 0, s) + 1 == first && (s > 0 ==> c[s - 1] == LF)
    ensures WindowTo(c, first, last, p) == []
  {
    if p > 0 {
      BeforeTheWindow(c, first, last, s, p - 1);
      NewlinesSplit(c, 0, p - 1, s - 1);
    }
  }

  lemma {:induction false} InTheWindow(c: Bytes, first: nat, last: nat, s: nat, t: nat)
    requires s <= t <= |c| && WindowTo(c, first, last, s) == [] && LineAt(c, s) == first
    requires forall p :: s <= p < t ==> LineAt(c, p) <= last
    ensures WindowTo(c, first, last, t) == c[s..t]
    decreases t
  {
    if s < t {
      InTheWindow(c, first, last, s, t - 1);
      NewlinesSplit(c, 0, s, t - 1);
      assert c[s..t] == c[s..t - 1] + [c[t - 1]];
    }
  }

  // ------------------------------------------------ what a request asks for

  /** No byte lies behind the last line. */
  lemma LinesEnd(c: Bytes, spans: seq<Span>, p: nat)
    requires AreLines(c, spans) && p < |c|
    ensures LineAt(c, p) <= |spans|
  {
    SpansCountLines(c, spans);
    NewlinesSplit(c, 0, p, |c|);
    if c[|c| - 1] == LF {
      NewlinesSplit(c, p, |c| - 1, |c|);
      assert NewlinesIn(c, |c| - 1, |c|) == NewlinesIn(c, |c| - 1, |c| - 1) + 1;
    }
  }

  lemma {:induction false} NothingSoFar(c: Bytes, spans: seq<Span>, first: nat, last: nat, p: nat)
    requires AreLines(c, spans) && p <= |c| && first > |spans|
    ensures WindowTo(c, first, last, p) == []
  {
    if p > 0 {
      NothingSoFar(c, spans, first, last, p - 1);
      LinesEnd(c, spans, p - 1);
    }
  }

  /** The lines asked for, as a stretch of the file: `limit_lines` of them, or the
      default if it is zero, from line `offset_lines` on, the first if it is zero,
      and no further than the file goes. */
  function Asked(c: Bytes, spans: seq<Span>, req: Request, defaultLines: nat): Bytes
    requires AreLines(c, spans)
  {
    var from := if req.offsetLines == 0 then 0 else req.offsetLines - 1;
    var to := from + if req.limitLines == 0 then defaultLines else req.limitLines;
    if from >= |spans| || to == from then []
    else
      var end := spans[if to < |spans| then to - 1 else |spans| - 1].end;
      if spans[from].start <= end <= |c| then c[spans[from].start..end] else []
  }

  /** The window the loop works with is the one the request asks for. */
  lemma WindowIsWhatWasAsked(c: Bytes, spans: seq<Span>, req: Request, lim: Limits)
    requires AreLines(c, spans) && Fits(req, lim) && lim.defaultReadLines > 0
    ensures Window(c, Start(req), End(req, lim)) == Asked(c, spans, req, lim.defaultReadLines)
  {
    var first, last := Start(req), Start(req) + Limit(req, lim) - 1;
    assert End(req, lim) == last;
    if c == [] {
      assert Window(c, first, last) == [];
    } else if first > |spans| {
      NothingSoFar(c, spans, first, last, |c|);
    } else {
      WindowIsTheLines(c, spans, first, last);
    }
  }
}
