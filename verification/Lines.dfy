/** internal/agent/fs/diff.go: lines as byte ranges. */
module Lines {
  import opened Bytes

  /** One line's byte range, including its terminator. */
  datatype Span = Span(start: nat, end: nat)

  /** The newlines in b[i..j). */
  function NewlinesIn(b: Bytes, i: nat, j: nat): nat
    requires i <= j <= |b|
    decreases j - i
  {
    if i == j then 0 else NewlinesIn(b, i, j - 1) + (if b[j - 1] == LF then 1 else 0)
  }

  function Newlines(b: Bytes): nat { NewlinesIn(b, 0, |b|) }

  predicate Closed(b: Bytes) { b == [] || b[|b| - 1] == LF }

  /** Lines in a block; a trailing line without a terminator is a line. */
  function LineCount(b: Bytes): nat { Newlines(b) + (if Closed(b) then 0 else 1) }

  lemma {:induction false} NewlinesSplit(b: Bytes, i: nat, j: nat, k: nat)
    requires i <= j <= k <= |b|
    ensures NewlinesIn(b, i, k) == NewlinesIn(b, i, j) + NewlinesIn(b, j, k)
    decreases k
  {
    if j < k {
      NewlinesSplit(b, i, j, k - 1);
    }
  }

  lemma {:induction false} SameNewlines(b: Bytes, c: Bytes, i: nat, j: nat, d: int)
    requires Moved(b, c, i, j, d)
    ensures NewlinesIn(b, i, j) == NewlinesIn(c, i + d, j + d)
    decreases j
  {
    if i < j {
      SameNewlines(b, c, i, j - 1, d);
    }
  }

  lemma NewlinesOfSlice(b: Bytes, i: nat, j: nat)
    requires i <= j <= |b|
    ensures Newlines(b[i..j]) == NewlinesIn(b, i, j)
  {
    SameNewlines(b[i..j], b, 0, j - i, i);
  }

  lemma NewlinesConcat(a: Bytes, b: Bytes)
    ensures Newlines(a + b) == Newlines(a) + Newlines(b)
  {
    var c := a + b;
    assert |c| == |a| + |b|;
    NewlinesSplit(c, 0, |a|, |a| + |b|);
    SameNewlines(a, c, 0, |a|, 0);
    SameNewlines(b, c, 0, |b|, |a|);
  }

  lemma {:induction false} NoNewlines(b: Bytes, i: nat, j: nat)
    requires i <= j <= |b| && forall k :: i <= k < j ==> b[k] != LF
    ensures NewlinesIn(b, i, j) == 0
    decreases j
  {
    if i < j {
      NoNewlines(b, i, j - 1);
    }
  }

  /** Joining two blocks loses a line when the first is left open. */
  lemma LineCountJoins(a: Bytes, b: Bytes)
    ensures LineCount(a + b) == LineCount(a) + LineCount(b) - (if Closed(a) || b == [] then 0 else 1)
  {
    NewlinesConcat(a, b);
    if b == [] {
      assert a + b == a;
    } else {
      assert (a + b)[|a + b| - 1] == b[|b| - 1];
    }
  }

  predicate LineOk(b: Bytes, s: Span, last: bool) {
    && s.start <= s.end <= |b|
    && (b != [] ==> s.start < s.end)
    && (forall p :: s.start <= p < s.end - 1 ==> b[p] != LF)
    && (!last ==> s.start < s.end && b[s.end - 1] == LF)
  }

  predicate Adjoin(spans: seq<Span>, i: nat) { i + 1 < |spans| ==> spans[i].end == spans[i + 1].start }

  /** spans are the lines of b, in order and without gaps. */
  ghost predicate AreLines(b: Bytes, spans: seq<Span>) {
    && |spans| > 0 && spans[0].start == 0 && spans[|spans| - 1].end == |b|
    && (forall i :: 0 <= i < |spans| - 1 ==> Adjoin(spans, i))
    && (forall i :: 0 <= i < |spans| ==> LineOk(b, spans[i], i == |spans| - 1))
  }

  /** The lines of the first `start` bytes, all of them terminated. */
  ghost predicate AreClosedLines(b: Bytes, spans: seq<Span>, start: nat) {
    && (if spans == [] then start == 0 else spans[0].start == 0 && spans[|spans| - 1].end == start)
    && (forall i :: 0 <= i < |spans| - 1 ==> Adjoin(spans, i))
    && (forall i :: 0 <= i < |spans| ==> LineOk(b, spans[i], false))
  }

  lemma AdjoinsOneMore(spans: seq<Span>, s: Span)
    requires forall i :: 0 <= i < |spans| - 1 ==> Adjoin(spans, i)
    requires spans != [] ==> spans[|spans| - 1].end == s.start
    ensures forall i :: 0 <= i < |spans| ==> Adjoin(spans + [s], i)
  {
    forall i | 0 <= i < |spans|
      ensures Adjoin(spans + [s], i)
    {
      if i < |spans| - 1 {
        assert Adjoin(spans, i);
      }
    }
  }

  method LineSpans(b: Bytes) returns (spans: seq<Span>)
    ensures AreLines(b, spans)
  {
    spans := [];
    var start := 0;
    for i := 0 to |b|
      invariant start <= i
      invariant AreClosedLines(b, spans, start)
      invariant forall p :: start <= p < i ==> b[p] != LF
    {
      if b[i] == LF {
        AdjoinsOneMore(spans, Span(start, i + 1));
        spans := spans + [Span(start, i + 1)];
        start := i + 1;
      }
    }
    if start < |b| {
      AdjoinsOneMore(spans, Span(start, |b|));
      spans := spans + [Span(start, |b|)];
    }
    if |spans| == 0 {
      spans := spans + [Span(0, 0)];
    }
  }

  lemma {:induction false} ClosedLinesExist(b: Bytes, i: nat) returns (spans: seq<Span>, start: nat)
    requires i <= |b|
    ensures start <= i && AreClosedLines(b, spans, start)
    ensures forall p :: start <= p < i ==> b[p] != LF
  {
    if i == 0 {
      spans, start := [], 0;
    } else {
      spans, start := ClosedLinesExist(b, i - 1);
      if b[i - 1] == LF {
        AdjoinsOneMore(spans, Span(start, i));
        spans, start := spans + [Span(start, i)], i;
      }
    }
  }

  /** Every byte string has lines, an empty one a single empty line. */
  lemma LinesExist(b: Bytes) returns (spans: seq<Span>)
    ensures AreLines(b, spans)
  {
    var start;
    spans, start := ClosedLinesExist(b, |b|);
    if start < |b| || spans == [] {
      AdjoinsOneMore(spans, Span(start, |b|));
      spans := spans + [Span(start, |b|)];
    }
  }

  /** Every offset has its line. */
  lemma {:induction false} LineExists(b: Bytes, spans: seq<Span>, off: nat, i: nat) returns (line: nat)
    requires AreLines(b, spans) && i < |spans| && spans[i].start <= off < |b|
    ensures line < |spans| && spans[line].start <= off < spans[line].end
    decreases |spans| - i
  {
    if off < spans[i].end {
      line := i;
    } else {
      assert Adjoin(spans, i);
      line := LineExists(b, spans, off, i + 1);
    }
  }

  /** A line starts the text or follows a newline. */
  lemma LineStartsAfterNewline(b: Bytes, spans: seq<Span>, i: nat)
    requires AreLines(b, spans) && i < |spans| && spans[i].start > 0
    ensures spans[i].start <= |b| && b[spans[i].start - 1] == LF
  {
    assert Adjoin(spans, i - 1) && LineOk(b, spans[i - 1], false);
  }

  /** A line has one newline, at its end, or is the last and has none. */
  lemma NewlinesInLine(b: Bytes, s: Span, last: bool)
    requires LineOk(b, s, last) && s.start < s.end
    ensures NewlinesIn(b, s.start, s.end) == if b[s.end - 1] == LF then 1 else 0
  {
    NoNewlines(b, s.start, s.end - 1);
  }

  /** The i-th line starts behind i newlines. */
  lemma {:induction false} NewlinesBefore(b: Bytes, spans: seq<Span>, i: nat)
    requires AreLines(b, spans) && i < |spans|
    ensures spans[i].start <= |b| && NewlinesIn(b, 0, spans[i].start) == i
  {
    assert LineOk(b, spans[i], i == |spans| - 1);
    if i > 0 {
      NewlinesBefore(b, spans, i - 1);
      var s := spans[i - 1];
      assert LineOk(b, s, false) && Adjoin(spans, i - 1);
      NewlinesInLine(b, s, false);
      NewlinesSplit(b, 0, s.start, s.end);
    }
  }

  /** Lines i to j, end to end, are a block of j + 1 - i lines. */
  lemma LineCountOfLines(b: Bytes, spans: seq<Span>, i: nat, j: nat)
    requires AreLines(b, spans) && i <= j < |spans| && b != []
    ensures spans[i].start < spans[j].end <= |b|
    ensures LineCount(b[spans[i].start..spans[j].end]) == j + 1 - i
  {
    NewlinesBefore(b, spans, i);
    NewlinesBefore(b, spans, j);
    var s := spans[j];
    assert LineOk(b, s, j == |spans| - 1);
    if i < j {
      SpansAscend(b, spans, i, j);
      assert LineOk(b, spans[i], false);
    }
    NewlinesSplit(b, 0, spans[i].start, s.end);
    NewlinesSplit(b, 0, s.start, s.end);
    NewlinesInLine(b, s, j == |spans| - 1);
    NewlinesOfSlice(b, spans[i].start, s.end);
    assert b[spans[i].start..s.end][s.end - spans[i].start - 1] == b[s.end - 1];
  }

  /** There are as many spans as lines; an empty file has one empty span. */
  lemma SpansCountLines(b: Bytes, spans: seq<Span>)
    requires AreLines(b, spans)
    ensures |spans| == if b == [] then 1 else LineCount(b)
  {
    if b == [] {
      NewlinesBefore(b, spans, |spans| - 1);
    } else {
      LineCountOfLines(b, spans, 0, |spans| - 1);
      assert b[0..|b|] == b;
    }
  }

  /** Spans ascend. */
  lemma {:induction false} SpansAscend(b: Bytes, spans: seq<Span>, i: nat, j: nat)
    requires AreLines(b, spans) && i < j < |spans|
    ensures spans[i].end <= spans[j].start
    decreases j
  {
    if i + 1 < j {
      SpansAscend(b, spans, i, j - 1);
      assert LineOk(b, spans[j - 1], false);
    }
    assert Adjoin(spans, j - 1);
  }

  /** lineOfOffset: sort.Search over the spans' ends. */
  method LineOfOffset(ghost b: Bytes, spans: seq<Span>, off: nat) returns (line: nat)
    requires AreLines(b, spans)
    ensures line < |spans|
    ensures off < |b| ==> spans[line].start <= off < spans[line].end
    ensures off >= |b| ==> line == |spans| - 1
  {
    var lo, hi := 0, |spans|;
    while lo < hi
      invariant lo <= hi <= |spans|
      invariant lo > 0 ==> spans[lo - 1].end <= off
      invariant hi < |spans| ==> off < spans[hi].end
    {
      var mid := (lo + hi) / 2;
      if spans[mid].end > off {
        hi := mid;
      } else {
        lo := mid + 1;
      }
    }
    if lo >= |spans| {
      return |spans| - 1;
    }
    assert LineOk(b, spans[lo], lo == |spans| - 1);
    if lo == 0 {
      assert spans[lo].start == 0;
    } else {
      assert Adjoin(spans, lo - 1);
    }
    return lo;
  }
}
