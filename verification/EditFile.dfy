/** internal/agent/fs/edit.go: what an edit decides about a file's contents. */
module EditFile {
  import opened Bytes
  import opened Lines
  import opened Replace
  import Utf8

  // ------------------------------------------------------- line endings

  predicate IsCrlf(s: Bytes, i: nat) { 0 < i < |s| && s[i] == LF && s[i - 1] == CR }

  /** CRLF terminators among the first n bytes. */
  function Crlfs(s: Bytes, n: nat): nat
    requires n <= |s|
  {
    if n == 0 then 0 else Crlfs(s, n - 1) + (if IsCrlf(s, n - 1) then 1 else 0)
  }

  /** countLineEndings: every newline is counted once, as one or the other. */
  method CountLineEndings(s: Bytes) returns (crlf: nat, lf: nat)
    ensures crlf == Crlfs(s, |s|) && crlf + lf == NewlinesIn(s, 0, |s|)
  {
    crlf, lf := 0, 0;
    for i := 0 to |s|
      invariant crlf == Crlfs(s, i) && crlf + lf == NewlinesIn(s, 0, i)
    {
      if s[i] != LF {
        continue;
      }
      if i > 0 && s[i - 1] == CR {
        crlf := crlf + 1;
        continue;
      }
      lf := lf + 1;
    }
  }

  function BareLfs(s: Bytes): int { NewlinesIn(s, 0, |s|) - Crlfs(s, |s|) }

  /** checkNewLineEndings: a new string whose endings disagree with a file that
      uses only one kind. */
  predicate EndingsDisagree(content: Bytes, newStr: Bytes) {
    && LF in newStr
    && var crlf, lf := Crlfs(content, |content|), BareLfs(content);
    || (crlf > 0 && lf == 0 && BareLfs(newStr) > 0)
    || (lf > 0 && crlf == 0 && Crlfs(newStr, |newStr|) > 0)
  }

  // ----------------------------------------------------------- the edit

  datatype Refusal =
    | EmptyOldString
    | IdenticalStrings
    | FileTooLarge
    | NotUtf8
    | NoMatch
    | Ambiguous(count: nat)
    | MixedLineEndings
    | ResultTooLarge(grown: int)

  datatype Outcome = Edited(updated: Bytes, replacements: nat) | Refused(why: Refusal)

  datatype Request = Request(oldStr: Bytes, newStr: Bytes, all: bool)

  /** checkResultSize's prediction. */
  function Grown(contentLen: nat, count: nat, req: Request): int {
    contentLen + (if req.all then count else 1) * (|req.newStr| - |req.oldStr|)
  }

  /** What EditFile does to contents it has loaded, with `max` MaxEditBytes. */
  function Edit(max: nat, content: Bytes, req: Request): Outcome {
    if req.oldStr == [] then Refused(EmptyOldString)
    else if req.oldStr == req.newStr then Refused(IdenticalStrings)
    else if |content| > max then Refused(FileTooLarge)
    else if !Utf8.Valid(content) then Refused(NotUtf8)
    else
      var count := Count(content, req.oldStr);
      if count == 0 then Refused(NoMatch)
      else if count > 1 && !req.all then Refused(Ambiguous(count))
      else if EndingsDisagree(content, req.newStr) then Refused(MixedLineEndings)
      else if Grown(|content|, count, req) > max then Refused(ResultTooLarge(Grown(|content|, count, req)))
      else Edited(Replaced(content, req.oldStr, req.newStr, req.all), if req.all then count else 1)
  }

  /** The checks and the replacement in the order EditFile makes them; `count` is
      the library's strings.Count. */
  method EditContents(max: nat, content: Bytes, req: Request) returns (r: Outcome, occs: seq<Occurrence>)
    ensures r == Edit(max, content, req)
    ensures r.Edited? ==>
              && req.oldStr != [] && |occs| == r.replacements > 0
              && Tracks(content, r.updated, req.oldStr, req.newStr, occs)
              && var tail := GapStart(occs, |occs|);
              tail.0 <= |content| && tail.1 <= |r.updated| && r.updated[tail.1..] == content[tail.0..]
  {
    occs := [];
    if req.oldStr == [] {
      return Refused(EmptyOldString), [];
    }
    if req.oldStr == req.newStr {
      return Refused(IdenticalStrings), [];
    }
    if |content| > max {
      return Refused(FileTooLarge), [];
    }
    if !Utf8.Valid(content) {
      return Refused(NotUtf8), [];
    }
    var count := Count(content, req.oldStr);
    if count == 0 {
      return Refused(NoMatch), [];
    }
    if count > 1 && !req.all {
      return Refused(Ambiguous(count)), [];
    }
    if LF in req.newStr {
      var crlf, lf := CountLineEndings(content);
      var newCrlf, newLf := CountLineEndings(req.newStr);
      if (crlf > 0 && lf == 0 && newLf > 0) || (lf > 0 && crlf == 0 && newCrlf > 0) {
        return Refused(MixedLineEndings), [];
      }
    }
    var replacing := if req.all then count else 1;
    var grown := |content| + replacing * (|req.newStr| - |req.oldStr|);
    if grown > max {
      return Refused(ResultTooLarge(grown)), [];
    }
    var updated;
    updated, occs := ReplaceOccurrences(content, req.oldStr, req.newStr, req.all);
    r := Edited(updated, |occs|);
  }

  // ------------------------------------------------------------ its size

  lemma {:induction false} ReplacedLength(c: Bytes, pat: Bytes, new_: Bytes, i: nat)
    requires |pat| > 0 && i <= |c|
    ensures |ReplaceFrom(c, pat, new_, i)| == |c| - i + CountFrom(c, pat, i) * (|new_| - |pat|)
    decreases |c| - i
  {
    if i < |c| {
      if MatchAt(c, pat, i) {
        ReplacedLength(c, pat, new_, i + |pat|);
        OneMore(CountFrom(c, pat, i + |pat|), |new_| - |pat|);
      } else {
        ReplacedLength(c, pat, new_, i + 1);
      }
    }
  }

  lemma OneMore(n: nat, d: int)
    ensures (1 + n) * d == d + n * d
  {
  }

  lemma FirstMatchExists(c: Bytes, pat: Bytes)
    requires |pat| > 0 && Count(c, pat) > 0
    ensures IndexFrom(c, pat, 0) >= 0
  {
    if IndexFrom(c, pat, 0) == -1 {
      AfterLastMatch(c, pat, [], 0);
    }
  }

  /** The result is exactly as long as checkResultSize predicted, so an accepted
      edit stays within the limit and a refused one would have passed it. */
  lemma ResultSizeIsExact(content: Bytes, req: Request)
    requires req.oldStr != [] && Count(content, req.oldStr) > 0
    ensures |Replaced(content, req.oldStr, req.newStr, req.all)| == Grown(|content|, Count(content, req.oldStr), req)
  {
    ReplacedLength(content, req.oldStr, req.newStr, 0);
    FirstMatchExists(content, req.oldStr);
  }

  lemma {:induction false} CountIsBounded(c: Bytes, pat: Bytes, i: nat)
    requires |pat| > 0 && i <= |c|
    ensures CountFrom(c, pat, i) <= |c| - i
    decreases |c| - i
  {
    if i < |c| {
      CountIsBounded(c, pat, if MatchAt(c, pat, i) then i + |pat| else i + 1);
    }
  }

  /** The bound the code relies on for its 64-bit sum: with a file of at most 2^24
      bytes and strings of at most 2^25 the prediction stays below 2^50. */
  lemma PredictionFits(content: Bytes, req: Request)
    requires req.oldStr != [] && |content| <= 0x100_0000
    requires |req.oldStr| <= 0x200_0000 && |req.newStr| <= 0x200_0000
    ensures -0x4_0000_0000_0000 < Grown(|content|, Count(content, req.oldStr), req) < 0x4_0000_0000_0000
  {
    CountIsBounded(content, req.oldStr, 0);
    var n := if req.all then Count(content, req.oldStr) else 1;
    ProductBound(n, 0x100_0000, |req.newStr| - |req.oldStr|, 0x200_0000);
  }

  lemma ProductBound(n: nat, nMax: nat, d: int, dMax: nat)
    requires n <= nMax && 0 - dMax <= d <= dMax
    ensures 0 - nMax * dMax <= n * d <= nMax * dMax
  {
    assert n * d <= n * dMax <= nMax * dMax;
    assert 0 - n * dMax <= n * d;
  }

  // ------------------------------------------------- what an edit promises

  lemma {:induction false} ReplacedTwice(c: Bytes, pat: Bytes, new_: Bytes, i: nat)
    requires |pat| > 0 && |pat| == |new_| && pat != new_ && i <= |c| && CountFrom(c, pat, i) > 0
    ensures ReplaceFrom(c, pat, new_, i) != c[i..]
    decreases |c| - i
  {
    if MatchAt(c, pat, i) {
      assert ReplaceFrom(c, pat, new_, i)[..|pat|] == new_;
      assert c[i..][..|pat|] == pat;
    } else {
      ReplacedTwice(c, pat, new_, i + 1);
      assert ReplaceFrom(c, pat, new_, i)[1..] == ReplaceFrom(c, pat, new_, i + 1);
      assert c[i..][1..] == c[i + 1..];
    }
  }

  lemma FirstChanges(c: Bytes, pat: Bytes, new_: Bytes)
    requires |pat| > 0 && |pat| == |new_| && pat != new_ && Count(c, pat) > 0
    ensures ReplaceFirst(c, pat, new_) != c
  {
    FirstMatchExists(c, pat);
    var j := IndexFrom(c, pat, 0);
    assert ReplaceFirst(c, pat, new_)[j..j + |new_|] == new_;
    assert c[j..j + |pat|] == pat;
  }

  /** An edit that reports success has changed the file, within the limit, and
      replaced as many matches as it reports. */
  lemma EditedMeansChanged(max: nat, content: Bytes, req: Request)
    requires Edit(max, content, req).Edited?
    ensures var r := Edit(max, content, req);
            r.updated != content && |r.updated| <= max
            && r.replacements == (if req.all then Count(content, req.oldStr) else 1) && Count(content, req.oldStr) > 0
  {
    ResultSizeIsExact(content, req);
    if |req.newStr| != |req.oldStr| {
      NonzeroProduct(if req.all then Count(content, req.oldStr) else 1, |req.newStr| - |req.oldStr|);
    } else if req.all {
      ReplacedTwice(content, req.oldStr, req.newStr, 0);
      assert content[0..] == content;
    } else {
      FirstChanges(content, req.oldStr, req.newStr);
    }
  }

  lemma NonzeroProduct(n: nat, d: int)
    requires n > 0 && d != 0
    ensures n * d != 0
  {
  }

  // ------------------------------------------------ an edited file is text

  lemma {:induction false} ValidShift(pre: Bytes, b: Bytes, i: nat)
    requires Utf8.ValidFrom(b, i) && i <= |b|
    ensures Utf8.ValidFrom(pre + b, |pre| + i)
    decreases |b| - i
  {
    if i < |b| {
      assert forall k :: 0 <= k < |b| ==> (pre + b)[|pre| + k] == b[k];
      assert Utf8.RuneSize(pre + b, |pre| + i) == Utf8.RuneSize(b, i);
      ValidShift(pre, b, i + Utf8.RuneSize(b, i));
    }
  }

  lemma {:induction false} ValidConcat(a: Bytes, b: Bytes, i: nat)
    requires Utf8.ValidFrom(a, i) && i <= |a| && Utf8.Valid(b)
    ensures Utf8.ValidFrom(a + b, i)
    decreases |a| - i
  {
    if i == |a| {
      ValidShift(a, b, 0);
    } else {
      var n := Utf8.RuneSize(a, i);
      assert forall k :: 0 <= k < |a| ==> (a + b)[k] == a[k];
      assert forall k :: i + 1 <= k < i + n ==> Utf8.Tail(a[k]);
      ValidConcat(a, b, i + n);
    }
  }

  /** Text between two character boundaries is text. */
  lemma {:induction false} ValidSlice(c: Bytes, i: nat, j: nat)
    requires i <= j <= |c| && Utf8.ValidFrom(c, i) && (j < |c| ==> Utf8.RuneStart(c[j]))
    ensures Utf8.ValidFrom(c[..j], i) && Utf8.ValidFrom(c, j)
    decreases j - i
  {
    if i < j {
      var n := Utf8.RuneSize(c, i);
      assert forall k :: i + 1 <= k < i + n ==> Utf8.Tail(c[k]);
      assert i + n <= j;
      Utf8.SizeInPrefix(c, j, i);
      ValidSlice(c, i + n, j);
    }
  }

  /** A match of text in text starts and ends between characters. */
  lemma {:induction false} MatchIsAligned(c: Bytes, pat: Bytes, at: nat, k: nat)
    requires Utf8.ValidFrom(pat, k) && k <= |pat| && MatchAt(c, pat, at) && Utf8.ValidFrom(c, at + k)
    ensures Utf8.ValidFrom(c, at + |pat|)
    decreases |pat| - k
  {
    if k < |pat| {
      var n := Utf8.RuneSize(pat, k);
      assert forall m :: 0 <= m < |pat| ==> c[at + m] == c[at..at + |pat|][m] == pat[m];
      assert forall m :: k + 1 <= m < k + n ==> Utf8.Tail(pat[m]);
      assert Utf8.RuneSize(c, at + k) == n;
      MatchIsAligned(c, pat, at, k + n);
    }
  }

  lemma MatchEnds(c: Bytes, pat: Bytes, at: nat)
    requires Utf8.Valid(c) && Utf8.Valid(pat) && |pat| > 0 && MatchAt(c, pat, at)
    ensures Utf8.RuneStart(c[at]) && Utf8.ValidFrom(c, at) && Utf8.ValidFrom(c, at + |pat|)
  {
    assert c[at] == c[at..at + |pat|][0] == pat[0];
    assert Utf8.RuneSize(pat, 0) > 0;
    Utf8.StartsAreBoundaries(c, 0, at);
    MatchIsAligned(c, pat, at, 0);
  }

  lemma {:induction false} ReplacedIsText(c: Bytes, pat: Bytes, new_: Bytes, i: nat)
    requires Utf8.Valid(c) && Utf8.Valid(pat) && Utf8.Valid(new_) && |pat| > 0
    requires i <= |c| && Utf8.ValidFrom(c, i)
    ensures Utf8.Valid(ReplaceFrom(c, pat, new_, i))
    decreases |c| - i
  {
    var at := IndexFrom(c, pat, i);
    if at < 0 {
      AfterLastMatch(c, pat, new_, i);
      SuffixIsText(c, i);
    } else {
      AtMatch(c, pat, new_, i, at);
      MatchEnds(c, pat, at);
      ReplacedIsText(c, pat, new_, at + |pat|);
      GapIsText(c, i, at);
      ValidConcat(c[i..at], new_, 0);
      ValidConcat(c[i..at] + new_, ReplaceFrom(c, pat, new_, at + |pat|), 0);
    }
  }

  lemma SuffixIsText(c: Bytes, i: nat)
    requires i <= |c| && Utf8.ValidFrom(c, i)
    ensures Utf8.Valid(c[i..])
  {
    var cps := Utf8.ValidIsEncoded(c, i);
    assert c[i..][0..] == c[i..];
    Utf8.EncodedIsValid(cps, c[i..], 0);
  }

  lemma GapIsText(c: Bytes, i: nat, j: nat)
    requires i <= j <= |c| && Utf8.ValidFrom(c, i) && (j < |c| ==> Utf8.RuneStart(c[j]))
    ensures Utf8.Valid(c[i..j])
  {
    ValidSlice(c, i, j);
    SuffixIsText(c[..j], i);
    assert c[..j][i..] == c[i..j];
  }

  lemma FirstIsText(c: Bytes, pat: Bytes, new_: Bytes)
    requires Utf8.Valid(c) && Utf8.Valid(pat) && Utf8.Valid(new_) && |pat| > 0
    ensures Utf8.Valid(ReplaceFirst(c, pat, new_))
  {
    var at := IndexFrom(c, pat, 0);
    if at >= 0 {
      MatchEnds(c, pat, at);
      ValidSlice(c, 0, at);
      SuffixIsText(c, at + |pat|);
      ValidConcat(c[..at], new_, 0);
      ValidConcat(c[..at] + new_, c[at + |pat|..], 0);
    }
  }

  /** An edit whose strings are valid UTF-8 leaves a file that still is: no match
      can begin or end inside a character. */
  lemma EditKeepsText(max: nat, content: Bytes, req: Request)
    requires Utf8.Valid(req.oldStr) && Utf8.Valid(req.newStr) && Edit(max, content, req).Edited?
    ensures Utf8.Valid(Edit(max, content, req).updated)
  {
    if req.all {
      ReplacedIsText(content, req.oldStr, req.newStr, 0);
    } else {
      FirstIsText(content, req.oldStr, req.newStr);
    }
  }
}
