/** internal/agent/fs/diff.go, with edit.go: for which requests the line numbers of
    the diff are right, whatever the file. Proved by asking where a changed region
    can end: with a line the edit kept, or with the new string.
  */
module DiffHeaders {
  import opened Bytes
  import opened Lines
  import opened Replace
  import opened Diff
  import opened Hunks
  import opened EditFile
  import Utf8

  predicate EndsLine(b: Bytes) { b != [] && b[|b| - 1] == LF }

  /** The old string ends inside a line, or the new one ends one. The other cases
      are refused for every file: an empty or unchanged string, and a lone newline
      to be replaced once, by a string with both kinds of line ending. */
  predicate KeepsLinesApart(req: Request) {
    || !EndsLine(req.oldStr) || EndsLine(req.newStr) || req.oldStr == req.newStr
    || (req.oldStr == [LF] && !req.all && Crlfs(req.newStr, |req.newStr|) > 0 && BareLfs(req.newStr) > 0)
  }

  /** An accepted edit, what it leaves, and the diff it answers with. */
  ghost predicate Answered(max: nat, content: Bytes, req: Request, updated: Bytes, hunks: seq<Hunk>) {
    && Edit(max, content, req).Edited? && updated == Edit(max, content, req).updated
    && Diffed(content, updated, req, hunks)
  }

  ghost predicate HeadersRight(old_: Bytes, new_: Bytes, hunks: seq<Hunk>) {
    forall k :: 0 <= k < |hunks| ==> HeaderRight(old_, new_, hunks, k)
  }

  // --------------------------------------------------- every diff exists

  lemma {:induction false} GroupsExist(b: Bytes, lines: seq<Span>, occs: seq<Occurrence>, n: nat)
    returns (groups: seq<Group>, cuts: seq<nat>)
    requires AreLines(b, lines) && n <= |occs|
    requires forall i :: 0 <= i < |occs| ==> occs[i].oldStart < occs[i].oldEnd <= |b|
    requires forall i :: 0 < i < |occs| ==> occs[i - 1].oldEnd <= occs[i].oldStart
    ensures GroupsUpTo(lines, occs, groups, cuts, n)
  {
    groups, cuts := [], [0];
    if n > 0 {
      groups, cuts := GroupsExist(b, lines, occs, n - 1);
      var o := occs[n - 1];
      var first := LineExists(b, lines, o.oldStart, 0);
      var last := LineExists(b, lines, o.oldEnd - 1, 0);
      var m := |groups|;
      if m > 0 && first <= groups[m - 1].lastLine + 2 * ContextLines + 1 {
        JoinsAGroup(b, lines, occs, groups, cuts, n - 1, first, last);
        groups, cuts := groups[..m - 1] + [groups[m - 1].(lastLine := last, driftAfter := DriftAfter(o))], cuts[..m] + [n];
      } else {
        StartsAGroup(b, lines, occs, groups, cuts, n - 1, first, last);
        groups := groups + [Group(first, last, DriftBefore(o), DriftAfter(o), o.oldStart, o.newStart)];
        cuts := cuts + [n];
      }
    }
  }

  lemma {:induction false} HunksExist(old_: Bytes, new_: Bytes, lines: seq<Span>, groups: seq<Group>, n: nat)
    returns (hunks: seq<Hunk>)
    requires AreLines(old_, lines) && AllPlaced(old_, new_, lines, groups) && n <= |groups|
    ensures |hunks| == n && HunksUpTo(old_, new_, lines, groups, hunks)
  {
    hunks := [];
    if n > 0 {
      hunks := HunksExist(old_, new_, lines, groups, n - 1);
      PlacedFits(old_, new_, lines, groups, n - 1);
      var h := HunkOf(old_, new_, lines, groups[n - 1], LineDrift(hunks, n - 1));
      OneMoreHunk(old_, new_, lines, groups, hunks, h);
      hunks := hunks + [h];
    }
  }

  lemma RangesAscend(old_: Bytes, new_: Bytes, occs: seq<Occurrence>)
    requires Edits(old_, new_, occs)
    ensures forall i :: 0 <= i < |occs| ==> occs[i].oldStart < occs[i].oldEnd <= |old_|
    ensures forall i :: 0 < i < |occs| ==> occs[i - 1].oldEnd <= occs[i].oldStart
  {
    forall i | 0 <= i < |occs|
      ensures occs[i].oldStart < occs[i].oldEnd <= |old_| && (i > 0 ==> occs[i - 1].oldEnd <= occs[i].oldStart)
    {
      assert RangeOk(old_, new_, occs, i);
    }
  }

  lemma GroupedExists(old_: Bytes, new_: Bytes, occs: seq<Occurrence>) returns (hunks: seq<Hunk>)
    requires Edits(old_, new_, occs)
    ensures Grouped(old_, new_, occs, hunks)
  {
    RangesAscend(old_, new_, occs);
    var lines := LinesExist(old_);
    var groups, cuts := GroupsExist(old_, lines, occs, |occs|);
    GroupsArePlaced(old_, new_, occs, lines, groups, cuts);
    hunks := HunksExist(old_, new_, lines, groups, |groups|);
  }

  lemma {:induction false} AllRecorded(c: Bytes, pat: Bytes, new_: Bytes, out: Bytes, occs: seq<Occurrence>, last: nat)
    returns (out': Bytes, occs': seq<Occurrence>)
    requires |pat| > 0 && Progress(c, pat, new_, out, occs, last)
    ensures Built(c, pat, new_, true, out', occs')
    decreases |c| - last
  {
    var at := IndexFrom(c, pat, last);
    if at < 0 {
      BuiltWithoutMore(c, pat, new_, true, out, occs, last);
      out', occs' := out + c[last..], occs;
    } else {
      Turn(c, out, pat, new_, occs, last, at);
      var mid := out + c[last..at];
      out', occs' := AllRecorded(c, pat, new_, mid + new_, occs + [Occurrence(at, at + |pat|, |mid|, |mid + new_|)], at + |pat|);
    }
  }

  lemma ReplacementExists(c: Bytes, req: Request) returns (out: Bytes, occs: seq<Occurrence>)
    requires req.oldStr != [] && Count(c, req.oldStr) > 0
    ensures Built(c, req.oldStr, req.newStr, req.all, out, occs)
  {
    var pat, new_ := req.oldStr, req.newStr;
    if req.all {
      out, occs := AllRecorded(c, pat, new_, [], [], 0);
    } else {
      FirstMatchExists(c, pat);
      var at := IndexFrom(c, pat, 0);
      Turn(c, [], pat, new_, [], 0, at);
      var mid := [] + c[0..at];
      assert mid == c[..at];
      BuiltOnce(c, pat, new_, mid + new_, [] + [Occurrence(at, at + |pat|, |mid|, |mid + new_|)], at);
      out, occs := mid + new_ + c[at + |pat|..], [] + [Occurrence(at, at + |pat|, |mid|, |mid + new_|)];
    }
  }

  /** An accepted edit has its diff. */
  lemma AnswerExists(max: nat, content: Bytes, req: Request) returns (hunks: seq<Hunk>)
    requires Edit(max, content, req).Edited?
    ensures Answered(max, content, req, Edit(max, content, req).updated, hunks)
  {
    var out, occs := ReplacementExists(content, req);
    ReplacementIsEdits(content, out, req.oldStr, req.newStr, occs);
    hunks := GroupedExists(content, out, occs);
    assert Recorded(content, out, req, occs);
  }

  // ------------------------------------------- where a new region ends

  /** The diff's working: what it was told, and the groups it made of that. */
  ghost predicate Working(content: Bytes, updated: Bytes, req: Request, occs: seq<Occurrence>, lines: seq<Span>,
                          groups: seq<Group>, cuts: seq<nat>, hunks: seq<Hunk>) {
    && Recorded(content, updated, req, occs) && Setting(content, updated, occs, lines, groups, cuts)
    && Made(content, updated, lines, groups, hunks)
  }

  lemma WorkingOf(max: nat, content: Bytes, req: Request, updated: Bytes, hunks: seq<Hunk>)
    returns (occs: seq<Occurrence>, lines: seq<Span>, groups: seq<Group>, cuts: seq<nat>)
    requires Answered(max, content, req, updated, hunks)
    ensures Working(content, updated, req, occs, lines, groups, cuts, hunks)
  {
    occs :| Recorded(content, updated, req, occs) && Grouped(content, updated, occs, hunks);
    lines, groups, cuts :| Grouping(lines, occs, groups, cuts) && Made(content, updated, lines, groups, hunks);
    ReplacementIsEdits(content, updated, req.oldStr, req.newStr, occs);
  }

  /** A line that ends at e holds the end of a range, `to`. */
  predicate EndsAt(b: Bytes, to: nat, e: nat) {
    && 0 < to <= e <= |b|
    && (e < |b| ==> b[e - 1] == LF)
    && (b[to - 1] == LF ==> e == to)
  }

  lemma LineEnds(b: Bytes, lines: seq<Span>, i: nat, to: nat)
    requires AreLines(b, lines) && i < |lines| && lines[i].start < to <= lines[i].end
    ensures EndsAt(b, to, lines[i].end)
  {
    assert LineOk(b, lines[i], i == |lines| - 1);
  }

  /** Hunk k takes in the occurrences from the first of its group to the last, o. */
  predicate Takes(content: Bytes, occs: seq<Occurrence>, h: Hunk, a: nat, z: nat) {
    && a <= z < |occs| && h.at <= occs[a].oldStart
    && EndsAt(content, occs[z].oldEnd, h.at + |h.removed|)
    && |h.added| - |h.removed| == DriftAfter(occs[z]) - DriftBefore(occs[a])
  }

  lemma TakesItsGroup(content: Bytes, updated: Bytes, lines: seq<Span>, occs: seq<Occurrence>, g: Group, a: nat, b: nat, h: Hunk, drift: int)
    requires AreLines(content, lines) && Covers(lines, occs, g, a, b) && HunkMatches(content, updated, lines, g, h, drift)
    ensures Takes(content, occs, h, a, b - 1)
  {
    HunkExtent(content, updated, lines, g, h, drift);
    LineEnds(content, lines, g.lastLine, occs[b - 1].oldEnd);
  }

  lemma HunkTakes(content: Bytes, updated: Bytes, req: Request, occs: seq<Occurrence>, lines: seq<Span>,
                  groups: seq<Group>, cuts: seq<nat>, hunks: seq<Hunk>, k: nat)
    requires Working(content, updated, req, occs, lines, groups, cuts, hunks) && k < |hunks|
    ensures k + 1 < |cuts| && 0 < cuts[k + 1] && Takes(content, occs, hunks[k], cuts[k], cuts[k + 1] - 1)
  {
    assert CoversAt(lines, occs, groups, cuts, k);
    assert HunkAt(content, updated, lines, groups, hunks, k);
    TakesItsGroup(content, updated, lines, occs, groups[k], cuts[k], cuts[k + 1], hunks[k], LineDrift(hunks, k));
  }

  predicate AddedTo(updated: Bytes, h: Hunk, end: int) {
    |h.added| <= end <= |updated| && h.added == updated[end - |h.added|..end]
  }

  lemma AddedIsSlice(old_: Bytes, new_: Bytes, lines: seq<Span>, g: Group, h: Hunk, drift: int)
    requires HunkMatches(old_, new_, lines, g, h, drift)
    ensures AddedTo(new_, h, h.at + |h.removed| + g.driftAfter)
  {
    HunkExtent(old_, new_, lines, g, h, drift);
  }

  /** What hunk k puts in ends, in the new file, as far behind its last occurrence
      as the old region does. */
  lemma AddedEnds(old_: Bytes, new_: Bytes, occs: seq<Occurrence>, lines: seq<Span>,
                  groups: seq<Group>, cuts: seq<nat>, hunks: seq<Hunk>, k: nat)
    requires Grouping(lines, occs, groups, cuts) && HunksUpTo(old_, new_, lines, groups, hunks) && k < |hunks|
    ensures 0 < cuts[k + 1] <= |occs|
    ensures AddedTo(new_, hunks[k], hunks[k].at + |hunks[k].removed| + DriftAfter(occs[cuts[k + 1] - 1]))
  {
    assert CoversAt(lines, occs, groups, cuts, k);
    assert HunkAt(old_, new_, lines, groups, hunks, k);
    AddedIsSlice(old_, new_, lines, groups[k], hunks[k], LineDrift(hunks, k));
  }

  /** The line a group ends with ends before the next occurrence. */
  lemma LineEndsInGap(content: Bytes, occs: seq<Occurrence>, lines: seq<Span>, groups: seq<Group>, cuts: seq<nat>, k: nat)
    requires AreLines(content, lines) && Grouping(lines, occs, groups, cuts) && k < |groups|
    ensures groups[k].lastLine < |lines| && 0 < cuts[k + 1] <= |occs|
    ensures occs[cuts[k + 1] - 1].oldEnd <= lines[groups[k].lastLine].end <= |content|
    ensures cuts[k + 1] < |occs| ==> lines[groups[k].lastLine].end <= occs[cuts[k + 1]].oldStart
  {
    assert CoversAt(lines, occs, groups, cuts, k);
    ResumesInGap(content, occs, lines, groups, cuts, k + 1);
    if k + 1 < |groups| {
      GapReaches(content, occs, lines, groups, cuts, k + 1);
    }
  }

  /** From its last occurrence to the end of its region the old text is untouched. */
  lemma RestIsMoved(content: Bytes, updated: Bytes, occs: seq<Occurrence>, lines: seq<Span>,
                    groups: seq<Group>, cuts: seq<nat>, k: nat)
    requires Setting(content, updated, occs, lines, groups, cuts) && k < |groups|
    ensures groups[k].lastLine < |lines| && 0 < cuts[k + 1] <= |occs|
    ensures var o := occs[cuts[k + 1] - 1];
            Moved(content, updated, o.oldEnd, lines[groups[k].lastLine].end, DriftAfter(o))
  {
    var n := cuts[k + 1];
    LineEndsInGap(content, occs, lines, groups, cuts, k);
    GapMoved(content, updated, occs, n);
    MovedLess(content, updated, occs[n - 1].oldEnd, lines[groups[k].lastLine].end,
              if n < |occs| then occs[n].oldStart else |content|, DriftAfter(occs[n - 1]));
  }

  /** Where hunk k's old region ends, behind the last occurrence it takes in. */
  predicate Region(content: Bytes, updated: Bytes, h: Hunk, o: Occurrence) {
    var e, end := h.at + |h.removed|, h.at + |h.removed| + DriftAfter(o);
    && EndsAt(content, o.oldEnd, e) && AddedTo(updated, h, end)
    && Moved(content, updated, o.oldEnd, e, DriftAfter(o))
  }

  lemma ExtentOf(old_: Bytes, new_: Bytes, lines: seq<Span>, groups: seq<Group>, hunks: seq<Hunk>, k: nat)
    requires HunksUpTo(old_, new_, lines, groups, hunks) && k < |hunks|
    ensures groups[k].lastLine < |lines| && hunks[k].at + |hunks[k].removed| == lines[groups[k].lastLine].end
  {
    assert HunkAt(old_, new_, lines, groups, hunks, k);
    HunkExtent(old_, new_, lines, groups[k], hunks[k], LineDrift(hunks, k));
  }

  lemma RegionOf(content: Bytes, updated: Bytes, req: Request, occs: seq<Occurrence>, lines: seq<Span>,
                 groups: seq<Group>, cuts: seq<nat>, hunks: seq<Hunk>, k: nat)
    requires Working(content, updated, req, occs, lines, groups, cuts, hunks) && k < |hunks|
    ensures k + 1 < |cuts| && 0 < cuts[k + 1] <= |occs|
    ensures Region(content, updated, hunks[k], occs[cuts[k + 1] - 1])
  {
    HunkTakes(content, updated, req, occs, lines, groups, cuts, hunks, k);
    AddedEnds(content, updated, occs, lines, groups, cuts, hunks, k);
    RestIsMoved(content, updated, occs, lines, groups, cuts, k);
    ExtentOf(content, updated, lines, groups, hunks, k);
  }

  lemma LastAdded(updated: Bytes, h: Hunk, end: int)
    requires AddedTo(updated, h, end) && h.added != []
    ensures h.added[|h.added| - 1] == updated[end - 1]
  {
    assert updated[end - |h.added|..end][|h.added| - 1] == updated[end - 1];
  }

  lemma MatchEndsWith(c: Bytes, pat: Bytes, at: nat)
    requires MatchAt(c, pat, at) && pat != []
    ensures c[at + |pat| - 1] == pat[|pat| - 1]
  {
    assert c[at..at + |pat|][|pat| - 1] == pat[|pat| - 1];
  }

  /** A kept end of line, or the new string's own, closes the region. */
  lemma RegionIsClosed(content: Bytes, updated: Bytes, req: Request, h: Hunk, o: Occurrence)
    requires req.oldStr != [] && Holds(content, updated, req.oldStr, req.newStr, o) && Region(content, updated, h, o)
    requires !EndsLine(req.oldStr) || EndsLine(req.newStr)
    ensures Closed(h.added) || ReachesEnd(content, h)
  {
    var e := h.at + |h.removed|;
    if h.added != [] {
      LastAdded(updated, h, e + DriftAfter(o));
    }
    MatchEndsWith(content, req.oldStr, o.oldStart);
    if o.oldEnd < e {
      assert content[e - 1] == updated[e - 1 + DriftAfter(o)];
    } else if EndsLine(req.newStr) {
      MatchEndsWith(updated, req.newStr, o.newStart);
    }
  }

  lemma SafeHeadersAreRight(max: nat, content: Bytes, req: Request, updated: Bytes, hunks: seq<Hunk>)
    requires Answered(max, content, req, updated, hunks) && (!EndsLine(req.oldStr) || EndsLine(req.newStr))
    ensures HeadersRight(content, updated, hunks)
  {
    var occs, lines, groups, cuts := WorkingOf(max, content, req, updated, hunks);
    HunksAreLaid(content, updated, lines, groups, hunks);
    forall k | 0 <= k < |hunks|
      ensures Closed(hunks[k].added) || ReachesEnd(content, hunks[k])
    {
      RegionOf(content, updated, req, occs, lines, groups, cuts, hunks, k);
      assert OccurrenceOk(content, updated, req.oldStr, req.newStr, occs, cuts[k + 1] - 1);
      RegionIsClosed(content, updated, req, hunks[k], occs[cuts[k + 1] - 1]);
    }
    HeadersRightIff(content, updated, hunks);
  }

  // ------------------------------------------------ what never happens

  lemma {:induction false} CountIsNewlines(c: Bytes, i: nat)
    requires i <= |c|
    ensures CountFrom(c, [LF], i) == NewlinesIn(c, i, |c|)
    decreases |c| - i
  {
    if i < |c| {
      CountIsNewlines(c, i + 1);
      NewlinesSplit(c, i, i + 1, |c|);
      assert NewlinesIn(c, i, i) == 0;
      assert MatchAt(c, [LF], i) <==> c[i] == LF by {
        assert c[i..i + 1] == [c[i]];
      }
    }
  }

  lemma {:induction false} CrlfsAreNewlines(c: Bytes, n: nat)
    requires n <= |c|
    ensures Crlfs(c, n) <= NewlinesIn(c, 0, n)
  {
    if n > 0 {
      CrlfsAreNewlines(c, n - 1);
    }
  }

  /** A file with a single newline has one kind of ending, which a string with both
      kinds disagrees with. */
  lemma MixedIsRefused(max: nat, content: Bytes, req: Request)
    requires req.oldStr == [LF] && !req.all && Crlfs(req.newStr, |req.newStr|) > 0 && BareLfs(req.newStr) > 0
    ensures Edit(max, content, req).Refused?
  {
    CountIsNewlines(content, 0);
    CrlfsAreNewlines(content, |content|);
    if LF !in req.newStr {
      NoNewlines(req.newStr, 0, |req.newStr|);
    }
  }

  /** The good half: whatever the file, the line numbers are right. */
  lemma ApartMeansRight(max: nat, content: Bytes, req: Request, updated: Bytes, hunks: seq<Hunk>)
    requires KeepsLinesApart(req) && Answered(max, content, req, updated, hunks)
    ensures HeadersRight(content, updated, hunks)
  {
    if !EndsLine(req.oldStr) || EndsLine(req.newStr) {
      SafeHeadersAreRight(max, content, req, updated, hunks);
    } else {
      MixedIsRefused(max, content, req);
      assert false;
    }
  }

  // -------------------------------------------- where they are not right

  lemma FirstIsBefore(content: Bytes, updated: Bytes, occs: seq<Occurrence>, a: nat, z: nat)
    requires Edits(content, updated, occs) && a <= z < |occs|
    ensures occs[a].newStart <= occs[z].newStart
  {
    assert RangeOk(content, updated, occs, z);
    if a < z {
      NewAscends(content, updated, occs, a, z - 1);
    }
  }

  /** The last hunk takes in the last occurrence. */
  lemma LastHunk(content: Bytes, updated: Bytes, req: Request, occs: seq<Occurrence>, lines: seq<Span>,
                 groups: seq<Group>, cuts: seq<nat>, hunks: seq<Hunk>)
    returns (k: nat)
    requires Working(content, updated, req, occs, lines, groups, cuts, hunks) && occs != []
    ensures k < |hunks| && k + 1 < |cuts| && cuts[k + 1] == |occs|
  {
    k := |hunks| - 1;
  }

  /** A last hunk left open in front of more text has a wrong header. */
  lemma OpenIsWrong(content: Bytes, updated: Bytes, req: Request, occs: seq<Occurrence>, lines: seq<Span>,
                    groups: seq<Group>, cuts: seq<nat>, hunks: seq<Hunk>, k: nat)
    requires Working(content, updated, req, occs, lines, groups, cuts, hunks) && k < |hunks|
    requires !Closed(hunks[k].added) && !ReachesEnd(content, hunks[k])
    ensures !HeadersRight(content, updated, hunks)
  {
    HunksAreLaid(content, updated, lines, groups, hunks);
    HeadersRightIff(content, updated, hunks);
  }

  /** Replacing a line's end by a string without one leaves the region open. */
  lemma RegionIsOpen(content: Bytes, updated: Bytes, req: Request, h: Hunk, o: Occurrence)
    requires Holds(content, updated, req.oldStr, req.newStr, o) && Region(content, updated, h, o)
    requires EndsLine(req.oldStr) && req.newStr != [] && !EndsLine(req.newStr) && content != [] && !EndsLine(content)
    requires h.added != []
    ensures !Closed(h.added) && !ReachesEnd(content, h)
  {
    MatchEndsWith(content, req.oldStr, o.oldStart);
    MatchEndsWith(updated, req.newStr, o.newStart);
    LastAdded(updated, h, h.at + |h.removed| + DriftAfter(o));
  }

  /** A hunk that puts in a string is not empty. */
  lemma AddedIsNotEmpty(content: Bytes, updated: Bytes, req: Request, occs: seq<Occurrence>, h: Hunk, a: nat, z: nat)
    requires Takes(content, occs, h, a, z) && Edits(content, updated, occs) && req.newStr != []
    requires Holds(content, updated, req.oldStr, req.newStr, occs[z])
    ensures h.added != []
  {
    FirstIsBefore(content, updated, occs, a, z);
  }

  /** The next line is joined, which the last header still counts on its own. */
  lemma JoiningIsWrong(max: nat, content: Bytes, req: Request, updated: Bytes, hunks: seq<Hunk>)
    requires Answered(max, content, req, updated, hunks) && EndsLine(req.oldStr)
    requires req.newStr != [] && !EndsLine(req.newStr) && content != [] && !EndsLine(content)
    ensures !HeadersRight(content, updated, hunks)
  {
    var occs, lines, groups, cuts := WorkingOf(max, content, req, updated, hunks);
    EditedMeansChanged(max, content, req);
    var k := LastHunk(content, updated, req, occs, lines, groups, cuts, hunks);
    assert OccurrenceOk(content, updated, req.oldStr, req.newStr, occs, |occs| - 1);
    RegionOf(content, updated, req, occs, lines, groups, cuts, hunks, k);
    HunkTakes(content, updated, req, occs, lines, groups, cuts, hunks, k);
    AddedIsNotEmpty(content, updated, req, occs, hunks[k], cuts[k], |occs| - 1);
    RegionIsOpen(content, updated, req, hunks[k], occs[|occs| - 1]);
    OpenIsWrong(content, updated, req, occs, lines, groups, cuts, hunks, k);
  }

  // ------------------------------------ files that show they are not right

  lemma {:induction false} Ascii(b: Bytes, i: nat)
    requires forall k :: 0 <= k < |b| ==> b[k] < 0x80
    ensures Utf8.ValidFrom(b, i)
    decreases |b| - i
  {
    if i < |b| {
      Ascii(b, i + 1);
    }
  }

  lemma CountsOne(c: Bytes, pat: Bytes, at: nat)
    requires pat != [] && MatchAt(c, pat, at)
    requires forall k: nat :: k < at || at + |pat| <= k ==> !MatchAt(c, pat, k)
    ensures Count(c, pat) == 1
  {
    CountsFrom(c, pat, 0, at);
    CountsFrom(c, pat, at + |pat|, |c|);
  }

  lemma {:induction false} HasCrlf(c: Bytes, i: nat, n: nat)
    requires i < n <= |c| && IsCrlf(c, i)
    ensures Crlfs(c, n) > 0
  {
    if i < n - 1 {
      HasCrlf(c, i, n - 1);
    }
  }

  lemma {:induction false} HasBareLf(c: Bytes, i: nat, n: nat)
    requires i < n <= |c| && c[i] == LF && !IsCrlf(c, i)
    ensures NewlinesIn(c, 0, n) > Crlfs(c, n)
  {
    if i < n - 1 {
      HasBareLf(c, i, n - 1);
    } else {
      CrlfsAreNewlines(c, n - 1);
    }
  }

  /** A file the edit is allowed on, whatever the limit is, if it is large enough. */
  predicate Suits(content: Bytes, req: Request) {
    && req.oldStr != [] && req.oldStr != req.newStr && Utf8.Valid(content)
    && Count(content, req.oldStr) > 0 && (req.all || Count(content, req.oldStr) == 1)
    && !EndingsDisagree(content, req.newStr)
  }

  lemma SuitsIsEdited(content: Bytes, req: Request) returns (max: nat)
    requires Suits(content, req)
    ensures Edit(max, content, req).Edited?
  {
    var grown := Grown(|content|, Count(content, req.oldStr), req);
    max := if grown > |content| then grown else |content|;
  }

  const B: Byte := 98

  /** Behind a line's end, one line with the other kind of end and an open one. */
  function OtherLine(oldStr: Bytes): Bytes {
    if |oldStr| >= 2 && oldStr[|oldStr| - 2] == CR then [B, LF, B] else [B, CR, LF, B]
  }

  lemma NoMatchBehind(oldStr: Bytes, k: nat)
    requires EndsLine(oldStr) && |oldStr| >= 2 && |oldStr| <= k
    ensures !MatchAt(oldStr + OtherLine(oldStr), oldStr, k)
  {
    var c := oldStr + OtherLine(oldStr);
    var n := |oldStr|;
    assert k + n <= |c| ==> c[k..k + n][n - 1] == c[k + n - 1] && c[k..k + n][n - 2] == c[k + n - 2];
  }

  lemma BothKinds(oldStr: Bytes)
    requires EndsLine(oldStr)
    ensures var c := oldStr + OtherLine(oldStr);
            Crlfs(c, |c|) > 0 && BareLfs(c) > 0
  {
    var c := oldStr + OtherLine(oldStr);
    var n := |oldStr|;
    assert c[n - 1] == LF && (n >= 2 ==> c[n - 2] == oldStr[n - 2]);
    if IsCrlf(c, n - 1) {
      HasCrlf(c, n - 1, |c|);
      HasBareLf(c, n + 1, |c|);
    } else {
      HasBareLf(c, n - 1, |c|);
      HasCrlf(c, n + 2, |c|);
    }
  }

  /** The file is the old string and a line with the other kind of ending, so no
      new string disagrees with it. */
  lemma MixedFileSuits(req: Request) returns (content: Bytes)
    requires Utf8.Valid(req.oldStr) && EndsLine(req.oldStr) && req.newStr != req.oldStr
    requires req.oldStr != [LF] || req.all
    ensures Suits(content, req) && content != [] && !EndsLine(content)
  {
    content := req.oldStr + OtherLine(req.oldStr);
    Ascii(OtherLine(req.oldStr), 0);
    ValidConcat(req.oldStr, OtherLine(req.oldStr), 0);
    BothKinds(req.oldStr);
    assert MatchAt(content, req.oldStr, 0);
    if |req.oldStr| >= 2 {
      forall k: nat | |req.oldStr| <= k
        ensures !MatchAt(content, req.oldStr, k)
      {
        NoMatchBehind(req.oldStr, k);
      }
      CountsOne(content, req.oldStr, 0);
    }
  }

  lemma NewlineAlone(pre: Bytes)
    requires |pre| <= 1 && LF !in pre
    ensures var c := pre + [LF, B]; Count(c, [LF]) == 1 && Crlfs(c, |c|) == (if pre == [CR] then 1 else 0)
  {
    var c := pre + [LF, B];
    CountIsNewlines(c, 0);
    NoNewlines(c, 0, |pre|);
    assert NewlinesIn(c, 0, |pre| + 1) == 1 && NewlinesIn(c, 0, |pre| + 2) == 1;
    assert Crlfs(c, 0) == 0 && Crlfs(c, |pre|) == 0;
    assert Crlfs(c, |pre| + 1) == Crlfs(c, |pre| + 2);
  }

  /** A lone newline, replaced once by a string with one kind of ending. */
  lemma LoneNewlineSuits(req: Request) returns (content: Bytes)
    requires req.oldStr == [LF] && !req.all && req.newStr != req.oldStr
    requires Crlfs(req.newStr, |req.newStr|) == 0 || BareLfs(req.newStr) <= 0
    ensures Suits(content, req) && content != [] && !EndsLine(content)
  {
    var pre: Bytes := if Crlfs(req.newStr, |req.newStr|) == 0 then [] else [CR];
    content := pre + [LF, B];
    Ascii(content, 0);
    NewlineAlone(pre);
    CountIsNewlines(content, 0);
  }

  lemma NoMatchInOne(c: Bytes, pat: Bytes, k: nat)
    requires EndsLine(pat) && c != [] && c[|c| - 1] != LF && |c| - 1 <= k
    ensures !MatchAt(c, pat, k)
  {
    if k + |pat| <= |c| {
      assert c[k..k + |pat|] == [c[|c| - 1]];
    }
  }

  /** A byte before the old string and one behind it, in a file where nothing else is. */
  function Framed(oldStr: Bytes): Bytes
    requires oldStr != []
  {
    [if oldStr[0] == 97 then B else 97] + oldStr + [B]
  }

  lemma FramedSuits(req: Request)
    requires Utf8.Valid(req.oldStr) && EndsLine(req.oldStr) && req.newStr == []
    ensures Suits(Framed(req.oldStr), req) && Count(Framed(req.oldStr), req.oldStr) == 1
  {
    var c := Framed(req.oldStr);
    var n := |req.oldStr|;
    Ascii([c[0]], 0);
    Ascii([B], 0);
    ValidConcat([c[0]], req.oldStr, 0);
    ValidConcat([c[0]] + req.oldStr, [B], 0);
    assert MatchAt(c, req.oldStr, 1);
    assert !MatchAt(c, req.oldStr, 0) by {
      assert c[0..n][0] == c[0];
    }
    forall k: nat | 1 + n <= k
      ensures !MatchAt(c, req.oldStr, k)
    {
      NoMatchInOne(c, req.oldStr, k);
    }
    CountsOne(c, req.oldStr, 1);
  }

  lemma FramedOccurrence(updated: Bytes, req: Request, occs: seq<Occurrence>)
    requires EndsLine(req.oldStr) && req.newStr == [] && |occs| == 1
    requires Tracks(Framed(req.oldStr), updated, req.oldStr, [], occs)
    ensures occs[0].oldStart == 1 == occs[0].newStart && occs[0].newEnd == 1 && occs[0].oldEnd == 1 + |req.oldStr|
    ensures |updated| > 0 && updated[0] == Framed(req.oldStr)[0]
  {
    var c, o := Framed(req.oldStr), occs[0];
    assert OccurrenceOk(c, updated, req.oldStr, [], occs, 0);
    assert MatchAt(c, req.oldStr, 1);
    assert !MatchAt(c, req.oldStr, 0) by {
      assert c[0..|req.oldStr|][0] == c[0];
    }
    assert updated[0..o.newStart][0] == c[0..o.oldStart][0];
  }

  lemma StartsLine(content: Bytes, updated: Bytes, lines: seq<Span>, groups: seq<Group>, hunks: seq<Hunk>, k: nat)
    requires Made(content, updated, lines, groups, hunks) && k < |hunks|
    ensures hunks[k].at > 0 ==> hunks[k].at <= |content| && content[hunks[k].at - 1] == LF
  {
    assert HunkAt(content, updated, lines, groups, hunks, k);
    HunkExtent(content, updated, lines, groups[k], hunks[k], LineDrift(hunks, k));
    if hunks[k].at > 0 {
      LineStartsAfterNewline(content, lines, groups[k].firstLine);
    }
  }

  lemma FramedIsOpen(content: Bytes, updated: Bytes, req: Request, h: Hunk, occs: seq<Occurrence>)
    requires EndsLine(req.oldStr) && content == Framed(req.oldStr) && |occs| == 1
    requires occs[0].oldStart == 1 == occs[0].newStart && occs[0].newEnd == 1 && occs[0].oldEnd == 1 + |req.oldStr|
    requires |updated| > 0 && updated[0] == content[0] && h.at == 0
    requires Takes(content, occs, h, 0, 0) && Region(content, updated, h, occs[0])
    ensures !Closed(h.added) && !ReachesEnd(content, h)
  {
    LastAdded(updated, h, h.at + |h.removed| + DriftAfter(occs[0]));
  }

  /** Removing a line's end joins the next line to what stood before. */
  lemma RemovingIsWrong(max: nat, content: Bytes, req: Request, updated: Bytes, hunks: seq<Hunk>)
    requires Utf8.Valid(req.oldStr) && EndsLine(req.oldStr) && req.newStr == [] && content == Framed(req.oldStr)
    requires Answered(max, content, req, updated, hunks)
    ensures !HeadersRight(content, updated, hunks)
  {
    FramedSuits(req);
    var occs, lines, groups, cuts := WorkingOf(max, content, req, updated, hunks);
    FramedOccurrence(updated, req, occs);
    var k := LastHunk(content, updated, req, occs, lines, groups, cuts, hunks);
    FramedRegion(content, updated, req, occs, lines, groups, cuts, hunks, k);
    FramedIsOpen(content, updated, req, hunks[k], occs);
    OpenIsWrong(content, updated, req, occs, lines, groups, cuts, hunks, k);
  }

  /** With one occurrence a hunk takes in that one. */
  lemma SoleRegion(content: Bytes, updated: Bytes, req: Request, occs: seq<Occurrence>, lines: seq<Span>,
                   groups: seq<Group>, cuts: seq<nat>, hunks: seq<Hunk>, k: nat)
    requires Working(content, updated, req, occs, lines, groups, cuts, hunks) && k < |hunks| && |occs| == 1
    ensures Takes(content, occs, hunks[k], 0, 0) && Region(content, updated, hunks[k], occs[0])
  {
    RegionOf(content, updated, req, occs, lines, groups, cuts, hunks, k);
    HunkTakes(content, updated, req, occs, lines, groups, cuts, hunks, k);
    var a, z := cuts[k], cuts[k + 1] - 1;
    assert a <= z < 1;
  }

  lemma FramedRegion(content: Bytes, updated: Bytes, req: Request, occs: seq<Occurrence>, lines: seq<Span>,
                     groups: seq<Group>, cuts: seq<nat>, hunks: seq<Hunk>, k: nat)
    requires Working(content, updated, req, occs, lines, groups, cuts, hunks) && k < |hunks| && |occs| == 1
    requires req.oldStr != [] && content == Framed(req.oldStr) && occs[0].oldStart == 1
    ensures hunks[k].at == 0 && Takes(content, occs, hunks[k], 0, 0) && Region(content, updated, hunks[k], occs[0])
  {
    SoleRegion(content, updated, req, occs, lines, groups, cuts, hunks, k);
    StartsLine(content, updated, lines, groups, hunks, k);
    FramedStart(content, req.oldStr, hunks[k], occs);
  }

  lemma FramedStart(content: Bytes, oldStr: Bytes, h: Hunk, occs: seq<Occurrence>)
    requires oldStr != [] && content == Framed(oldStr) && Takes(content, occs, h, 0, 0) && occs[0].oldStart == 1
    requires h.at > 0 ==> h.at <= |content| && content[h.at - 1] == LF
    ensures h.at == 0
  {
  }

  // ---------------------------------------------------- the whole answer

  /** The bad half: some file the edit is allowed on gets a wrong line number. */
  lemma SomeFileIsMiscounted(req: Request) returns (max: nat, content: Bytes, updated: Bytes, hunks: seq<Hunk>)
    requires Utf8.Valid(req.oldStr) && !KeepsLinesApart(req)
    ensures Answered(max, content, req, updated, hunks) && !HeadersRight(content, updated, hunks)
  {
    if req.newStr == [] {
      content := Framed(req.oldStr);
      FramedSuits(req);
    } else if req.oldStr != [LF] || req.all {
      content := MixedFileSuits(req);
    } else {
      content := LoneNewlineSuits(req);
    }
    max := SuitsIsEdited(content, req);
    updated := Edit(max, content, req).updated;
    hunks := AnswerExists(max, content, req);
    if req.newStr == [] {
      RemovingIsWrong(max, content, req, updated, hunks);
    } else {
      JoiningIsWrong(max, content, req, updated, hunks);
    }
  }

  /** For a request in UTF-8 the diff's line numbers are right for every file and
      every limit exactly when the old string ends inside a line or the new one ends
      one, the requests no file accepts aside. */
  lemma HeadersRightForEveryFileIff(req: Request)
    requires Utf8.Valid(req.oldStr)
    ensures KeepsLinesApart(req)
            <==> forall max: nat, content, updated, hunks :: Answered(max, content, req, updated, hunks)
                                                            ==> HeadersRight(content, updated, hunks)
  {
    if KeepsLinesApart(req) {
      forall max: nat, content, updated, hunks | Answered(max, content, req, updated, hunks)
        ensures HeadersRight(content, updated, hunks)
      {
        ApartMeansRight(max, content, req, updated, hunks);
      }
    } else {
      var max, content, updated, hunks := SomeFileIsMiscounted(req);
    }
  }
}
