/** internal/agent/fs/diff.go: unifiedDiff up to rendering. A hunk is its header
    and its four blocks; eliding long lines and trimming the body are left out.
  */
module Hunks {
  import opened Bytes
  import opened Lines
  import opened Replace
  import opened Diff
  import EditFile

  /** One hunk. `at` is where its changed region starts in the old content; line
      numbers are the header's own, counted from one. */
  datatype Hunk = Hunk(oldLine: nat, oldCount: nat, newLine: int, newCount: nat, at: nat,
                       before: Bytes, removed: Bytes, added: Bytes, after: Bytes)

  // ------------------------------------------------------- byte regions

  /** Where the text left alone before group k begins, and by how much it has moved. */
  function ResumeAt(lines: seq<Span>, groups: seq<Group>, k: nat): (nat, int)
    requires k <= |groups| && (k > 0 ==> groups[k - 1].lastLine < |lines|)
  {
    if k == 0 then (0, 0) else (lines[groups[k - 1].lastLine].end, groups[k - 1].driftAfter)
  }

  lemma SameSlices(b: Bytes, c: Bytes, i: nat, i': nat, n: nat)
    requires i + n <= |b| && i' + n <= |c| && b[i..i + n] == c[i'..i' + n]
    ensures Moved(b, c, i, i + n, i' - i)
  {
    forall p | i <= p < i + n
      ensures b[p] == c[p + (i' - i)]
    {
      assert b[i..i + n][p - i] == c[i'..i' + n][p - i];
    }
  }

  /** Before occurrence n everything since the previous one has moved by one drift. */
  lemma GapMoved(old_: Bytes, new_: Bytes, occs: seq<Occurrence>, n: nat)
    requires Edits(old_, new_, occs) && n <= |occs|
    ensures var from := GapStart(occs, n);
            Moved(old_, new_, from.0, if n < |occs| then occs[n].oldStart else |old_|, from.1 - from.0)
    ensures n < |occs| ==> DriftBefore(occs[n]) == GapStart(occs, n).1 - GapStart(occs, n).0
    ensures n == |occs| ==> |new_| - |old_| == GapStart(occs, n).1 - GapStart(occs, n).0
  {
    var from := GapStart(occs, n);
    if n < |occs| {
      assert RangeOk(old_, new_, occs, n);
      assert |old_[from.0..occs[n].oldStart]| == |new_[from.1..occs[n].newStart]|;
      SameSlices(old_, new_, from.0, from.1, occs[n].oldStart - from.0);
    } else {
      assert |old_[from.0..]| == |new_[from.1..]|;
      assert old_[from.0..|old_|] == old_[from.0..] && new_[from.1..|new_|] == new_[from.1..];
      SameSlices(old_, new_, from.0, from.1, |old_| - from.0);
    }
  }

  lemma {:induction false} NewAscends(old_: Bytes, new_: Bytes, occs: seq<Occurrence>, i: nat, j: nat)
    requires Edits(old_, new_, occs) && i <= j < |occs|
    ensures occs[i].newStart <= occs[j].newEnd
    decreases j
  {
    assert RangeOk(old_, new_, occs, j);
    if i < j {
      NewAscends(old_, new_, occs, i, j - 1);
    }
  }

  ghost predicate Setting(old_: Bytes, new_: Bytes, occs: seq<Occurrence>, lines: seq<Span>, groups: seq<Group>, cuts: seq<nat>) {
    Edits(old_, new_, occs) && AreLines(old_, lines) && Grouping(lines, occs, groups, cuts)
  }

  /** A group's lines, and the text up to them. */
  predicate Placed(old_: Bytes, new_: Bytes, lines: seq<Span>, groups: seq<Group>, k: nat)
    requires k < |groups| && (k > 0 ==> groups[k - 1].lastLine < |lines|)
  {
    var g, from := groups[k], ResumeAt(lines, groups, k);
    && g.firstLine <= g.lastLine < |lines|
    && var s, e := lines[g.firstLine].start, lines[g.lastLine].end;
    && s < e <= |old_| && 0 <= s + g.driftBefore <= e + g.driftAfter <= |new_|
    && from.1 == g.driftBefore && Moved(old_, new_, from.0, s, from.1)
  }

  ghost predicate AllPlaced(old_: Bytes, new_: Bytes, lines: seq<Span>, groups: seq<Group>) {
    && (forall k :: 0 <= k < |groups| ==> groups[k].lastLine < |lines|)
    && (forall k :: 0 <= k < |groups| ==> Placed(old_, new_, lines, groups, k))
    && (forall k :: 0 <= k < |groups| - 1 ==> ApartAt(groups, k))
    && var from := ResumeAt(lines, groups, |groups|);
    Moved(old_, new_, from.0, |old_|, from.1) && |new_| == |old_| + from.1
  }

  /** Lines that end before the next group stay before it. */
  lemma EndsBefore(b: Bytes, lines: seq<Span>, i: nat, j: nat)
    requires AreLines(b, lines) && i < j < |lines|
    ensures lines[i].end <= lines[j].start < lines[j].end && lines[i].start < lines[i].end
  {
    SpansAscend(b, lines, i, j);
    assert LineOk(b, lines[i], false) && LineOk(b, lines[j], j == |lines| - 1);
  }

  /** What is left of the gap between two occurrences once whole lines are taken. */
  lemma ResumesInGap(old_: Bytes, occs: seq<Occurrence>, lines: seq<Span>, groups: seq<Group>, cuts: seq<nat>, k: nat)
    requires AreLines(old_, lines) && Grouping(lines, occs, groups, cuts) && k <= |groups|
    ensures k > 0 ==> groups[k - 1].lastLine < |lines|
    ensures cuts[k] <= |occs| && (k < |groups| ==> cuts[k] < |occs|)
    ensures var gap, from := GapStart(occs, cuts[k]), ResumeAt(lines, groups, k);
            from.1 == gap.1 - gap.0 && gap.0 <= from.0 <= |old_|
  {
    if k > 0 {
      assert CoversAt(lines, occs, groups, cuts, k - 1);
      assert LineOk(old_, lines[groups[k - 1].lastLine], groups[k - 1].lastLine == |lines| - 1);
    }
    if k < |groups| {
      assert CoversAt(lines, occs, groups, cuts, k);
    }
  }

  lemma GapReaches(old_: Bytes, occs: seq<Occurrence>, lines: seq<Span>, groups: seq<Group>, cuts: seq<nat>, k: nat)
    requires AreLines(old_, lines) && Grouping(lines, occs, groups, cuts) && k < |groups|
    ensures groups[k].firstLine <= groups[k].lastLine < |lines| && (k > 0 ==> groups[k - 1].lastLine < |lines|)
    ensures cuts[k] < |occs|
    ensures ResumeAt(lines, groups, k).0 <= lines[groups[k].firstLine].start <= occs[cuts[k]].oldStart
    ensures groups[k].driftBefore == DriftBefore(occs[cuts[k]])
  {
    assert CoversAt(lines, occs, groups, cuts, k);
    if k > 0 {
      assert CoversAt(lines, occs, groups, cuts, k - 1);
      assert ApartAt(groups, k - 1);
      EndsBefore(old_, lines, groups[k - 1].lastLine, groups[k].firstLine);
    }
  }

  /** The old text from group k - 1's last line to group k's first (or to the end)
      is untouched, and has moved by exactly the drift recorded on both sides. */
  lemma GapIsUntouched(old_: Bytes, new_: Bytes, occs: seq<Occurrence>, lines: seq<Span>, groups: seq<Group>, cuts: seq<nat>, k: nat)
    requires Setting(old_, new_, occs, lines, groups, cuts) && k <= |groups|
    ensures k > 0 ==> groups[k - 1].lastLine < |lines|
    ensures k < |groups| ==> groups[k].firstLine <= groups[k].lastLine < |lines|
    ensures var from := ResumeAt(lines, groups, k);
            Moved(old_, new_, from.0, if k < |groups| then lines[groups[k].firstLine].start else |old_|, from.1)
    ensures k < |groups| ==> groups[k].driftBefore == ResumeAt(lines, groups, k).1
    ensures k == |groups| ==> |new_| == |old_| + ResumeAt(lines, groups, k).1
  {
    ResumesInGap(old_, occs, lines, groups, cuts, k);
    GapMoved(old_, new_, occs, cuts[k]);
    if k < |groups| {
      GapReaches(old_, occs, lines, groups, cuts, k);
    }
  }

  lemma GroupIsPlaced(old_: Bytes, new_: Bytes, occs: seq<Occurrence>, lines: seq<Span>, groups: seq<Group>, cuts: seq<nat>, k: nat)
    requires Setting(old_, new_, occs, lines, groups, cuts) && k < |groups|
    ensures groups[k].lastLine < |lines| && (k > 0 ==> groups[k - 1].lastLine < |lines|)
    ensures Placed(old_, new_, lines, groups, k)
  {
    GapIsUntouched(old_, new_, occs, lines, groups, cuts, k);
    GapIsUntouched(old_, new_, occs, lines, groups, cuts, k + 1);
    assert CoversAt(lines, occs, groups, cuts, k);
    NewAscends(old_, new_, occs, cuts[k], cuts[k + 1] - 1);
    assert RangeOk(old_, new_, occs, cuts[k]) && RangeOk(old_, new_, occs, cuts[k + 1] - 1);
  }

  lemma GroupsArePlaced(old_: Bytes, new_: Bytes, occs: seq<Occurrence>, lines: seq<Span>, groups: seq<Group>, cuts: seq<nat>)
    requires Setting(old_, new_, occs, lines, groups, cuts)
    ensures AllPlaced(old_, new_, lines, groups)
  {
    GapIsUntouched(old_, new_, occs, lines, groups, cuts, |groups|);
    forall k | 0 <= k < |groups|
      ensures groups[k].lastLine < |lines|
    {
      GroupIsPlaced(old_, new_, occs, lines, groups, cuts, k);
    }
    forall k | 0 <= k < |groups|
      ensures Placed(old_, new_, lines, groups, k)
    {
      GroupIsPlaced(old_, new_, occs, lines, groups, cuts, k);
    }
  }

  // --------------------------------------------------------------- hunks

  /** renderLines on a block: how many display lines it makes. */
  method RenderedLines(b: Bytes) returns (n: nat)
    ensures n == LineCount(b)
  {
    if |b| == 0 {
      return 0;
    }
    var spans := LineSpans(b);
    SpansCountLines(b, spans);
    return |spans|;
  }

  function FirstShown(g: Group): nat { if g.firstLine >= ContextLines then g.firstLine - ContextLines else 0 }

  function LastShown(lines: seq<Span>, g: Group): nat
    requires g.lastLine < |lines|
  {
    if g.lastLine + ContextLines < |lines| then g.lastLine + ContextLines else |lines| - 1
  }

  predicate BlocksFit(old_: Bytes, new_: Bytes, lines: seq<Span>, g: Group) {
    && g.firstLine <= g.lastLine < |lines|
    && var s, e := lines[g.firstLine].start, lines[g.lastLine].end;
    && lines[FirstShown(g)].start <= s <= e <= lines[LastShown(lines, g)].end <= |old_|
    && 0 <= s + g.driftBefore <= e + g.driftAfter <= |new_|
  }

  /** The hunk of one group, given the line drift so far. */
  function HunkOf(old_: Bytes, new_: Bytes, lines: seq<Span>, g: Group, drift: int): Hunk
    requires BlocksFit(old_, new_, lines, g)
  {
    var s, e := lines[g.firstLine].start, lines[g.lastLine].end;
    var before := old_[lines[FirstShown(g)].start..s];
    var removed := old_[s..e];
    var added := new_[s + g.driftBefore..e + g.driftAfter];
    var after := old_[e..lines[LastShown(lines, g)].end];
    Hunk(FirstShown(g) + 1, LineCount(before) + LineCount(removed) + LineCount(after),
         FirstShown(g) + 1 + drift, LineCount(before) + LineCount(added) + LineCount(after),
         s, before, removed, added, after)
  }

  /** newLineDrift after the first k hunks. */
  function LineDrift(hunks: seq<Hunk>, k: nat): int
    requires k <= |hunks|
  {
    if k == 0 then 0
    else LineDrift(hunks, k - 1) + LineCount(hunks[k - 1].added) - LineCount(hunks[k - 1].removed)
  }

  lemma {:induction false} LineDriftStays(hunks: seq<Hunk>, h: Hunk, k: nat)
    requires k <= |hunks|
    ensures LineDrift(hunks + [h], k) == LineDrift(hunks, k)
  {
    if k > 0 {
      LineDriftStays(hunks, h, k - 1);
    }
  }

  predicate HunkMatches(old_: Bytes, new_: Bytes, lines: seq<Span>, g: Group, h: Hunk, drift: int) {
    BlocksFit(old_, new_, lines, g) && h == HunkOf(old_, new_, lines, g, drift)
  }

  predicate HunkAt(old_: Bytes, new_: Bytes, lines: seq<Span>, groups: seq<Group>, hunks: seq<Hunk>, k: nat)
    requires k < |hunks| <= |groups|
  {
    HunkMatches(old_, new_, lines, groups[k], hunks[k], LineDrift(hunks, k))
  }

  /** Hunks and groups correspond. */
  ghost predicate HunksUpTo(old_: Bytes, new_: Bytes, lines: seq<Span>, groups: seq<Group>, hunks: seq<Hunk>) {
    && |hunks| <= |groups|
    && forall k :: 0 <= k < |hunks| ==> HunkAt(old_, new_, lines, groups, hunks, k)
  }

  lemma OneMoreHunk(old_: Bytes, new_: Bytes, lines: seq<Span>, groups: seq<Group>, hunks: seq<Hunk>, h: Hunk)
    requires HunksUpTo(old_, new_, lines, groups, hunks) && |hunks| < |groups|
    requires HunkMatches(old_, new_, lines, groups[|hunks|], h, LineDrift(hunks, |hunks|))
    ensures HunksUpTo(old_, new_, lines, groups, hunks + [h])
  {
    var hunks' := hunks + [h];
    forall k | 0 <= k < |hunks'|
      ensures HunkAt(old_, new_, lines, groups, hunks', k)
    {
      LineDriftStays(hunks, h, k);
      if k < |hunks| {
        assert HunkAt(old_, new_, lines, groups, hunks, k);
      }
    }
  }

  lemma PlacedFits(old_: Bytes, new_: Bytes, lines: seq<Span>, groups: seq<Group>, k: nat)
    requires AreLines(old_, lines) && AllPlaced(old_, new_, lines, groups) && k < |groups|
    ensures BlocksFit(old_, new_, lines, groups[k])
  {
    var g := groups[k];
    assert Placed(old_, new_, lines, groups, k);
    if FirstShown(g) < g.firstLine {
      EndsBefore(old_, lines, FirstShown(g), g.firstLine);
    }
    if g.lastLine < LastShown(lines, g) {
      EndsBefore(old_, lines, g.lastLine, LastShown(lines, g));
    }
    assert LineOk(old_, lines[LastShown(lines, g)], LastShown(lines, g) == |lines| - 1);
  }

  // ------------------------------------------------- where hunks lie

  function EndOf(hunks: seq<Hunk>, k: nat): nat
    requires k <= |hunks|
  {
    if k == 0 then 0 else hunks[k - 1].at + |hunks[k - 1].removed|
  }

  /** How far the text before hunk k has moved. */
  function Shift(hunks: seq<Hunk>, k: nat): int
    requires k <= |hunks|
  {
    if k == 0 then 0 else Shift(hunks, k - 1) + |hunks[k - 1].added| - |hunks[k - 1].removed|
  }

  predicate Side(b: Bytes, from: int, block: Bytes) {
    0 <= from && Moved(block, b, 0, |block|, from)
  }

  lemma SideJoins(b: Bytes, from: int, x: Bytes, y: Bytes)
    requires Side(b, from, x) && Side(b, from + |x|, y)
    ensures Side(b, from, x + y)
  {
    forall p | 0 <= p < |x + y|
      ensures (x + y)[p] == b[p + from]
    {
      if p < |x| {
        assert x[p] == b[p + from];
      } else {
        assert y[p - |x|] == b[p - |x| + (from + |x|)];
      }
    }
  }

  lemma SideMoved(b: Bytes, c: Bytes, from: int, x: Bytes, d: int)
    requires Side(b, from, x) && Moved(b, c, from, from + |x|, d)
    ensures Side(c, from + d, x)
  {
  }

  /** A hunk's blocks in the two files, d being the shift of the text before it. */
  predicate TextLaid(old_: Bytes, new_: Bytes, h: Hunk, from: nat, d: int) {
    && h.removed != [] && from <= h.at - |h.before|
    && Side(old_, h.at - |h.before|, h.before) && Side(old_, h.at, h.removed)
    && Side(old_, h.at + |h.removed|, h.after)
    && Moved(old_, new_, from, h.at, d) && Side(new_, h.at + d, h.added)
  }

  /** A hunk's lines: whole ones, and counted as the header counts them. */
  predicate LinesLaid(old_: Bytes, h: Hunk, drift: int) {
    var i := h.at - |h.before|;
    && 0 <= i <= |old_|
    && Closed(h.before) && (h.after != [] ==> Closed(h.removed))
    && (h.after == [] <==> h.at + |h.removed| == |old_|)
    && h.oldLine == NewlinesIn(old_, 0, i) + 1 && h.newLine == h.oldLine + drift
    && h.oldCount == LineCount(h.before) + LineCount(h.removed) + LineCount(h.after)
    && h.newCount == LineCount(h.before) + LineCount(h.added) + LineCount(h.after)
  }

  /** The next hunk's context starts after this one's ends. */
  predicate Clear(h: Hunk, next: Hunk) {
    && h.after != []
    && h.at + |h.removed| + |h.after| < next.at - |next.before|
    && h.oldLine + h.oldCount < next.oldLine
  }

  predicate LaidAt(old_: Bytes, new_: Bytes, hunks: seq<Hunk>, k: nat)
    requires k < |hunks|
  {
    && TextLaid(old_, new_, hunks[k], EndOf(hunks, k), Shift(hunks, k))
    && LinesLaid(old_, hunks[k], LineDrift(hunks, k))
    && (k + 1 < |hunks| ==> Clear(hunks[k], hunks[k + 1]))
  }

  predicate TailLaid(old_: Bytes, new_: Bytes, hunks: seq<Hunk>) {
    var from, d := EndOf(hunks, |hunks|), Shift(hunks, |hunks|);
    Moved(old_, new_, from, |old_|, d) && |new_| == |old_| + d
  }

  /** How the hunks lie in the two files; see below for what follows from it. */
  ghost predicate Laid(old_: Bytes, new_: Bytes, hunks: seq<Hunk>) {
    TailLaid(old_, new_, hunks) && forall k :: 0 <= k < |hunks| ==> LaidAt(old_, new_, hunks, k)
  }

  /** Where hunk k starts in the new file. */
  function NewStart(hunks: seq<Hunk>, k: nat): int
    requires k < |hunks|
  {
    hunks[k].at + Shift(hunks, k) - |hunks[k].before|
  }

  // ------------------------------------------------- from groups to hunks

  ghost predicate Made(old_: Bytes, new_: Bytes, lines: seq<Span>, groups: seq<Group>, hunks: seq<Hunk>) {
    && AreLines(old_, lines) && AllPlaced(old_, new_, lines, groups)
    && |hunks| == |groups| && HunksUpTo(old_, new_, lines, groups, hunks)
  }

  lemma HunkExtent(old_: Bytes, new_: Bytes, lines: seq<Span>, g: Group, h: Hunk, drift: int)
    requires HunkMatches(old_, new_, lines, g, h, drift)
    ensures h.at == lines[g.firstLine].start && h.at + |h.removed| == lines[g.lastLine].end
    ensures |h.added| - |h.removed| == g.driftAfter - g.driftBefore
  {
  }

  lemma DriftOf(old_: Bytes, new_: Bytes, lines: seq<Span>, groups: seq<Group>, hunks: seq<Hunk>, k: nat)
    requires Made(old_, new_, lines, groups, hunks) && k < |hunks|
    ensures groups[k].firstLine < |lines| && groups[k].lastLine < |lines| && (k > 0 ==> groups[k - 1].lastLine < |lines|)
    ensures groups[k].driftBefore == ResumeAt(lines, groups, k).1
    ensures hunks[k].at + |hunks[k].removed| == lines[groups[k].lastLine].end
    ensures |hunks[k].added| - |hunks[k].removed| == groups[k].driftAfter - groups[k].driftBefore
  {
    assert Placed(old_, new_, lines, groups, k);
    assert HunkAt(old_, new_, lines, groups, hunks, k);
    HunkExtent(old_, new_, lines, groups[k], hunks[k], LineDrift(hunks, k));
  }

  lemma {:induction false} ShiftIsDrift(old_: Bytes, new_: Bytes, lines: seq<Span>, groups: seq<Group>, hunks: seq<Hunk>, k: nat)
    requires Made(old_, new_, lines, groups, hunks) && k <= |hunks|
    ensures (EndOf(hunks, k), Shift(hunks, k)) == ResumeAt(lines, groups, k)
  {
    if k > 0 {
      ShiftIsDrift(old_, new_, lines, groups, hunks, k - 1);
      DriftOf(old_, new_, lines, groups, hunks, k - 1);
    }
  }

  lemma SliceIsSide(b: Bytes, i: nat, j: nat)
    requires i <= j <= |b|
    ensures Side(b, i, b[i..j])
  {
  }

  /** Three lines of context never reach back to the previous group. */
  lemma ContextIsAfter(old_: Bytes, lines: seq<Span>, groups: seq<Group>, k: nat)
    requires AreLines(old_, lines) && 0 < k < |groups| && ApartAt(groups, k - 1) && groups[k].firstLine < |lines|
    ensures groups[k - 1].lastLine < |lines|
    ensures lines[groups[k - 1].lastLine].end <= lines[FirstShown(groups[k])].start
  {
    EndsBefore(old_, lines, groups[k - 1].lastLine, FirstShown(groups[k]));
  }

  lemma BlocksAreSides(old_: Bytes, new_: Bytes, lines: seq<Span>, g: Group, h: Hunk, drift: int)
    requires HunkMatches(old_, new_, lines, g, h, drift)
    ensures h.at - |h.before| == lines[FirstShown(g)].start
    ensures Side(old_, h.at - |h.before|, h.before) && Side(old_, h.at, h.removed)
    ensures Side(old_, h.at + |h.removed|, h.after) && Side(new_, h.at + g.driftBefore, h.added)
  {
    SliceIsSide(old_, lines[FirstShown(g)].start, lines[g.firstLine].start);
    SliceIsSide(old_, lines[g.firstLine].start, lines[g.lastLine].end);
    SliceIsSide(old_, lines[g.lastLine].end, lines[LastShown(lines, g)].end);
    SliceIsSide(new_, lines[g.firstLine].start + g.driftBefore, lines[g.lastLine].end + g.driftAfter);
  }

  lemma TextIsLaid(old_: Bytes, new_: Bytes, lines: seq<Span>, g: Group, h: Hunk, drift: int, from: nat, d: int)
    requires HunkMatches(old_, new_, lines, g, h, drift) && d == g.driftBefore
    requires lines[g.firstLine].start < lines[g.lastLine].end && from <= lines[FirstShown(g)].start
    requires Moved(old_, new_, from, lines[g.firstLine].start, d)
    ensures TextLaid(old_, new_, h, from, d)
  {
    HunkExtent(old_, new_, lines, g, h, drift);
    BlocksAreSides(old_, new_, lines, g, h, drift);
  }

  lemma ClosedSlice(b: Bytes, i: nat, j: nat)
    requires i <= j <= |b| && (i < j ==> b[j - 1] == LF)
    ensures Closed(b[i..j])
  {
  }

  lemma BlocksAreWhole(old_: Bytes, lines: seq<Span>, g: Group)
    requires AreLines(old_, lines) && BlocksFit(old_, old_, lines, g.(driftBefore := 0, driftAfter := 0))
    ensures Closed(old_[lines[FirstShown(g)].start..lines[g.firstLine].start])
    ensures g.lastLine < |lines| - 1 ==> && Closed(old_[lines[g.firstLine].start..lines[g.lastLine].end])
                                         && lines[g.lastLine].end < lines[LastShown(lines, g)].end
                                         && lines[g.lastLine].end < |old_|
  {
    if g.firstLine > 0 {
      assert LineOk(old_, lines[g.firstLine - 1], false) && Adjoin(lines, g.firstLine - 1);
    }
    ClosedSlice(old_, lines[FirstShown(g)].start, lines[g.firstLine].start);
    if g.lastLine < |lines| - 1 {
      EndsBefore(old_, lines, g.lastLine, LastShown(lines, g));
      EndsBefore(old_, lines, g.lastLine, |lines| - 1);
      assert LineOk(old_, lines[g.lastLine], false);
      ClosedSlice(old_, lines[g.firstLine].start, lines[g.lastLine].end);
    }
  }

  lemma LinesAreWhole(old_: Bytes, new_: Bytes, lines: seq<Span>, g: Group, h: Hunk, drift: int)
    requires AreLines(old_, lines) && HunkMatches(old_, new_, lines, g, h, drift)
    ensures Closed(h.before) && (h.after != [] ==> Closed(h.removed))
    ensures h.after == [] <==> h.at + |h.removed| == |old_|
  {
    ShownExtent(old_, new_, lines, g, h, drift);
    BlocksAreWhole(old_, lines, g);
  }

  lemma LinesAreLaid(old_: Bytes, new_: Bytes, lines: seq<Span>, g: Group, h: Hunk, drift: int)
    requires AreLines(old_, lines) && HunkMatches(old_, new_, lines, g, h, drift)
    ensures LinesLaid(old_, h, drift)
  {
    ShownExtent(old_, new_, lines, g, h, drift);
    NewlinesBefore(old_, lines, FirstShown(g));
    LinesAreWhole(old_, new_, lines, g, h, drift);
  }

  lemma ThreeSlices(b: Bytes, i: nat, j: nat, k: nat, l: nat)
    requires i <= j <= k <= l <= |b|
    ensures b[i..j] + b[j..k] + b[k..l] == b[i..l]
  {
  }

  lemma OldCountIsLines(old_: Bytes, new_: Bytes, lines: seq<Span>, g: Group, h: Hunk, drift: int)
    requires AreLines(old_, lines) && HunkMatches(old_, new_, lines, g, h, drift) && old_ != []
    ensures h.oldCount == LastShown(lines, g) + 1 - FirstShown(g)
  {
    LinesAreLaid(old_, new_, lines, g, h, drift);
    LineCountJoins3(h.before, h.removed, h.after);
    LineCountOfLines(old_, lines, FirstShown(g), LastShown(lines, g));
    ThreeSlices(old_, lines[FirstShown(g)].start, lines[g.firstLine].start, lines[g.lastLine].end, lines[LastShown(lines, g)].end);
  }

  lemma LastShownIsBefore(old_: Bytes, lines: seq<Span>, g: Group, g': Group)
    requires AreLines(old_, lines) && Apart(g, g') && g.lastLine < |lines| && g'.firstLine < |lines|
    ensures g.lastLine < LastShown(lines, g) && LastShown(lines, g) + 1 < FirstShown(g')
    ensures lines[g.lastLine].end < lines[LastShown(lines, g)].end < lines[FirstShown(g')].start
  {
    var last := LastShown(lines, g);
    EndsBefore(old_, lines, last, last + 1);
    EndsBefore(old_, lines, g.lastLine, last);
    EndsBefore(old_, lines, last + 1, FirstShown(g'));
  }

  lemma ShownExtent(old_: Bytes, new_: Bytes, lines: seq<Span>, g: Group, h: Hunk, drift: int)
    requires HunkMatches(old_, new_, lines, g, h, drift)
    ensures h.at - |h.before| == lines[FirstShown(g)].start && h.oldLine == FirstShown(g) + 1
    ensures h.at + |h.removed| == lines[g.lastLine].end
    ensures h.at + |h.removed| + |h.after| == lines[LastShown(lines, g)].end
  {
  }

  lemma HunksAreClear(old_: Bytes, new_: Bytes, lines: seq<Span>, g: Group, g': Group, h: Hunk, h': Hunk, drift: int, drift': int)
    requires AreLines(old_, lines) && Apart(g, g') && old_ != []
    requires HunkMatches(old_, new_, lines, g, h, drift) && HunkMatches(old_, new_, lines, g', h', drift')
    ensures Clear(h, h')
  {
    LastShownIsBefore(old_, lines, g, g');
    ShownExtent(old_, new_, lines, g, h, drift);
    ShownExtent(old_, new_, lines, g', h', drift');
    OldCountIsLines(old_, new_, lines, g, h, drift);
  }

  lemma HunkTextIsLaid(old_: Bytes, new_: Bytes, lines: seq<Span>, groups: seq<Group>, hunks: seq<Hunk>, k: nat)
    requires Made(old_, new_, lines, groups, hunks) && k < |hunks|
    ensures TextLaid(old_, new_, hunks[k], EndOf(hunks, k), Shift(hunks, k))
  {
    ShiftIsDrift(old_, new_, lines, groups, hunks, k);
    assert HunkAt(old_, new_, lines, groups, hunks, k) && Placed(old_, new_, lines, groups, k);
    if k > 0 {
      assert ApartAt(groups, k - 1);
      ContextIsAfter(old_, lines, groups, k);
    }
    TextIsLaid(old_, new_, lines, groups[k], hunks[k], LineDrift(hunks, k), EndOf(hunks, k), Shift(hunks, k));
  }

  lemma HunkLinesAreLaid(old_: Bytes, new_: Bytes, lines: seq<Span>, groups: seq<Group>, hunks: seq<Hunk>, k: nat)
    requires Made(old_, new_, lines, groups, hunks) && k < |hunks|
    ensures LinesLaid(old_, hunks[k], LineDrift(hunks, k))
  {
    assert HunkAt(old_, new_, lines, groups, hunks, k);
    LinesAreLaid(old_, new_, lines, groups[k], hunks[k], LineDrift(hunks, k));
  }

  lemma HunkIsClear(old_: Bytes, new_: Bytes, lines: seq<Span>, groups: seq<Group>, hunks: seq<Hunk>, k: nat)
    requires Made(old_, new_, lines, groups, hunks) && k + 1 < |hunks| && old_ != []
    ensures Clear(hunks[k], hunks[k + 1])
  {
    assert HunkAt(old_, new_, lines, groups, hunks, k) && HunkAt(old_, new_, lines, groups, hunks, k + 1);
    assert ApartAt(groups, k);
    HunksAreClear(old_, new_, lines, groups[k], groups[k + 1], hunks[k], hunks[k + 1], LineDrift(hunks, k), LineDrift(hunks, k + 1));
  }

  lemma HunkIsLaid(old_: Bytes, new_: Bytes, lines: seq<Span>, groups: seq<Group>, hunks: seq<Hunk>, k: nat)
    requires Made(old_, new_, lines, groups, hunks) && k < |hunks|
    ensures LaidAt(old_, new_, hunks, k)
  {
    HunkTextIsLaid(old_, new_, lines, groups, hunks, k);
    HunkLinesAreLaid(old_, new_, lines, groups, hunks, k);
    if k + 1 < |hunks| {
      HunkIsClear(old_, new_, lines, groups, hunks, k);
    }
  }

  lemma HunksAreLaid(old_: Bytes, new_: Bytes, lines: seq<Span>, groups: seq<Group>, hunks: seq<Hunk>)
    requires Made(old_, new_, lines, groups, hunks)
    ensures Laid(old_, new_, hunks)
  {
    ShiftIsDrift(old_, new_, lines, groups, hunks, |hunks|);
    forall k | 0 <= k < |hunks|
      ensures LaidAt(old_, new_, hunks, k)
    {
      HunkIsLaid(old_, new_, lines, groups, hunks, k);
    }
  }

  // ------------------------------------------------- exact on bytes

  /** Old from where hunk k may begin, every later changed region replaced. */
  function PatchedFrom(old_: Bytes, hunks: seq<Hunk>, k: nat): Bytes
    requires k <= |hunks|
    decreases |hunks| - k
  {
    var from := EndOf(hunks, k);
    if k == |hunks| then (if from <= |old_| then old_[from..] else [])
    else (if from <= hunks[k].at <= |old_| then old_[from..hunks[k].at] else [])
         + (hunks[k].added + PatchedFrom(old_, hunks, k + 1))
  }

  /** The old content with each hunk's new region in place of its old one. */
  function Patched(old_: Bytes, hunks: seq<Hunk>): Bytes { PatchedFrom(old_, hunks, 0) }

  lemma ThreeParts(b: Bytes, i: nat, j: nat, k: nat)
    requires i <= j <= k <= |b|
    ensures b[i..j] + (b[j..k] + b[k..]) == b[i..]
  {
    assert b[j..k] + b[k..] == b[j..];
  }

  lemma SideIsSlice(b: Bytes, from: int, block: Bytes)
    requires Side(b, from, block)
    ensures from + |block| <= |b| && block == b[from..from + |block|]
  {
    MovedSlice(block, b, 0, |block|, from);
    assert block[0..|block|] == block;
  }

  /** One hunk's step of the patch. */
  lemma OverHunk(old_: Bytes, new_: Bytes, h: Hunk, from: nat, d: int)
    requires TextLaid(old_, new_, h, from, d)
    ensures old_[from..h.at] + (h.added + new_[h.at + d + |h.added|..]) == new_[from + d..]
  {
    MovedSlice(old_, new_, from, h.at, d);
    SideIsSlice(new_, h.at + d, h.added);
    ThreeParts(new_, from + d, h.at + d, h.at + d + |h.added|);
  }

  lemma OverHunkAt(old_: Bytes, new_: Bytes, hunks: seq<Hunk>, k: nat, rest: Bytes)
    requires Laid(old_, new_, hunks) && k < |hunks|
    requires var next := EndOf(hunks, k + 1) + Shift(hunks, k + 1);
             0 <= next <= |new_| && rest == new_[next..]
    ensures EndOf(hunks, k) <= hunks[k].at <= |old_| && 0 <= EndOf(hunks, k) + Shift(hunks, k) <= |new_|
    ensures old_[EndOf(hunks, k)..hunks[k].at] + (hunks[k].added + rest) == new_[EndOf(hunks, k) + Shift(hunks, k)..]
  {
    assert LaidAt(old_, new_, hunks, k);
    OverHunk(old_, new_, hunks[k], EndOf(hunks, k), Shift(hunks, k));
  }

  lemma PatchedStep(old_: Bytes, hunks: seq<Hunk>, k: nat)
    requires k < |hunks| && EndOf(hunks, k) <= hunks[k].at <= |old_|
    ensures PatchedFrom(old_, hunks, k) == old_[EndOf(hunks, k)..hunks[k].at] + (hunks[k].added + PatchedFrom(old_, hunks, k + 1))
  {
  }

  lemma {:induction false} PatchedFromIsNew(old_: Bytes, new_: Bytes, hunks: seq<Hunk>, k: nat)
    requires Laid(old_, new_, hunks) && k <= |hunks|
    ensures 0 <= EndOf(hunks, k) + Shift(hunks, k) <= |new_|
    ensures PatchedFrom(old_, hunks, k) == new_[EndOf(hunks, k) + Shift(hunks, k)..]
    decreases |hunks| - k
  {
    var from, d := EndOf(hunks, k), Shift(hunks, k);
    if k == |hunks| {
      MovedSlice(old_, new_, from, |old_|, d);
      assert old_[from..|old_|] == old_[from..] && new_[from + d..|old_| + d] == new_[from + d..];
    } else {
      PatchedFromIsNew(old_, new_, hunks, k + 1);
      OverHunkAt(old_, new_, hunks, k, PatchedFrom(old_, hunks, k + 1));
      PatchedStep(old_, hunks, k);
    }
  }

  /** The diff is exact on bytes: putting each hunk's new region where its old
      one was gives the new content and nothing else. */
  lemma PatchIsExact(old_: Bytes, new_: Bytes, hunks: seq<Hunk>)
    requires Laid(old_, new_, hunks)
    ensures Patched(old_, hunks) == new_
  {
    PatchedFromIsNew(old_, new_, hunks, 0);
    assert new_[0..] == new_;
  }

  lemma {:induction false} LaterIsFurther(old_: Bytes, new_: Bytes, hunks: seq<Hunk>, j: nat, k: nat)
    requires Laid(old_, new_, hunks) && j < k < |hunks|
    ensures hunks[j].oldLine + hunks[j].oldCount < hunks[k].oldLine
    ensures hunks[j].at + |hunks[j].removed| + |hunks[j].after| < hunks[k].at - |hunks[k].before|
    decreases k
  {
    assert LaidAt(old_, new_, hunks, k - 1);
    if j < k - 1 {
      LaterIsFurther(old_, new_, hunks, j, k - 1);
    }
  }

  /** Where the untouched text after hunk k - 1 ends. */
  function GapEnd(old_: Bytes, hunks: seq<Hunk>, k: nat): nat
    requires k <= |hunks|
  {
    if k < |hunks| then hunks[k].at else |old_|
  }

  lemma GapIsMoved(old_: Bytes, new_: Bytes, hunks: seq<Hunk>, k: nat)
    requires Laid(old_, new_, hunks) && k <= |hunks|
    ensures Moved(old_, new_, EndOf(hunks, k), GapEnd(old_, hunks, k), Shift(hunks, k))
  {
    if k < |hunks| {
      assert LaidAt(old_, new_, hunks, k);
    }
  }

  lemma AfterFits(old_: Bytes, new_: Bytes, hunks: seq<Hunk>, k: nat)
    requires Laid(old_, new_, hunks) && k < |hunks|
    ensures hunks[k].at + |hunks[k].removed| + |hunks[k].after| <= GapEnd(old_, hunks, k + 1)
  {
    assert LaidAt(old_, new_, hunks, k);
    if k + 1 < |hunks| {
      assert LaidAt(old_, new_, hunks, k + 1);
    }
  }

  lemma NewSide(old_: Bytes, new_: Bytes, h: Hunk, from: nat, d: int, to: nat, d': int)
    requires TextLaid(old_, new_, h, from, d)
    requires var e := h.at + |h.removed|; e + |h.after| <= to && Moved(old_, new_, e, to, d')
    requires d' == d + |h.added| - |h.removed|
    ensures Side(new_, h.at + d - |h.before|, h.before + h.added + h.after)
  {
    var i := h.at - |h.before|;
    SideMoved(old_, new_, i, h.before, d);
    SideMoved(old_, new_, h.at + |h.removed|, h.after, d');
    SideJoins(new_, i + d, h.before, h.added);
    SideJoins(new_, i + d, h.before + h.added, h.after);
  }

  lemma OldSide(old_: Bytes, new_: Bytes, h: Hunk, from: nat, d: int)
    requires TextLaid(old_, new_, h, from, d)
    ensures Side(old_, h.at - |h.before|, h.before + h.removed + h.after)
  {
    var i := h.at - |h.before|;
    SideJoins(old_, i, h.before, h.removed);
    SideJoins(old_, i, h.before + h.removed, h.after);
  }

  lemma TextOf(old_: Bytes, new_: Bytes, hunks: seq<Hunk>, k: nat)
    requires Laid(old_, new_, hunks) && k < |hunks|
    ensures TextLaid(old_, new_, hunks[k], EndOf(hunks, k), Shift(hunks, k))
  {
    assert LaidAt(old_, new_, hunks, k);
  }

  lemma HunkIsOldText(old_: Bytes, new_: Bytes, hunks: seq<Hunk>, k: nat)
    requires Laid(old_, new_, hunks) && k < |hunks|
    ensures Side(old_, hunks[k].at - |hunks[k].before|, hunks[k].before + hunks[k].removed + hunks[k].after)
  {
    TextOf(old_, new_, hunks, k);
    OldSide(old_, new_, hunks[k], EndOf(hunks, k), Shift(hunks, k));
  }

  lemma HunkIsNewText(old_: Bytes, new_: Bytes, hunks: seq<Hunk>, k: nat)
    requires Laid(old_, new_, hunks) && k < |hunks|
    ensures Side(new_, NewStart(hunks, k), hunks[k].before + hunks[k].added + hunks[k].after)
  {
    TextOf(old_, new_, hunks, k);
    GapIsMoved(old_, new_, hunks, k + 1);
    AfterFits(old_, new_, hunks, k);
    NewSide(old_, new_, hunks[k], EndOf(hunks, k), Shift(hunks, k), GapEnd(old_, hunks, k + 1), Shift(hunks, k + 1));
  }

  // -------------------------------------------------------- line numbers

  lemma LineCountJoins3(a: Bytes, b: Bytes, c: Bytes)
    requires Closed(a)
    ensures LineCount(a + b + c) == LineCount(a) + LineCount(b) + LineCount(c) - (if Closed(b) || c == [] then 0 else 1)
  {
    LineCountJoins(a, b);
    LineCountJoins(a + b, c);
    assert b == [] ==> a + b == a;
    assert b != [] ==> (a + b)[|a + b| - 1] == b[|b| - 1];
  }

  /** How many of the first k hunks put in text that runs into the next line. */
  function OpenBefore(hunks: seq<Hunk>, k: nat): nat
    requires k <= |hunks|
  {
    if k == 0 then 0 else OpenBefore(hunks, k - 1) + (if Closed(hunks[k - 1].added) then 0 else 1)
  }

  lemma MovedLess(b: Bytes, c: Bytes, i: nat, j: nat, to: nat, d: int)
    requires Moved(b, c, i, to, d) && i <= j <= to
    ensures Moved(b, c, i, j, d)
  {
  }

  /** Over untouched text both sides' newlines grow alike. */
  lemma NewlinesMoved(b: Bytes, c: Bytes, i: nat, j: nat, d: int, to: int)
    requires Moved(b, c, i, j, d) && to == j + d
    ensures NewlinesIn(c, 0, to) - NewlinesIn(c, 0, i + d) == NewlinesIn(b, 0, j) - NewlinesIn(b, 0, i)
  {
    SameNewlines(b, c, i, j, d);
    NewlinesSplit(b, 0, i, j);
    NewlinesSplit(c, 0, i + d, to);
  }

  /** Up to `to` the new text has as many newlines as the old up to i, and `more`. */
  predicate CountsAt(b: Bytes, c: Bytes, i: int, to: int, more: int) {
    0 <= i <= |b| && 0 <= to <= |c| && NewlinesIn(c, 0, to) == NewlinesIn(b, 0, i) + more
  }

  lemma CountCarries(b: Bytes, c: Bytes, i: nat, j: int, end: nat, d: int, more: int)
    requires Moved(b, c, i, end, d) && i <= j <= end && CountsAt(b, c, i, i + d, more)
    ensures CountsAt(b, c, j, j + d, more)
  {
    MovedLess(b, c, i, j, end, d);
    NewlinesMoved(b, c, i, j, d, j + d);
  }

  /** Over a block they grow by the block's own. */
  lemma NewlinesOver(b: Bytes, from: nat, block: Bytes, to: int)
    requires Side(b, from, block) && to == from + |block|
    ensures NewlinesIn(b, 0, to) - NewlinesIn(b, 0, from) == Newlines(block)
  {
    SameNewlines(block, b, 0, |block|, from);
    NewlinesSplit(b, 0, from, to);
  }

  /** Over untouched text and one hunk, newlines grow by what the hunk adds. */
  lemma OverOneHunk(old_: Bytes, new_: Bytes, h: Hunk, from: nat, d: int)
    requires TextLaid(old_, new_, h, from, d)
    ensures var e := h.at + |h.removed|;
            var e' := h.at + d + |h.added|;
            NewlinesIn(new_, 0, e') - NewlinesIn(new_, 0, from + d) - Newlines(h.added)
            == NewlinesIn(old_, 0, e) - NewlinesIn(old_, 0, from) - Newlines(h.removed)
  {
    NewlinesMoved(old_, new_, from, h.at, d, h.at + d);
    NewlinesOver(old_, h.at, h.removed, h.at + |h.removed|);
    NewlinesOver(new_, h.at + d, h.added, h.at + d + |h.added|);
  }

  /** Up to where hunk k may begin, the new text has as many newlines as the
      header's arithmetic says, less one for each hunk left open. */
  predicate CountsDrift(old_: Bytes, new_: Bytes, hunks: seq<Hunk>, k: nat, i: int)
    requires k <= |hunks|
  {
    CountsAt(old_, new_, i, i + Shift(hunks, k), LineDrift(hunks, k) - OpenBefore(hunks, k))
  }

  lemma DriftOverHunk(old_: Bytes, new_: Bytes, hunks: seq<Hunk>, k: nat)
    requires Laid(old_, new_, hunks) && k + 1 < |hunks| && CountsDrift(old_, new_, hunks, k, EndOf(hunks, k))
    ensures CountsDrift(old_, new_, hunks, k + 1, EndOf(hunks, k + 1))
  {
    var h, from, d := hunks[k], EndOf(hunks, k), Shift(hunks, k);
    TextOf(old_, new_, hunks, k);
    OverOneHunk(old_, new_, h, from, d);
    LeftOpen(old_, new_, hunks, k);
    assert EndOf(hunks, k + 1) == h.at + |h.removed|;
    assert EndOf(hunks, k + 1) + Shift(hunks, k + 1) == h.at + d + |h.added|;
  }

  /** What one hunk adds to the line drift: its newlines, and one if it is left open. */
  lemma LeftOpen(old_: Bytes, new_: Bytes, hunks: seq<Hunk>, k: nat)
    requires Laid(old_, new_, hunks) && k + 1 < |hunks|
    ensures LineDrift(hunks, k + 1) - LineDrift(hunks, k)
            == Newlines(hunks[k].added) - Newlines(hunks[k].removed) + OpenBefore(hunks, k + 1) - OpenBefore(hunks, k)
  {
    assert LaidAt(old_, new_, hunks, k);
  }

  lemma {:induction false} DriftCounts(old_: Bytes, new_: Bytes, hunks: seq<Hunk>, k: nat)
    requires Laid(old_, new_, hunks) && k < |hunks|
    ensures CountsDrift(old_, new_, hunks, k, EndOf(hunks, k))
  {
    if k > 0 {
      DriftCounts(old_, new_, hunks, k - 1);
      DriftOverHunk(old_, new_, hunks, k - 1);
    }
  }

  /** The old count is the old side's lines; the new one is one more than the new
      side's when the new region runs into the context after it. */
  predicate CountsAre(h: Hunk) {
    && h.oldCount == LineCount(h.before + h.removed + h.after)
    && h.newCount == LineCount(h.before + h.added + h.after) + (if Closed(h.added) || h.after == [] then 0 else 1)
  }

  lemma HunkCounts(old_: Bytes, h: Hunk, drift: int)
    requires LinesLaid(old_, h, drift)
    ensures CountsAre(h)
  {
    LineCountJoins3(h.before, h.removed, h.after);
    LineCountJoins3(h.before, h.added, h.after);
  }

  lemma NewLineBase(old_: Bytes, new_: Bytes, hunks: seq<Hunk>, k: nat)
    requires Laid(old_, new_, hunks) && k < |hunks|
    ensures EndOf(hunks, k) <= hunks[k].at - |hunks[k].before| <= |old_|
    ensures hunks[k].newLine == NewlinesIn(old_, 0, hunks[k].at - |hunks[k].before|) + 1 + LineDrift(hunks, k)
  {
    assert LaidAt(old_, new_, hunks, k);
  }

  /** Up to hunk k's own start, the same count holds. */
  lemma DriftCountsTo(old_: Bytes, new_: Bytes, hunks: seq<Hunk>, k: nat, i: int)
    requires Laid(old_, new_, hunks) && k < |hunks| && EndOf(hunks, k) <= i <= hunks[k].at
    ensures CountsDrift(old_, new_, hunks, k, i)
  {
    DriftCounts(old_, new_, hunks, k);
    GapIsMoved(old_, new_, hunks, k);
    CountCarries(old_, new_, EndOf(hunks, k), i, hunks[k].at, Shift(hunks, k), LineDrift(hunks, k) - OpenBefore(hunks, k));
  }

  lemma NewLineOf(old_: Bytes, new_: Bytes, hunks: seq<Hunk>, k: nat)
    requires Laid(old_, new_, hunks) && k < |hunks|
    ensures 0 <= NewStart(hunks, k) <= |new_|
    ensures hunks[k].newLine == NewlinesIn(new_, 0, NewStart(hunks, k)) + 1 + OpenBefore(hunks, k)
  {
    NewLineBase(old_, new_, hunks, k);
    var i := hunks[k].at - |hunks[k].before|;
    DriftCountsTo(old_, new_, hunks, k, i);
    NewLineFrom(old_, new_, hunks[k].newLine, i, NewStart(hunks, k), LineDrift(hunks, k), OpenBefore(hunks, k));
  }

  lemma NewLineFrom(old_: Bytes, new_: Bytes, line: int, i: nat, to: int, drift: int, open: int)
    requires CountsAt(old_, new_, i, to, drift - open) && line == NewlinesIn(old_, 0, i) + 1 + drift
    ensures line == NewlinesIn(new_, 0, to) + 1 + open
  {
  }

  lemma CountsOf(old_: Bytes, new_: Bytes, hunks: seq<Hunk>, k: nat)
    requires Laid(old_, new_, hunks) && k < |hunks|
    ensures CountsAre(hunks[k])
    ensures hunks[k].after == [] <==> hunks[k].at + |hunks[k].removed| == |old_|
    ensures k + 1 < |hunks| ==> hunks[k].after != []
  {
    assert LaidAt(old_, new_, hunks, k);
    HunkCounts(old_, hunks[k], LineDrift(hunks, k));
  }

  predicate OldLineRight(old_: Bytes, h: Hunk) {
    0 <= h.at - |h.before| <= |old_| && h.oldLine == NewlinesIn(old_, 0, h.at - |h.before|) + 1
  }

  lemma OldLineOf(old_: Bytes, new_: Bytes, hunks: seq<Hunk>, k: nat)
    requires Laid(old_, new_, hunks) && k < |hunks|
    ensures OldLineRight(old_, hunks[k])
  {
    assert LaidAt(old_, new_, hunks, k);
  }

  /** The header's four numbers are the true ones: each side's count is its lines, and
      its start is one more than the newlines before it. A side without lines starts
      there too (`+1,0` where an edit empties the file), as the code prints it; the
      other convention, which would say `+0,0`, is not meant. */
  predicate HeaderRight(old_: Bytes, new_: Bytes, hunks: seq<Hunk>, k: nat)
    requires k < |hunks|
  {
    var h := hunks[k];
    && OldLineRight(old_, h) && h.oldCount == LineCount(h.before + h.removed + h.after)
    && 0 <= NewStart(hunks, k) <= |new_| && h.newLine == NewlinesIn(new_, 0, NewStart(hunks, k)) + 1
    && h.newCount == LineCount(h.before + h.added + h.after)
  }

  predicate ReachesEnd(old_: Bytes, h: Hunk) { h.at + |h.removed| == |old_| }

  /** Header k is right when no earlier hunk was left open and this one is not
      left open in front of more text. */
  lemma HeaderRightWhen(old_: Bytes, new_: Bytes, hunks: seq<Hunk>, k: nat)
    requires Laid(old_, new_, hunks) && k < |hunks|
    ensures HeaderRight(old_, new_, hunks, k)
            <==> (OpenBefore(hunks, k) == 0 && (Closed(hunks[k].added) || ReachesEnd(old_, hunks[k])))
    ensures ReachesEnd(old_, hunks[k]) ==> k + 1 == |hunks|
  {
    CountsOf(old_, new_, hunks, k);
    NewLineOf(old_, new_, hunks, k);
    OldLineOf(old_, new_, hunks, k);
  }

  lemma {:induction false} NoneOpen(hunks: seq<Hunk>, k: nat)
    requires k <= |hunks|
    ensures OpenBefore(hunks, k) == 0 <==> forall j :: 0 <= j < k ==> Closed(hunks[j].added)
  {
    if k > 0 {
      NoneOpen(hunks, k - 1);
    }
  }

  /** Every header is right exactly when every hunk's new region is empty, ends
      in a newline, or reaches the end of the file. */
  lemma HeadersRightIff(old_: Bytes, new_: Bytes, hunks: seq<Hunk>)
    requires Laid(old_, new_, hunks)
    ensures (forall k :: 0 <= k < |hunks| ==> HeaderRight(old_, new_, hunks, k))
            <==> (forall k :: 0 <= k < |hunks| ==> Closed(hunks[k].added) || ReachesEnd(old_, hunks[k]))
  {
    forall k | 0 <= k < |hunks|
      ensures HeaderRight(old_, new_, hunks, k)
              <==> (OpenBefore(hunks, k) == 0 && (Closed(hunks[k].added) || ReachesEnd(old_, hunks[k])))
      ensures OpenBefore(hunks, k) == 0 <==> forall j :: 0 <= j < k ==> Closed(hunks[j].added)
      ensures ReachesEnd(old_, hunks[k]) ==> k + 1 == |hunks|
    {
      HeaderRightWhen(old_, new_, hunks, k);
      NoneOpen(hunks, k);
    }
  }

  // ------------------------------------------------------------ the loop

  lemma AfterIsSlice(b: Bytes, i: nat, j: nat, shown: bool)
    requires i <= j <= |b| && (!shown ==> i == j)
    ensures (if shown then b[i..j] else []) == b[i..j]
  {
  }

  lemma HunkIs(old_: Bytes, new_: Bytes, lines: seq<Span>, g: Group, drift: int, h: Hunk)
    requires BlocksFit(old_, new_, lines, g)
    requires var s, e := lines[g.firstLine].start, lines[g.lastLine].end;
             && h.before == old_[lines[FirstShown(g)].start..s] && h.removed == old_[s..e] && h.at == s
             && h.added == new_[s + g.driftBefore..e + g.driftAfter]
             && h.after == old_[e..lines[LastShown(lines, g)].end]
    requires h.oldLine == FirstShown(g) + 1 && h.newLine == FirstShown(g) + 1 + drift
    requires h.oldCount == LineCount(h.before) + LineCount(h.removed) + LineCount(h.after)
    requires h.newCount == LineCount(h.before) + LineCount(h.added) + LineCount(h.after)
    ensures h == HunkOf(old_, new_, lines, g, drift)
  {
  }

  /** One turn of the loop: the four blocks of a group, and the header. */
  method MakeHunk(old_: Bytes, new_: Bytes, lines: seq<Span>, g: Group, drift: int) returns (h: Hunk)
    requires AreLines(old_, lines) && BlocksFit(old_, new_, lines, g)
    ensures h == HunkOf(old_, new_, lines, g, drift)
  {
    var firstLine := if g.firstLine >= ContextLines then g.firstLine - ContextLines else 0;
    var lastLine := if g.lastLine + ContextLines < |lines| then g.lastLine + ContextLines else |lines| - 1;
    var changedStart, changedEnd := lines[g.firstLine].start, lines[g.lastLine].end;
    var changedOld := old_[changedStart..changedEnd];
    var changedNew := new_[changedStart + g.driftBefore..changedEnd + g.driftAfter];
    var before := old_[lines[firstLine].start..changedStart];
    var after := if lastLine >= g.lastLine + 1 then old_[changedEnd..lines[lastLine].end] else [];
    AfterIsSlice(old_, changedEnd, lines[lastLine].end, lastLine >= g.lastLine + 1);
    var removedLines := RenderedLines(changedOld);
    var addedLines := RenderedLines(changedNew);
    var beforeLines := RenderedLines(before);
    var afterLines := RenderedLines(after);
    h := Hunk(firstLine + 1, beforeLines + removedLines + afterLines,
              firstLine + 1 + drift, beforeLines + addedLines + afterLines,
              changedStart, before, changedOld, changedNew, after);
    HunkIs(old_, new_, lines, g, drift, h);
  }

  /** The loop over the groups, and the line drift it accumulates. */
  method MakeHunks(old_: Bytes, new_: Bytes, lines: seq<Span>, groups: seq<Group>) returns (hunks: seq<Hunk>)
    requires AreLines(old_, lines) && AllPlaced(old_, new_, lines, groups)
    ensures Made(old_, new_, lines, groups, hunks)
  {
    hunks := [];
    var newLineDrift: int := 0;
    for k := 0 to |groups|
      invariant |hunks| == k && HunksUpTo(old_, new_, lines, groups, hunks)
      invariant newLineDrift == LineDrift(hunks, k)
    {
      PlacedFits(old_, new_, lines, groups, k);
      var h := MakeHunk(old_, new_, lines, groups[k], newLineDrift);
      var added := RenderedLines(h.added);
      var removed := RenderedLines(h.removed);
      OneMoreHunk(old_, new_, lines, groups, hunks, h);
      LineDriftStays(hunks, h, k);
      hunks := hunks + [h];
      newLineDrift := newLineDrift + added - removed;
    }
  }

  /** The diff's own shape: its hunks are those of the groups the occurrences fall
      into, whole lines with up to three lines of context, two neighbours sharing a
      hunk exactly when their lines are near. */
  ghost predicate Grouped(old_: Bytes, new_: Bytes, occs: seq<Occurrence>, hunks: seq<Hunk>) {
    exists lines, groups, cuts :: Grouping(lines, occs, groups, cuts) && Made(old_, new_, lines, groups, hunks)
  }

  /** Without occurrences there are no groups. */
  lemma NothingToGroup(old_: Bytes, new_: Bytes)
    requires Edits(old_, new_, [])
    ensures Grouped(old_, new_, [], [])
  {
    GapMoved(old_, new_, [], 0);
    var lines := LinesExist(old_);
    assert Grouping(lines, [], [], [0]) && Made(old_, new_, lines, [], []);
  }

  /** unifiedDiff, without its trimming: given what an edit recorded, the hunks
      are those of its groups and lie as Laid says, so the lemmas above hold of them. */
  method UnifiedDiff(old_: Bytes, new_: Bytes, occs: seq<Occurrence>) returns (hunks: seq<Hunk>)
    requires Edits(old_, new_, occs)
    ensures Laid(old_, new_, hunks)
    ensures Patched(old_, hunks) == new_
    ensures hunks == [] <==> occs == []
    ensures InSomeHunk(occs, hunks)
    ensures Grouped(old_, new_, occs, hunks)
  {
    hunks := [];
    if |occs| == 0 {
      GapMoved(old_, new_, occs, 0);
      NothingToGroup(old_, new_);
      PatchIsExact(old_, new_, hunks);
      return;
    }
    forall i | 0 <= i < |occs|
      ensures occs[i].oldStart < occs[i].oldEnd <= |old_| && (i > 0 ==> occs[i - 1].oldEnd <= occs[i].oldStart)
    {
      assert RangeOk(old_, new_, occs, i);
    }
    var lines := LineSpans(old_);
    ghost var cuts;
    var groups;
    groups, cuts := GroupOccurrences(old_, occs, lines);
    GroupsArePlaced(old_, new_, occs, lines, groups, cuts);
    hunks := MakeHunks(old_, new_, lines, groups);
    HunksAreLaid(old_, new_, lines, groups, hunks);
    PatchIsExact(old_, new_, hunks);
    OccurrencesAreShown(old_, new_, occs, lines, groups, cuts, hunks);
  }

  /** What replacing recorded: where each match was, none skipped. */
  ghost predicate Recorded(content: Bytes, updated: Bytes, req: EditFile.Request, occs: seq<Occurrence>) {
    && req.oldStr != [] && Tracks(content, updated, req.oldStr, req.newStr, occs)
    && |occs| == (if req.all then Count(content, req.oldStr) else 1)
    && var tail := GapStart(occs, |occs|);
    tail.0 <= |content| && tail.1 <= |updated| && updated[tail.1..] == content[tail.0..]
  }

  /** These are the hunks of the diff of this edit. */
  ghost predicate Diffed(content: Bytes, updated: Bytes, req: EditFile.Request, hunks: seq<Hunk>) {
    exists occs :: Recorded(content, updated, req, occs) && Grouped(content, updated, occs, hunks)
  }

  /** EditFile from the loaded contents to the diff it answers with. */
  method EditAndDiff(max: nat, content: Bytes, req: EditFile.Request) returns (r: EditFile.Outcome, hunks: seq<Hunk>)
    ensures r == EditFile.Edit(max, content, req)
    ensures r.Edited? ==> hunks != [] && Laid(content, r.updated, hunks) && Patched(content, hunks) == r.updated
    ensures r.Edited? ==> Diffed(content, r.updated, req, hunks)
  {
    var occs;
    r, occs := EditFile.EditContents(max, content, req);
    hunks := [];
    if r.Edited? {
      ReplacementIsEdits(content, r.updated, req.oldStr, req.newStr, occs);
      hunks := UnifiedDiff(content, r.updated, occs);
    }
  }

  predicate Shows(h: Hunk, o: Occurrence) { h.at <= o.oldStart && o.oldEnd <= h.at + |h.removed| }

  ghost predicate Shown(o: Occurrence, hunks: seq<Hunk>) { exists k :: 0 <= k < |hunks| && Shows(hunks[k], o) }

  /** No replacement is missing from the diff. */
  ghost predicate InSomeHunk(occs: seq<Occurrence>, hunks: seq<Hunk>) {
    forall i :: 0 <= i < |occs| ==> Shown(occs[i], hunks)
  }

  lemma {:induction false} GroupOf(lines: seq<Span>, occs: seq<Occurrence>, groups: seq<Group>, cuts: seq<nat>, n: nat, i: nat)
    returns (k: nat)
    requires Grouping(lines, occs, groups, cuts) && n <= |groups| && i < cuts[n] <= |occs|
    ensures k < |groups| && cuts[k] <= i < cuts[k + 1] && CoversAt(lines, occs, groups, cuts, k)
    decreases n
  {
    assert CoversAt(lines, occs, groups, cuts, n - 1);
    if cuts[n - 1] <= i {
      k := n - 1;
    } else {
      k := GroupOf(lines, occs, groups, cuts, n - 1, i);
    }
  }

  lemma OccurrencesAreShown(old_: Bytes, new_: Bytes, occs: seq<Occurrence>, lines: seq<Span>, groups: seq<Group>,
                            cuts: seq<nat>, hunks: seq<Hunk>)
    requires Made(old_, new_, lines, groups, hunks) && Grouping(lines, occs, groups, cuts)
    ensures InSomeHunk(occs, hunks)
    ensures hunks == [] ==> occs == []
  {
    forall i | 0 <= i < |occs|
      ensures Shown(occs[i], hunks)
    {
      var k := GroupOf(lines, occs, groups, cuts, |groups|, i);
      assert HunkAt(old_, new_, lines, groups, hunks, k);
      HunkExtent(old_, new_, lines, groups[k], hunks[k], LineDrift(hunks, k));
      assert Shows(hunks[k], occs[i]);
    }
  }

  lemma SmallBlocks(a: Byte, b: Byte)
    requires a != LF && b != LF
    ensures LineCount([]) == 0 && LineCount([a]) == 1 && LineCount([a, LF]) == 1 && LineCount([a, b, LF]) == 1
  {
    var s, t, u := [a], [a, LF], [a, b, LF];
    assert NewlinesIn(s, 0, 0) == 0 && NewlinesIn(t, 0, 1) == 0 && NewlinesIn(u, 0, 1) == 0 && NewlinesIn(u, 0, 2) == 0;
    assert NewlinesIn(s, 0, 1) == 0 && NewlinesIn(t, 0, 2) == 1 && NewlinesIn(u, 0, 3) == 1;
  }

  /** One line `a` of two replaced by an unterminated x. */
  function JoinedHunk(a: Byte, b: Byte, x: Byte): Hunk { Hunk(1, 2, 1, 2, 0, [], [a, LF], [x], [b, LF]) }

  lemma JoinedText(a: Byte, b: Byte, x: Byte)
    ensures TextLaid([a, LF, b, LF], [x, b, LF], JoinedHunk(a, b, x), 0, 0)
  {
    var old_: Bytes, new_: Bytes, h := [a, LF, b, LF], [x, b, LF], JoinedHunk(a, b, x);
    assert Side(old_, 0, h.before) && Side(old_, 0, h.removed);
    assert Side(old_, 2, h.after) && Side(new_, 0, h.added);
  }

  lemma OneEdit(old_: Bytes, new_: Bytes, o: Occurrence)
    requires o.oldStart == o.newStart == 0 < o.oldEnd <= |old_| && o.newEnd <= |new_|
    requires old_[o.oldEnd..] == new_[o.newEnd..]
    ensures Edits(old_, new_, [o])
  {
    var occs := [o];
    assert GapStart(occs, 0) == (0, 0) && GapStart(occs, 1) == (o.oldEnd, o.newEnd);
    assert old_[0..0] == [] == new_[0..0];
    assert RangeOk(old_, new_, occs, 0);
  }

  lemma JoinedEdit(a: Byte, b: Byte, x: Byte)
    ensures Edits([a, LF, b, LF], [x, b, LF], [Occurrence(0, 2, 0, 1)])
  {
    var old_: Bytes, new_: Bytes := [a, LF, b, LF], [x, b, LF];
    assert old_[2..] == [b, LF];
    assert new_[1..] == [b, LF];
    OneEdit(old_, new_, Occurrence(0, 2, 0, 1));
  }

  lemma JoinedLines(a: Byte, b: Byte, x: Byte)
    requires a != LF && b != LF && x != LF
    ensures LinesLaid([a, LF, b, LF], JoinedHunk(a, b, x), 0)
  {
    SmallBlocks(a, b);
    SmallBlocks(b, b);
    SmallBlocks(x, b);
    assert NewlinesIn([a, LF, b, LF], 0, 0) == 0;
  }

  /** The line numbers are not always right: replacing a line by an unterminated
      one joins the next, which the header still counts as a line of its own. */
  lemma JoinedLineIsMiscounted(a: Byte, b: Byte, x: Byte)
    requires a != LF && b != LF && x != LF
    ensures var old_: Bytes, new_: Bytes := [a, LF, b, LF], [x, b, LF];
            var h := JoinedHunk(a, b, x);
            && Edits(old_, new_, [Occurrence(0, 2, 0, 1)]) && Laid(old_, new_, [h])
            && h.newCount == 2 && LineCount(new_) == 1
  {
    JoinedText(a, b, x);
    JoinedEdit(a, b, x);
    JoinedLines(a, b, x);
    SmallBlocks(x, b);
    var hunks := [JoinedHunk(a, b, x)];
    assert Shift(hunks, 0) == 0 && LineDrift(hunks, 0) == 0;
    assert LaidAt([a, LF, b, LF], [x, b, LF], hunks, 0);
    assert Shift(hunks, 1) == -1;
  }
}
