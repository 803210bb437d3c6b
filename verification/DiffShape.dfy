/** internal/agent/fs/diff.go: what grouping means for the hunks themselves, in
    terms of the old file's newlines rather than of the groups.
  */
module DiffShape {
  import opened Bytes
  import opened Lines
  import opened Replace
  import opened Diff
  import opened Hunks

  // ------------------------------------------------------------- context

  /** The context on one side of a change: three lines, or fewer at the file's edge. */
  predicate UpToThree(b: Bytes, atEdge: bool) { LineCount(b) <= 3 && (LineCount(b) < 3 ==> atEdge) }

  lemma ContextBefore(old_: Bytes, lines: seq<Span>, g: Group)
    requires AreLines(old_, lines) && old_ != [] && g.firstLine < |lines|
    ensures lines[FirstShown(g)].start <= lines[g.firstLine].start <= |old_|
    ensures UpToThree(old_[lines[FirstShown(g)].start..lines[g.firstLine].start], lines[FirstShown(g)].start == 0)
  {
    if FirstShown(g) < g.firstLine {
      LineCountOfLines(old_, lines, FirstShown(g), g.firstLine - 1);
      assert Adjoin(lines, g.firstLine - 1);
      EndsBefore(old_, lines, FirstShown(g), g.firstLine);
    }
    assert LineOk(old_, lines[g.firstLine], g.firstLine == |lines| - 1);
  }

  lemma ContextAfter(old_: Bytes, lines: seq<Span>, g: Group)
    requires AreLines(old_, lines) && old_ != [] && g.lastLine < |lines|
    ensures lines[g.lastLine].end <= lines[LastShown(lines, g)].end <= |old_|
    ensures UpToThree(old_[lines[g.lastLine].end..lines[LastShown(lines, g)].end], lines[LastShown(lines, g)].end == |old_|)
  {
    if g.lastLine < LastShown(lines, g) {
      LineCountOfLines(old_, lines, g.lastLine + 1, LastShown(lines, g));
      assert Adjoin(lines, g.lastLine);
    }
    assert LineOk(old_, lines[LastShown(lines, g)], LastShown(lines, g) == |lines| - 1);
  }

  /** Every hunk shows three lines on each side of its change, or all there are. */
  lemma ThreeLinesOfContext(old_: Bytes, new_: Bytes, occs: seq<Occurrence>, hunks: seq<Hunk>, k: nat)
    requires Grouped(old_, new_, occs, hunks) && k < |hunks|
    ensures var h := hunks[k];
            && UpToThree(h.before, h.at == |h.before|)
            && UpToThree(h.after, h.at + |h.removed| + |h.after| == |old_|)
  {
    var lines, groups, cuts :| Grouping(lines, occs, groups, cuts) && Made(old_, new_, lines, groups, hunks);
    assert Placed(old_, new_, lines, groups, k);
    assert HunkAt(old_, new_, lines, groups, hunks, k);
    ShownExtent(old_, new_, lines, groups[k], hunks[k], LineDrift(hunks, k));
    ContextBefore(old_, lines, groups[k]);
    ContextAfter(old_, lines, groups[k]);
  }

  // ------------------------------------------------------------- sharing

  /** The newlines before an offset number its line. */
  lemma LineIndexOf(b: Bytes, lines: seq<Span>, i: nat, p: nat)
    requires AreLines(b, lines) && InLine(lines, i, p)
    ensures p < |b| && NewlinesIn(b, 0, p) == i
  {
    NewlinesBefore(b, lines, i);
    assert LineOk(b, lines[i], i == |lines| - 1);
    NoNewlines(b, lines[i].start, p);
    NewlinesSplit(b, 0, lines[i].start, p);
  }

  /** The line ends between two neighbours: those at or behind the first's last byte
      and before the second. */
  predicate FewBetween(b: Bytes, o: Occurrence, o': Occurrence) {
    0 < o.oldEnd <= o'.oldStart <= |b| && NewlinesIn(b, o.oldEnd - 1, o'.oldStart) <= 7
  }

  lemma CloseIsFew(b: Bytes, lines: seq<Span>, p: nat, q: nat)
    requires AreLines(b, lines) && p <= q && CloseBelow(lines, p, q)
    ensures q < |b| && NewlinesIn(b, p, q) <= 7
  {
    var last: nat, first: nat :| InLine(lines, last, p) && InLine(lines, first, q) && first <= last + 2 * ContextLines + 1;
    LineIndexOf(b, lines, last, p);
    LineIndexOf(b, lines, first, q);
    NewlinesSplit(b, 0, p, q);
  }

  /** Neighbours in different groups have too many line ends between them. */
  lemma ApartIsMany(b: Bytes, lines: seq<Span>, occs: seq<Occurrence>, groups: seq<Group>, cuts: seq<nat>, k: nat)
    requires AreLines(b, lines) && Grouping(lines, occs, groups, cuts) && k + 1 < |groups|
    ensures 0 < cuts[k + 1] < |occs| && !FewBetween(b, occs[cuts[k + 1] - 1], occs[cuts[k + 1]])
  {
    var n := cuts[k + 1];
    assert CoversAt(lines, occs, groups, cuts, k) && CoversAt(lines, occs, groups, cuts, k + 1) && ApartAt(groups, k);
    LineIndexOf(b, lines, groups[k].lastLine, occs[n - 1].oldEnd - 1);
    LineIndexOf(b, lines, groups[k + 1].firstLine, occs[n].oldStart);
    if occs[n - 1].oldEnd <= occs[n].oldStart {
      NewlinesSplit(b, 0, occs[n - 1].oldEnd - 1, occs[n].oldStart);
    }
  }

  /** Of two neighbours, both are in one group or the second starts the next. */
  lemma {:induction false} NeighboursGroup(lines: seq<Span>, occs: seq<Occurrence>, groups: seq<Group>, cuts: seq<nat>, i: nat)
    returns (k: nat)
    requires Grouping(lines, occs, groups, cuts) && 0 < i < |occs|
    ensures k < |groups| && CoversAt(lines, occs, groups, cuts, k) && cuts[k] < i <= cuts[k + 1] <= |occs|
    ensures i == cuts[k + 1] ==> k + 1 < |groups|
  {
    k := GroupOf(lines, occs, groups, cuts, |groups|, i - 1);
  }

  lemma ShowsItsOwn(old_: Bytes, new_: Bytes, occs: seq<Occurrence>, lines: seq<Span>, groups: seq<Group>,
                    cuts: seq<nat>, hunks: seq<Hunk>, k: nat, i: nat)
    requires Made(old_, new_, lines, groups, hunks) && Grouping(lines, occs, groups, cuts)
    requires k < |hunks| && cuts[k] <= i < cuts[k + 1]
    ensures i < |occs| && Shows(hunks[k], occs[i])
  {
    assert CoversAt(lines, occs, groups, cuts, k);
    assert HunkAt(old_, new_, lines, groups, hunks, k);
    HunkExtent(old_, new_, lines, groups[k], hunks[k], LineDrift(hunks, k));
  }

  /** An occurrence is in one hunk only. */
  lemma ShownOnce(old_: Bytes, new_: Bytes, hunks: seq<Hunk>, j: nat, k: nat, o: Occurrence)
    requires Laid(old_, new_, hunks) && j < |hunks| && k < |hunks| && o.oldStart < o.oldEnd
    requires Shows(hunks[j], o) && Shows(hunks[k], o)
    ensures j == k
  {
    if j < k {
      LaterIsFurther(old_, new_, hunks, j, k);
    } else if k < j {
      LaterIsFurther(old_, new_, hunks, k, j);
    }
  }

  ghost predicate ShareAHunk(hunks: seq<Hunk>, o: Occurrence, o': Occurrence) {
    exists k :: 0 <= k < |hunks| && Shows(hunks[k], o) && Shows(hunks[k], o')
  }

  lemma NearSharesAHunk(old_: Bytes, new_: Bytes, occs: seq<Occurrence>, lines: seq<Span>, groups: seq<Group>,
                        cuts: seq<nat>, hunks: seq<Hunk>, i: nat)
    requires Setting(old_, new_, occs, lines, groups, cuts) && Made(old_, new_, lines, groups, hunks) && 0 < i < |occs|
    ensures ShareAHunk(hunks, occs[i - 1], occs[i]) <==> FewBetween(old_, occs[i - 1], occs[i])
  {
    InOrder(old_, new_, occs, i);
    var k := NeighboursGroup(lines, occs, groups, cuts, i);
    ShowsItsOwn(old_, new_, occs, lines, groups, cuts, hunks, k, i - 1);
    if i < cuts[k + 1] {
      ShowsItsOwn(old_, new_, occs, lines, groups, cuts, hunks, k, i);
      assert Near(lines, occs, i);
      CloseIsFew(old_, lines, occs[i - 1].oldEnd - 1, occs[i].oldStart);
    } else {
      ApartIsMany(old_, lines, occs, groups, cuts, k);
      NotShared(old_, new_, occs, lines, groups, cuts, hunks, k);
    }
  }

  lemma NextShowsTheOther(old_: Bytes, new_: Bytes, hunks: seq<Hunk>, k: nat, o: Occurrence, o': Occurrence)
    requires Laid(old_, new_, hunks) && k + 1 < |hunks| && o.oldStart < o.oldEnd && o'.oldStart < o'.oldEnd
    requires Shows(hunks[k], o) && Shows(hunks[k + 1], o')
    ensures !ShareAHunk(hunks, o, o')
  {
    if ShareAHunk(hunks, o, o') {
      var m :| 0 <= m < |hunks| && Shows(hunks[m], o) && Shows(hunks[m], o');
      ShownOnce(old_, new_, hunks, k, m, o);
      ShownOnce(old_, new_, hunks, k + 1, m, o');
      assert false;
    }
  }

  lemma CutsAscend(lines: seq<Span>, occs: seq<Occurrence>, groups: seq<Group>, cuts: seq<nat>, k: nat)
    requires Grouping(lines, occs, groups, cuts) && k < |groups|
    ensures cuts[k] < cuts[k + 1] <= |occs|
  {
    assert CoversAt(lines, occs, groups, cuts, k);
  }

  lemma IsARange(old_: Bytes, new_: Bytes, occs: seq<Occurrence>, i: nat)
    requires Edits(old_, new_, occs) && i < |occs|
    ensures occs[i].oldStart < occs[i].oldEnd <= |old_|
  {
    assert RangeOk(old_, new_, occs, i);
  }

  lemma NotShared(old_: Bytes, new_: Bytes, occs: seq<Occurrence>, lines: seq<Span>, groups: seq<Group>,
                  cuts: seq<nat>, hunks: seq<Hunk>, k: nat)
    requires Setting(old_, new_, occs, lines, groups, cuts) && Made(old_, new_, lines, groups, hunks) && k + 1 < |hunks|
    ensures 0 < cuts[k + 1] < |occs|
    ensures !ShareAHunk(hunks, occs[cuts[k + 1] - 1], occs[cuts[k + 1]])
  {
    var n := cuts[k + 1];
    CutsAscend(lines, occs, groups, cuts, k);
    CutsAscend(lines, occs, groups, cuts, k + 1);
    ShowsItsOwn(old_, new_, occs, lines, groups, cuts, hunks, k, n - 1);
    ShowsItsOwn(old_, new_, occs, lines, groups, cuts, hunks, k + 1, n);
    HunksAreLaid(old_, new_, lines, groups, hunks);
    IsARange(old_, new_, occs, n - 1);
    IsARange(old_, new_, occs, n);
    NextShowsTheOther(old_, new_, hunks, k, occs[n - 1], occs[n]);
  }

  lemma InOrder(old_: Bytes, new_: Bytes, occs: seq<Occurrence>, i: nat)
    requires Edits(old_, new_, occs) && 0 < i < |occs|
    ensures 0 < occs[i - 1].oldEnd <= occs[i].oldStart < |old_|
  {
    IsARange(old_, new_, occs, i - 1);
    assert RangeOk(old_, new_, occs, i);
  }

  lemma GroupsOf(old_: Bytes, new_: Bytes, occs: seq<Occurrence>, hunks: seq<Hunk>)
    returns (lines: seq<Span>, groups: seq<Group>, cuts: seq<nat>)
    requires Edits(old_, new_, occs) && Grouped(old_, new_, occs, hunks)
    ensures Setting(old_, new_, occs, lines, groups, cuts) && Made(old_, new_, lines, groups, hunks)
  {
    lines, groups, cuts :| Grouping(lines, occs, groups, cuts) && Made(old_, new_, lines, groups, hunks);
  }

  /** Two neighbouring replacements are in one hunk exactly when at most seven line
      ends separate them, which is when the context around them would meet. */
  lemma SharedIffNear(old_: Bytes, new_: Bytes, occs: seq<Occurrence>, hunks: seq<Hunk>, i: nat)
    requires Edits(old_, new_, occs) && Grouped(old_, new_, occs, hunks) && 0 < i < |occs|
    ensures ShareAHunk(hunks, occs[i - 1], occs[i]) <==> FewBetween(old_, occs[i - 1], occs[i])
  {
    var lines, groups, cuts := GroupsOf(old_, new_, occs, hunks);
    NearSharesAHunk(old_, new_, occs, lines, groups, cuts, hunks, i);
  }
}
