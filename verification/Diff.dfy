/** internal/agent/fs/diff.go: how the offsets an edit recorded become hunks.
    Rendering (line elision, the cap on the body) is not modelled; a hunk is its
    header and the blocks it is made of.
  */
module Diff {
  import opened Bytes
  import opened Lines
  import opened Replace

  const ContextLines: nat := 3

  /** A run of occurrences close enough to share one hunk. */
  datatype Group = Group(firstLine: nat, lastLine: nat, driftBefore: int, driftAfter: int,
                         firstOldStart: nat, firstNewStart: nat)

  /** What the diff is told: ranges in order, with equal text between them. */
  predicate RangeOk(old_: Bytes, new_: Bytes, occs: seq<Occurrence>, i: nat)
    requires i < |occs|
  {
    var o, from := occs[i], GapStart(occs, i);
    && o.oldStart < o.oldEnd <= |old_| && o.newStart <= o.newEnd <= |new_|
    && from.0 <= o.oldStart && from.1 <= o.newStart
    && old_[from.0..o.oldStart] == new_[from.1..o.newStart]
  }

  ghost predicate Edits(old_: Bytes, new_: Bytes, occs: seq<Occurrence>) {
    && (forall i :: 0 <= i < |occs| ==> RangeOk(old_, new_, occs, i))
    && var tail := GapStart(occs, |occs|);
    tail.0 <= |old_| && tail.1 <= |new_| && old_[tail.0..] == new_[tail.1..]
  }

  /** What replaceOccurrences records is what the diff expects. */
  lemma ReplacementIsEdits(old_: Bytes, new_: Bytes, pat: Bytes, rep: Bytes, occs: seq<Occurrence>)
    requires |pat| > 0 && Tracks(old_, new_, pat, rep, occs)
    requires var tail := GapStart(occs, |occs|);
             tail.0 <= |old_| && tail.1 <= |new_| && new_[tail.1..] == old_[tail.0..]
    ensures Edits(old_, new_, occs)
  {
    forall i | 0 <= i < |occs|
      ensures RangeOk(old_, new_, occs, i)
    {
      assert OccurrenceOk(old_, new_, pat, rep, occs, i);
    }
  }

  function DriftBefore(o: Occurrence): int { o.newStart - o.oldStart }

  function DriftAfter(o: Occurrence): int { o.newEnd - o.oldEnd }

  predicate InLine(lines: seq<Span>, line: nat, off: int) {
    line < |lines| && lines[line].start <= off < lines[line].end
  }

  /** Group g is made of occs[a..b): its lines contain every one of them, and each
      is near the one before it. */
  ghost predicate Covers(lines: seq<Span>, occs: seq<Occurrence>, g: Group, a: nat, b: nat) {
    && a < b <= |occs| && g.firstLine <= g.lastLine < |lines|
    && g.driftBefore == DriftBefore(occs[a]) && g.driftAfter == DriftAfter(occs[b - 1])
    && g.firstOldStart == occs[a].oldStart && g.firstNewStart == occs[a].newStart
    && lines[g.firstLine].start <= occs[a].oldStart < lines[g.firstLine].end
    && lines[g.lastLine].start < occs[b - 1].oldEnd <= lines[g.lastLine].end
    && (forall i :: a <= i < b ==> lines[g.firstLine].start <= occs[i].oldStart && occs[i].oldEnd <= lines[g.lastLine].end)
    && (forall i :: a < i < b ==> Near(lines, occs, i))
  }

  /** Occurrence i begins too close below the end of the one before for their hunks,
      context included, to stay apart. */
  ghost predicate Near(lines: seq<Span>, occs: seq<Occurrence>, i: nat)
    requires 0 < i < |occs|
  {
    CloseBelow(lines, occs[i - 1].oldEnd - 1, occs[i].oldStart)
  }

  ghost predicate CloseBelow(lines: seq<Span>, p: int, q: int) {
    exists last: nat, first: nat :: InLine(lines, last, p) && InLine(lines, first, q) && first <= last + 2 * ContextLines + 1
  }

  /** The groups partition the first n occurrences at `cuts`, and lie too far
      apart for their hunks, context included, to touch. */
  ghost predicate GroupsUpTo(lines: seq<Span>, occs: seq<Occurrence>, groups: seq<Group>, cuts: seq<nat>, n: nat) {
    && |cuts| == |groups| + 1 && cuts[0] == 0 && cuts[|groups|] == n
    && (forall k :: 0 <= k < |groups| ==> CoversAt(lines, occs, groups, cuts, k))
    && (forall k :: 0 <= k < |groups| - 1 ==> ApartAt(groups, k))
  }

  ghost predicate CoversAt(lines: seq<Span>, occs: seq<Occurrence>, groups: seq<Group>, cuts: seq<nat>, k: nat)
    requires k < |groups| < |cuts|
  {
    Covers(lines, occs, groups[k], cuts[k], cuts[k + 1])
  }

  predicate ApartAt(groups: seq<Group>, k: nat)
    requires k + 1 < |groups|
  {
    Apart(groups[k], groups[k + 1])
  }

  ghost predicate Grouping(lines: seq<Span>, occs: seq<Occurrence>, groups: seq<Group>, cuts: seq<nat>) {
    GroupsUpTo(lines, occs, groups, cuts, |occs|)
  }

  predicate Apart(g: Group, h: Group) { h.firstLine > g.lastLine + 2 * ContextLines + 1 }

  lemma LinesAreMonotone(b: Bytes, lines: seq<Span>, p: nat, q: nat, i: nat, j: nat)
    requires AreLines(b, lines) && i < |lines| && j < |lines| && p <= q
    requires lines[i].start <= p < lines[i].end && lines[j].start <= q < lines[j].end
    ensures i <= j
  {
    if j < i {
      SpansAscend(b, lines, j, i);
      assert false;
    }
  }

  /** Adding the next occurrence to the last group. */
  lemma MergeCovers(b: Bytes, lines: seq<Span>, occs: seq<Occurrence>, g: Group, a: nat, n: nat, first: nat, last: nat)
    requires AreLines(b, lines) && Covers(lines, occs, g, a, n) && n < |occs| && last < |lines|
    requires InLine(lines, first, occs[n].oldStart) && first <= g.lastLine + 2 * ContextLines + 1
    requires occs[n - 1].oldEnd <= occs[n].oldStart < occs[n].oldEnd && occs[n - 1].oldStart < occs[n - 1].oldEnd
    requires lines[last].start <= occs[n].oldEnd - 1 < lines[last].end
    ensures g.lastLine <= last
    ensures Covers(lines, occs, g.(lastLine := last, driftAfter := DriftAfter(occs[n])), a, n + 1)
  {
    assert InLine(lines, g.lastLine, occs[n - 1].oldEnd - 1);
    assert Near(lines, occs, n);
    LinesAreMonotone(b, lines, occs[n - 1].oldEnd - 1, occs[n].oldEnd - 1, g.lastLine, last);
    if g.lastLine < last {
      SpansAscend(b, lines, g.lastLine, last);
    }
  }

  lemma NewGroup(lines: seq<Span>, occs: seq<Occurrence>, groups: seq<Group>, cuts: seq<nat>, n: nat, g: Group)
    requires GroupsUpTo(lines, occs, groups, cuts, n) && Covers(lines, occs, g, n, n + 1)
    requires |groups| > 0 ==> Apart(groups[|groups| - 1], g)
    ensures GroupsUpTo(lines, occs, groups + [g], cuts + [n + 1], n + 1)
  {
    var groups', cuts' := groups + [g], cuts + [n + 1];
    forall k | 0 <= k < |groups'|
      ensures CoversAt(lines, occs, groups', cuts', k)
    {
      if k < |groups| {
        assert CoversAt(lines, occs, groups, cuts, k);
      }
    }
    forall k | 0 <= k < |groups'| - 1
      ensures ApartAt(groups', k)
    {
      if k < |groups| - 1 {
        assert ApartAt(groups, k);
      }
    }
  }

  lemma GrownGroup(lines: seq<Span>, occs: seq<Occurrence>, groups: seq<Group>, cuts: seq<nat>, n: nat, g: Group)
    requires GroupsUpTo(lines, occs, groups, cuts, n) && |groups| > 0
    requires Covers(lines, occs, g, cuts[|groups| - 1], n + 1) && g.firstLine == groups[|groups| - 1].firstLine
    ensures GroupsUpTo(lines, occs, groups[..|groups| - 1] + [g], cuts[..|groups|] + [n + 1], n + 1)
  {
    var m := |groups| - 1;
    var groups', cuts' := groups[..m] + [g], cuts[..m + 1] + [n + 1];
    forall k | 0 <= k < |groups'|
      ensures CoversAt(lines, occs, groups', cuts', k)
    {
      if k < m {
        assert CoversAt(lines, occs, groups, cuts, k);
      }
    }
    forall k | 0 <= k < |groups'| - 1
      ensures ApartAt(groups', k)
    {
      assert ApartAt(groups, k);
    }
  }

  lemma StartsAGroup(b: Bytes, lines: seq<Span>, occs: seq<Occurrence>, groups: seq<Group>, cuts: seq<nat>,
                     i: nat, first: nat, last: nat)
    requires AreLines(b, lines) && GroupsUpTo(lines, occs, groups, cuts, i) && i < |occs|
    requires occs[i].oldStart < occs[i].oldEnd
    requires InLine(lines, first, occs[i].oldStart) && InLine(lines, last, occs[i].oldEnd - 1)
    requires |groups| > 0 ==> first > groups[|groups| - 1].lastLine + 2 * ContextLines + 1
    ensures var g := Group(first, last, DriftBefore(occs[i]), DriftAfter(occs[i]), occs[i].oldStart, occs[i].newStart);
            GroupsUpTo(lines, occs, groups + [g], cuts + [i + 1], i + 1)
  {
    LinesAreMonotone(b, lines, occs[i].oldStart, occs[i].oldEnd - 1, first, last);
    NewGroup(lines, occs, groups, cuts, i,
             Group(first, last, DriftBefore(occs[i]), DriftAfter(occs[i]), occs[i].oldStart, occs[i].newStart));
  }

  lemma JoinsAGroup(b: Bytes, lines: seq<Span>, occs: seq<Occurrence>, groups: seq<Group>, cuts: seq<nat>,
                    i: nat, first: nat, last: nat)
    requires AreLines(b, lines) && GroupsUpTo(lines, occs, groups, cuts, i) && i < |occs| && |groups| > 0
    requires InLine(lines, first, occs[i].oldStart) && first <= groups[|groups| - 1].lastLine + 2 * ContextLines + 1
    requires forall k :: 0 <= k < |occs| ==> occs[k].oldStart < occs[k].oldEnd
    requires i > 0 ==> occs[i - 1].oldEnd <= occs[i].oldStart
    requires InLine(lines, last, occs[i].oldEnd - 1)
    ensures var g := groups[|groups| - 1];
            && g.lastLine <= last
            && GroupsUpTo(lines, occs, groups[..|groups| - 1] + [g.(lastLine := last, driftAfter := DriftAfter(occs[i]))],
                          cuts[..|groups|] + [i + 1], i + 1)
  {
    var n := |groups| - 1;
    var g := groups[n];
    assert CoversAt(lines, occs, groups, cuts, n);
    MergeCovers(b, lines, occs, g, cuts[n], i, first, last);
    GrownGroup(lines, occs, groups, cuts, i, g.(lastLine := last, driftAfter := DriftAfter(occs[i])));
  }

  /** groupOccurrences. */
  method GroupOccurrences(ghost b: Bytes, occs: seq<Occurrence>, lines: seq<Span>)
    returns (groups: seq<Group>, ghost cuts: seq<nat>)
    requires AreLines(b, lines)
    requires forall i :: 0 <= i < |occs| ==> occs[i].oldStart < occs[i].oldEnd <= |b|
    requires forall i :: 0 < i < |occs| ==> occs[i - 1].oldEnd <= occs[i].oldStart
    ensures Grouping(lines, occs, groups, cuts)
    ensures exists c :: Grouping(lines, occs, groups, c)
  {
    groups, cuts := [], [0];
    for i := 0 to |occs|
      invariant GroupsUpTo(lines, occs, groups, cuts, i)
    {
      var occ := occs[i];
      var first := LineOfOffset(b, lines, occ.oldStart);
      var last := LineOfOffset(b, lines, if occ.oldEnd - 1 > occ.oldStart then occ.oldEnd - 1 else occ.oldStart);
      assert InLine(lines, first, occ.oldStart) && InLine(lines, last, occ.oldEnd - 1);
      var driftBefore := occ.newStart - occ.oldStart;
      var driftAfter := occ.newEnd - occ.oldEnd;
      var n := |groups|;
      if n > 0 && first <= groups[n - 1].lastLine + 2 * ContextLines + 1 {
        var g := groups[n - 1];
        JoinsAGroup(b, lines, occs, groups, cuts, i, first, last);
        var merged := g.(lastLine := if last > g.lastLine then last else g.lastLine, driftAfter := driftAfter);
        assert merged == g.(lastLine := last, driftAfter := DriftAfter(occ));
        groups := groups[..n - 1] + [merged];
        cuts := cuts[..n] + [i + 1];
      } else {
        StartsAGroup(b, lines, occs, groups, cuts, i, first, last);
        var started := Group(first, last, driftBefore, driftAfter, occ.oldStart, occ.newStart);
        assert started == Group(first, last, DriftBefore(occ), DriftAfter(occ), occ.oldStart, occ.newStart);
        groups := groups + [started];
        cuts := cuts + [i + 1];
      }
    }
    assert Grouping(lines, occs, groups, cuts);
  }
}
