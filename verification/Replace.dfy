/** internal/agent/fs/edit.go: the exact-match replacement, the offsets it
    records, and the checks around it.
  */
module Replace {
  import opened Bytes

  // -------------------------------------------------------- occurrences

  predicate MatchAt(c: Bytes, pat: Bytes, i: nat) {
    i + |pat| <= |c| && c[i..i + |pat|] == pat
  }

  /** strings.Index(c[i:], pat), as an offset into c: the first match at or after
      i, or -1. */
  function IndexFrom(c: Bytes, pat: Bytes, i: nat): (j: int)
    requires i <= |c|
    ensures j == -1 || i <= j <= |c|
    ensures j >= 0 ==> MatchAt(c, pat, j)
    ensures forall k: nat :: i <= k && (j == -1 || k < j) ==> !MatchAt(c, pat, k)
    decreases |c| - i
  {
    if MatchAt(c, pat, i) then i
    else if i == |c| then -1
    else IndexFrom(c, pat, i + 1)
  }

  /** The leftmost non-overlapping replacement of c[i..], byte by byte. */
  function ReplaceFrom(c: Bytes, pat: Bytes, new_: Bytes, i: nat): Bytes
    requires |pat| > 0 && i <= |c|
    decreases |c| - i
  {
    if i == |c| then []
    else if MatchAt(c, pat, i) then new_ + ReplaceFrom(c, pat, new_, i + |pat|)
    else [c[i]] + ReplaceFrom(c, pat, new_, i + 1)
  }

  /** strings.Count(c[i:], pat): matches, leftmost first, none overlapping. */
  function CountFrom(c: Bytes, pat: Bytes, i: nat): nat
    requires |pat| > 0 && i <= |c|
    decreases |c| - i
  {
    if i == |c| then 0
    else if MatchAt(c, pat, i) then 1 + CountFrom(c, pat, i + |pat|)
    else CountFrom(c, pat, i + 1)
  }

  function Count(c: Bytes, pat: Bytes): nat
    requires |pat| > 0
  {
    CountFrom(c, pat, 0)
  }

  /** The first match alone. */
  function ReplaceFirst(c: Bytes, pat: Bytes, new_: Bytes): Bytes
    requires |pat| > 0
  {
    var j := IndexFrom(c, pat, 0);
    if j < 0 then c else c[..j] + new_ + c[j + |pat|..]
  }

  function Replaced(c: Bytes, pat: Bytes, new_: Bytes, all: bool): Bytes
    requires |pat| > 0
  {
    if all then ReplaceFrom(c, pat, new_, 0) else ReplaceFirst(c, pat, new_)
  }

  /** One replacement, as byte ranges in the old and new contents. */
  datatype Occurrence = Occurrence(oldStart: nat, oldEnd: nat, newStart: nat, newEnd: nat)

  /** Each range holds what was looked for and what was put there. */
  predicate Holds(c: Bytes, out: Bytes, pat: Bytes, new_: Bytes, o: Occurrence) {
    && MatchAt(c, pat, o.oldStart) && o.oldEnd == o.oldStart + |pat|
    && MatchAt(out, new_, o.newStart) && o.newEnd == o.newStart + |new_|
  }

  /** The text before the i-th replacement, after the one before it. */
  function GapStart(occs: seq<Occurrence>, i: nat): (nat, nat)
    requires i <= |occs|
  {
    if i == 0 then (0, 0) else (occs[i - 1].oldEnd, occs[i - 1].newEnd)
  }

  /** The gap is carried over unchanged and holds no match that was passed over. */
  predicate GapKept(c: Bytes, out: Bytes, pat: Bytes, from: (nat, nat), to: (nat, nat)) {
    && from.0 <= to.0 <= |c| && from.1 <= to.1 <= |out|
    && out[from.1..to.1] == c[from.0..to.0]
    && forall k: nat :: from.0 <= k < to.0 ==> !MatchAt(c, pat, k)
  }

  predicate OccurrenceOk(c: Bytes, out: Bytes, pat: Bytes, new_: Bytes, occs: seq<Occurrence>, i: nat)
    requires i < |occs|
  {
    && Holds(c, out, pat, new_, occs[i])
    && GapKept(c, out, pat, GapStart(occs, i), (occs[i].oldStart, occs[i].newStart))
  }

  ghost predicate Tracks(c: Bytes, out: Bytes, pat: Bytes, new_: Bytes, occs: seq<Occurrence>) {
    forall i :: 0 <= i < |occs| ==> OccurrenceOk(c, out, pat, new_, occs, i)
  }

  // --------------------------------------- the definitions step by step

  /** Between matches the replacement copies. */
  lemma {:induction false} CopiesTo(c: Bytes, pat: Bytes, new_: Bytes, i: nat, j: nat)
    requires |pat| > 0 && i <= j <= |c|
    requires forall k: nat :: i <= k < j ==> !MatchAt(c, pat, k)
    ensures ReplaceFrom(c, pat, new_, i) == c[i..j] + ReplaceFrom(c, pat, new_, j)
    decreases j - i
  {
    if i == j {
      assert c[i..j] == [];
    } else {
      CopiesTo(c, pat, new_, i + 1, j);
      assert c[i..j] == [c[i]] + c[i + 1..j];
      Assoc([c[i]], c[i + 1..j], ReplaceFrom(c, pat, new_, j));
    }
  }

  lemma {:induction false} CountsFrom(c: Bytes, pat: Bytes, i: nat, j: nat)
    requires |pat| > 0 && i <= j <= |c|
    requires forall k: nat :: i <= k < j ==> !MatchAt(c, pat, k)
    ensures CountFrom(c, pat, i) == CountFrom(c, pat, j)
    decreases j - i
  {
    if i < j {
      CountsFrom(c, pat, i + 1, j);
    }
  }

  lemma AtMatch(c: Bytes, pat: Bytes, new_: Bytes, i: nat, at: nat)
    requires |pat| > 0 && i <= |c| && at == IndexFrom(c, pat, i)
    ensures ReplaceFrom(c, pat, new_, i) == c[i..at] + new_ + ReplaceFrom(c, pat, new_, at + |pat|)
    ensures CountFrom(c, pat, i) == 1 + CountFrom(c, pat, at + |pat|)
  {
    CopiesTo(c, pat, new_, i, at);
    CountsFrom(c, pat, i, at);
    Assoc(c[i..at], new_, ReplaceFrom(c, pat, new_, at + |pat|));
  }

  lemma AfterLastMatch(c: Bytes, pat: Bytes, new_: Bytes, i: nat)
    requires |pat| > 0 && i <= |c| && IndexFrom(c, pat, i) == -1
    ensures ReplaceFrom(c, pat, new_, i) == c[i..] && CountFrom(c, pat, i) == 0
  {
    CopiesTo(c, pat, new_, i, |c|);
    CountsFrom(c, pat, i, |c|);
    assert c[i..|c|] == c[i..] && c[i..] + [] == c[i..];
  }

  // ------------------------------------------------------------ the loop

  lemma OccurrenceStays(c: Bytes, out: Bytes, more: Bytes, pat: Bytes, new_: Bytes, occs: seq<Occurrence>, i: nat)
    requires i < |occs| && OccurrenceOk(c, out, pat, new_, occs, i)
    ensures OccurrenceOk(c, out + more, pat, new_, occs, i)
  {
    SliceOfAppend(out, more, occs[i].newStart, occs[i].newEnd);
    SliceOfAppend(out, more, GapStart(occs, i).1, occs[i].newStart);
  }

  lemma TracksGrows(c: Bytes, out: Bytes, more: Bytes, pat: Bytes, new_: Bytes, occs: seq<Occurrence>)
    requires Tracks(c, out, pat, new_, occs)
    ensures Tracks(c, out + more, pat, new_, occs)
  {
    forall i | 0 <= i < |occs|
      ensures OccurrenceOk(c, out + more, pat, new_, occs, i)
    {
      OccurrenceStays(c, out, more, pat, new_, occs, i);
    }
  }

  lemma LastIsTracked(c: Bytes, out: Bytes, pat: Bytes, new_: Bytes, last: nat, at: nat)
    requires last <= at && MatchAt(c, pat, at)
    requires forall k: nat :: last <= k < at ==> !MatchAt(c, pat, k)
    ensures var mid := out + c[last..at];
            && Holds(c, mid + new_, pat, new_, Occurrence(at, at + |pat|, |mid|, |mid + new_|))
            && GapKept(c, mid + new_, pat, (last, |out|), (at, |mid|))
  {
    var mid := out + c[last..at];
    assert (mid + new_)[|mid|..|mid| + |new_|] == new_;
    SliceOfAppend(mid, new_, |out|, |mid|);
    assert mid[|out|..|mid|] == c[last..at];
  }

  lemma TracksOneMore(c: Bytes, out: Bytes, pat: Bytes, new_: Bytes, occs: seq<Occurrence>, o: Occurrence)
    requires Tracks(c, out, pat, new_, occs)
    requires Holds(c, out, pat, new_, o)
    requires GapKept(c, out, pat, GapStart(occs, |occs|), (o.oldStart, o.newStart))
    ensures Tracks(c, out, pat, new_, occs + [o])
  {
    forall i | 0 <= i < |occs + [o]|
      ensures OccurrenceOk(c, out, pat, new_, occs + [o], i)
    {
      if i < |occs| {
        assert OccurrenceOk(c, out, pat, new_, occs, i);
        assert (occs + [o])[i] == occs[i] && GapStart(occs + [o], i) == GapStart(occs, i);
      } else {
        assert (occs + [o])[i] == o && GapStart(occs + [o], i) == GapStart(occs, |occs|);
      }
    }
  }

  /** After some turns of the loop: `out` and `occs` account for c[..last]. */
  ghost predicate Progress(c: Bytes, pat: Bytes, new_: Bytes, out: Bytes, occs: seq<Occurrence>, last: nat)
    requires |pat| > 0
  {
    && last <= |c| && GapStart(occs, |occs|) == (last, |out|)
    && Tracks(c, out, pat, new_, occs)
    && ReplaceFrom(c, pat, new_, 0) == out + ReplaceFrom(c, pat, new_, last)
    && |occs| + CountFrom(c, pat, last) == Count(c, pat)
  }

  /** One turn: copy to the match, put the new text, note where. */
  lemma Turn(c: Bytes, out: Bytes, pat: Bytes, new_: Bytes, occs: seq<Occurrence>, last: nat, at: nat)
    requires |pat| > 0 && Progress(c, pat, new_, out, occs, last)
    requires at == IndexFrom(c, pat, last)
    ensures var mid := out + c[last..at];
            Progress(c, pat, new_, mid + new_, occs + [Occurrence(at, at + |pat|, |mid|, |mid + new_|)], at + |pat|)
  {
    var gap := c[last..at];
    var mid := out + gap;
    var o := Occurrence(at, at + |pat|, |mid|, |mid + new_|);
    TracksGrows(c, out, gap, pat, new_, occs);
    TracksGrows(c, mid, new_, pat, new_, occs);
    LastIsTracked(c, out, pat, new_, last, at);
    TracksOneMore(c, mid + new_, pat, new_, occs, o);
    AtMatch(c, pat, new_, last, at);
    Regroup(out, gap, new_, ReplaceFrom(c, pat, new_, at + |pat|));
    assert GapStart(occs + [o], |occs + [o]|) == (at + |pat|, |mid + new_|);
  }

  lemma Regroup(a: Bytes, b: Bytes, c: Bytes, d: Bytes)
    ensures a + (b + c + d) == a + b + c + d
  {
    assert a + (b + c + d) == a + (b + c) + d;
    Assoc(a, b, c);
  }

  /** The replacement and where it happened, as the loop's exits leave them. */
  ghost predicate Built(c: Bytes, pat: Bytes, new_: Bytes, all: bool, out: Bytes, occs: seq<Occurrence>)
    requires |pat| > 0
  {
    var (last, end) := GapStart(occs, |occs|);
    && Replaced(c, pat, new_, all) == out && Tracks(c, out, pat, new_, occs)
    && |occs| == (if all || Count(c, pat) == 0 then Count(c, pat) else 1)
    && last <= |c| && end <= |out| && out[end..] == c[last..]
    && (all ==> forall k: nat :: last <= k ==> !MatchAt(c, pat, k))
  }

  lemma WithTail(c: Bytes, pat: Bytes, new_: Bytes, out: Bytes, occs: seq<Occurrence>, last: nat)
    requires |pat| > 0 && Progress(c, pat, new_, out, occs, last)
    ensures Tracks(c, out + c[last..], pat, new_, occs) && (out + c[last..])[|out|..] == c[last..]
  {
    TracksGrows(c, out, c[last..], pat, new_, occs);
  }

  lemma BuiltWithoutMore(c: Bytes, pat: Bytes, new_: Bytes, all: bool, out: Bytes, occs: seq<Occurrence>, last: nat)
    requires |pat| > 0 && Progress(c, pat, new_, out, occs, last) && IndexFrom(c, pat, last) == -1
    requires !all ==> occs == [] && last == 0 && out == []
    ensures Built(c, pat, new_, all, out + c[last..], occs)
  {
    AfterLastMatch(c, pat, new_, last);
    WithTail(c, pat, new_, out, occs, last);
    if !all {
      assert out + c[last..] == c;
    }
  }

  lemma BuiltOnce(c: Bytes, pat: Bytes, new_: Bytes, out: Bytes, occs: seq<Occurrence>, at: nat)
    requires |pat| > 0 && at == IndexFrom(c, pat, 0) && out == c[..at] + new_
    requires |occs| == 1 && Progress(c, pat, new_, out, occs, at + |pat|)
    ensures Built(c, pat, new_, false, out + c[at + |pat|..], occs)
  {
    WithTail(c, pat, new_, out, occs, at + |pat|);
    CountsFrom(c, pat, 0, at);
  }

  /** replaceOccurrences: what it builds is the leftmost non-overlapping
      replacement, and the offsets it records say exactly where. */
  method ReplaceOccurrences(content: Bytes, oldStr: Bytes, newStr: Bytes, all: bool)
    returns (out: Bytes, occs: seq<Occurrence>)
    requires |oldStr| > 0
    ensures out == Replaced(content, oldStr, newStr, all)
    ensures |occs| == if all || Count(content, oldStr) == 0 then Count(content, oldStr) else 1
    ensures Tracks(content, out, oldStr, newStr, occs)
    ensures var tail := GapStart(occs, |occs|);
            tail.0 <= |content| && tail.1 <= |out| && out[tail.1..] == content[tail.0..]
    ensures all ==> forall k: nat :: GapStart(occs, |occs|).0 <= k ==> !MatchAt(content, oldStr, k)
  {
    out, occs := [], [];
    var last, i := 0, 0;
    while true
      invariant last == i && Progress(content, oldStr, newStr, out, occs, last)
      invariant !all ==> occs == [] && last == 0 && out == []
      decreases |content| - i
    {
      var at := IndexFrom(content, oldStr, i);
      if at < 0 {
        BuiltWithoutMore(content, oldStr, newStr, all, out, occs, last);
        break;
      }
      Turn(content, out, oldStr, newStr, occs, last, at);
      out := out + content[last..at];
      var newStart := |out|;
      out := out + newStr;
      occs := occs + [Occurrence(at, at + |oldStr|, newStart, |out|)];
      last := at + |oldStr|;
      i := last;
      if !all {
        assert [] + content[0..at] == content[..at];
        BuiltOnce(content, oldStr, newStr, out, occs, at);
        break;
      }
    }
    out := out + content[last..];
    assert Built(content, oldStr, newStr, all, out, occs);
  }
}
