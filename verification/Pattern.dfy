/** internal/agent/fs/pattern.go: globs with `**`, segment by segment. Splitting
    at "/" and case folding have been done; a segment against a name is
    path.Match, an arbitrary predicate here.
  */
module Pattern {
  import opened Optional
  import opened Bytes

  type Seg = string

  /** path.Match on one segment, an error counting as no. */
  type SegMatch = (Seg, Seg) -> bool

  const Star2: Seg := "**"

  // ----------------------------------------------------------- meaning

  /** The plain recursion: pat[i..] matches name[j..]. */
  predicate Matches(m: SegMatch, pat: seq<Seg>, name: seq<Seg>, i: nat, j: nat)
    requires i <= |pat| && j <= |name|
    decreases |pat| - i, 0
  {
    if i == |pat| then j == |name|
    else if pat[i] == Star2 then MatchesLater(m, pat, name, i + 1, j)
    else j < |name| && m(pat[i], name[j]) && Matches(m, pat, name, i + 1, j + 1)
  }

  /** pat[i..] matches some tail of name[j..]. */
  predicate MatchesLater(m: SegMatch, pat: seq<Seg>, name: seq<Seg>, i: nat, j: nat)
    requires i <= |pat| && j <= |name|
    decreases |pat| - i, 1
  {
    exists k :: j <= k <= |name| && Matches(m, pat, name, i, k)
  }

  /** A way to lay the pattern over the name: segment i takes name[cuts[i]..cuts[i + 1]],
      exactly one component unless it is `**`. */
  predicate Fits(m: SegMatch, pat: seq<Seg>, name: seq<Seg>, cuts: seq<nat>, i: nat)
    requires i < |pat| && |cuts| == |pat| + 1
  {
    && cuts[i] <= cuts[i + 1] <= |name|
    && (pat[i] != Star2 ==> cuts[i + 1] == cuts[i] + 1 && m(pat[i], name[cuts[i]]))
  }

  ghost predicate Layout(m: SegMatch, pat: seq<Seg>, name: seq<Seg>, cuts: seq<nat>, from: nat, j: nat) {
    && from <= |pat| && |cuts| == |pat| + 1 && cuts[from] == j && cuts[|pat|] == |name|
    && forall i :: from <= i < |pat| ==> Fits(m, pat, name, cuts, i)
  }

  /** The recursion finds a layout exactly when there is one. */
  lemma {:induction false} MatchesGivesLayout(m: SegMatch, pat: seq<Seg>, name: seq<Seg>, i: nat, j: nat) returns (cuts: seq<nat>)
    requires i <= |pat| && j <= |name| && Matches(m, pat, name, i, j)
    ensures Layout(m, pat, name, cuts, i, j)
    decreases |pat| - i
  {
    if i == |pat| {
      cuts := seq(|pat| + 1, _ => j);
    } else {
      var k := j + 1;
      if pat[i] == Star2 {
        k :| j <= k <= |name| && Matches(m, pat, name, i + 1, k);
      }
      var rest := MatchesGivesLayout(m, pat, name, i + 1, k);
      cuts := rest[i := j];
      forall a | i <= a < |pat|
        ensures Fits(m, pat, name, cuts, a)
      {
        if a > i {
          assert Fits(m, pat, name, rest, a);
        }
      }
    }
  }

  lemma {:induction false} LayoutGivesMatch(m: SegMatch, pat: seq<Seg>, name: seq<Seg>, cuts: seq<nat>, i: nat, j: nat)
    requires Layout(m, pat, name, cuts, i, j) && j <= |name|
    ensures Matches(m, pat, name, i, j)
    decreases |pat| - i
  {
    if i < |pat| {
      assert Fits(m, pat, name, cuts, i);
      LayoutGivesMatch(m, pat, name, cuts, i + 1, cuts[i + 1]);
    }
  }

  /** Matching is laying out: the recursion agrees with the declarative reading. */
  lemma MatchesIffLayout(m: SegMatch, pat: seq<Seg>, name: seq<Seg>)
    ensures Matches(m, pat, name, 0, 0) <==> exists cuts :: Layout(m, pat, name, cuts, 0, 0)
  {
    if Matches(m, pat, name, 0, 0) {
      var cuts := MatchesGivesLayout(m, pat, name, 0, 0);
    }
    if cuts :| Layout(m, pat, name, cuts, 0, 0) {
      LayoutGivesMatch(m, pat, name, cuts, 0, 0);
    }
  }

  // ------------------------------------------------------- the memo table

  function Key(n: nat, i: nat, j: nat): nat { i * (n + 1) + j }

  lemma KeyInRange(p: nat, n: nat, i: nat, j: nat)
    requires i <= p && j <= n
    ensures Key(n, i, j) < (p + 1) * (n + 1)
  {
    assert i * (n + 1) <= p * (n + 1);
    assert (p + 1) * (n + 1) == p * (n + 1) + (n + 1);
  }

  lemma RowsApart(n: nat, i: nat, j: nat, i': nat, j': nat)
    requires j <= n && i < i'
    ensures Key(n, i, j) < Key(n, i', j')
  {
    assert i' * (n + 1) >= (i + 1) * (n + 1) == i * (n + 1) + (n + 1);
  }

  /** The flat key is injective. */
  lemma KeyIsInjective(n: nat, i: nat, j: nat, i': nat, j': nat)
    requires j <= n && j' <= n
    ensures Key(n, i, j) == Key(n, i', j') <==> i == i' && j == j'
  {
    if i < i' {
      RowsApart(n, i, j, i', j');
    } else if i' < i {
      RowsApart(n, i', j', i, j);
    }
  }

  /** What has been asked: a row of the pattern and a column of the name. */
  datatype Cell = Cell(i: nat, j: nat)

  predicate InTable(pat: seq<Seg>, name: seq<Seg>, c: Cell) { c.i <= |pat| && c.j <= |name| }

  predicate SizeOk(pat: seq<Seg>, name: seq<Seg>, tab: seq<int>) { |tab| == (|pat| + 1) * (|name| + 1) }

  /** The entry for a cell; 0 unknown, 1 true, 2 false. */
  function At(pat: seq<Seg>, name: seq<Seg>, tab: seq<int>, c: Cell): int
    requires SizeOk(pat, name, tab) && InTable(pat, name, c)
  {
    KeyInRange(|pat|, |name|, c.i, c.j);
    tab[Key(|name|, c.i, c.j)]
  }

  predicate CellOk(m: SegMatch, pat: seq<Seg>, name: seq<Seg>, tab: seq<int>, started: set<Cell>, c: Cell)
    requires SizeOk(pat, name, tab) && InTable(pat, name, c)
  {
    var answer := At(pat, name, tab, c);
    && 0 <= answer <= 2 && (answer == 1 ==> Matches(m, pat, name, c.i, c.j))
    && (answer == 2 ==> !Matches(m, pat, name, c.i, c.j)) && (answer != 0 ==> c in started)
  }

  /** Whatever the table says is so, and was worked out. */
  ghost predicate TableOk(m: SegMatch, pat: seq<Seg>, name: seq<Seg>, tab: seq<int>, started: set<Cell>) {
    && SizeOk(pat, name, tab) && (forall c :: c in started ==> InTable(pat, name, c))
    && forall c :: InTable(pat, name, c) ==> CellOk(m, pat, name, tab, started, c)
  }

  predicate Settled(pat: seq<Seg>, name: seq<Seg>, tab: seq<int>, c: Cell) {
    SizeOk(pat, name, tab) && InTable(pat, name, c) && At(pat, name, tab, c) != 0
  }

  /** From row i on, every computation begun is finished, but perhaps one. */
  ghost predicate SettledFrom(pat: seq<Seg>, name: seq<Seg>, tab: seq<int>, started: set<Cell>, i: nat, but: set<Cell>) {
    forall c :: c in started && c.i >= i && c !in but ==> Settled(pat, name, tab, c)
  }

  /** Rows before i are as they were. */
  ghost predicate Kept(pat: seq<Seg>, name: seq<Seg>, i: nat, tab: seq<int>, started: set<Cell>, tab': seq<int>, started': set<Cell>) {
    && SizeOk(pat, name, tab) && SizeOk(pat, name, tab') && started <= started'
    && (forall c :: c in started' && c.i < i ==> c in started)
    && (forall c :: InTable(pat, name, c) && c.i < i ==> At(pat, name, tab', c) == At(pat, name, tab, c))
  }

  lemma Store(m: SegMatch, pat: seq<Seg>, name: seq<Seg>, tab: seq<int>, started: set<Cell>, c: Cell, v: int)
    requires TableOk(m, pat, name, tab, started) && InTable(pat, name, c) && c in started
    requires v == if Matches(m, pat, name, c.i, c.j) then 1 else 2
    requires SettledFrom(pat, name, tab, started, c.i, {c})
    ensures Key(|name|, c.i, c.j) < |tab|
    ensures var tab' := tab[Key(|name|, c.i, c.j) := v];
            && TableOk(m, pat, name, tab', started) && SettledFrom(pat, name, tab', started, c.i, {})
            && Kept(pat, name, c.i, tab, started, tab', started) && At(pat, name, tab', c) == v
  {
    KeyInRange(|pat|, |name|, c.i, c.j);
    var tab' := tab[Key(|name|, c.i, c.j) := v];
    forall d | InTable(pat, name, d)
      ensures At(pat, name, tab', d) == if d == c then v else At(pat, name, tab, d)
    {
      KeyInRange(|pat|, |name|, d.i, d.j);
      if d != c && Key(|name|, d.i, d.j) == Key(|name|, c.i, c.j) {
        KeyIsInjective(|name|, d.i, d.j, c.i, c.j);
      }
    }
    forall d | InTable(pat, name, d)
      ensures CellOk(m, pat, name, tab', started, d)
    {
      assert CellOk(m, pat, name, tab, started, d);
    }
    forall d | d in started && d.i >= c.i
      ensures Settled(pat, name, tab', d)
    {
      assert d == c || Settled(pat, name, tab, d);
    }
  }

  lemma KeptThrough(pat: seq<Seg>, name: seq<Seg>, i: nat, i': nat, tab: seq<int>, started: set<Cell>,
                    tab': seq<int>, started': set<Cell>, tab'': seq<int>, started'': set<Cell>)
    requires Kept(pat, name, i, tab, started, tab', started') && Kept(pat, name, i', tab', started', tab'', started'') && i <= i'
    ensures Kept(pat, name, i, tab, started, tab'', started'')
  {
  }

  /** A look at a later row leaves this row's finished computations finished. */
  lemma StaysSettled(pat: seq<Seg>, name: seq<Seg>, i: nat, but: set<Cell>, tab: seq<int>, started: set<Cell>,
                     tab': seq<int>, started': set<Cell>)
    requires SettledFrom(pat, name, tab, started, i, but) && Kept(pat, name, i + 1, tab, started, tab', started')
    requires SettledFrom(pat, name, tab', started', i + 1, {})
    ensures SettledFrom(pat, name, tab', started', i, but)
  {
    forall c | c in started' && c.i >= i && c !in but
      ensures Settled(pat, name, tab', c)
    {
      if c.i == i {
        assert c in started && Settled(pat, name, tab, c);
      }
    }
  }

  ghost predicate NoneSoFar(m: SegMatch, pat: seq<Seg>, name: seq<Seg>, i: nat, j: nat, k: nat)
    requires i <= |pat| && k <= |name| + 1
  {
    forall k' :: j <= k' < k ==> !Matches(m, pat, name, i, k')
  }

  lemma OneMoreTried(m: SegMatch, pat: seq<Seg>, name: seq<Seg>, i: nat, j: nat, k: nat)
    requires i <= |pat| && k <= |name| && NoneSoFar(m, pat, name, i, j, k) && !Matches(m, pat, name, i, k)
    ensures NoneSoFar(m, pat, name, i, j, k + 1)
  {
  }

  lemma LaterOrNone(m: SegMatch, pat: seq<Seg>, name: seq<Seg>, i: nat, j: nat)
    requires i <= |pat| && j <= |name|
    ensures MatchesLater(m, pat, name, i, j) <==> !NoneSoFar(m, pat, name, i, j, |name| + 1)
  {
  }

  lemma StarMatches(m: SegMatch, pat: seq<Seg>, name: seq<Seg>, i: nat, j: nat, k: nat)
    requires i < |pat| && pat[i] == Star2 && j <= k <= |name| && Matches(m, pat, name, i + 1, k)
    ensures Matches(m, pat, name, i, j)
  {
  }

  lemma StarFails(m: SegMatch, pat: seq<Seg>, name: seq<Seg>, i: nat, j: nat)
    requires i < |pat| && pat[i] == Star2 && j <= |name| && NoneSoFar(m, pat, name, i + 1, j, |name| + 1)
    ensures !Matches(m, pat, name, i, j)
  {
    LaterOrNone(m, pat, name, i + 1, j);
  }

  class Matcher {
    const m: SegMatch
    const pat: seq<Seg>
    const name: seq<Seg>
    const seen: array<int>
    /** Which pairs compute has been called for, and how many calls in all. */
    ghost var started: set<Cell>
    ghost var calls: nat

    ghost predicate Valid()
      reads this, seen
    {
      TableOk(m, pat, name, seen[..], started) && calls == |started|
    }

    constructor (m: SegMatch, pat: seq<Seg>, name: seq<Seg>)
      ensures Valid() && calls == 0 && started == {} && fresh(seen)
      ensures this.m == m && this.pat == pat && this.name == name
    {
      this.m, this.pat, this.name := m, pat, name;
      seen := new int[(|pat| + 1) * (|name| + 1)](_ => 0);
      started, calls := {}, 0;
      new;
      forall c | InTable(pat, name, c)
        ensures CellOk(m, pat, name, seen[..], {}, c)
      {
        KeyInRange(|pat|, |name|, c.i, c.j);
      }
    }

    /** match: pat[i..] against name[j..], looked up or worked out. */
    method Match(i: nat, j: nat) returns (r: bool)
      requires Valid() && i <= |pat| && j <= |name| && SettledFrom(pat, name, seen[..], started, i, {})
      modifies this, seen
      ensures Valid() && SettledFrom(pat, name, seen[..], started, i, {})
      ensures r == Matches(m, pat, name, i, j)
      ensures Kept(pat, name, i, old(seen[..]), old(started), seen[..], started)
      decreases |pat| - i, 1
    {
      ghost var c, tab := Cell(i, j), seen[..];
      var key := i * (|name| + 1) + j;
      KeyInRange(|pat|, |name|, i, j);
      assert CellOk(m, pat, name, tab, started, c);
      var answer := seen[key];
      if answer != 0 {
        return answer == 1;
      }
      assert c !in started;
      var result := Compute(i, j);
      ghost var tab' := seen[..];
      Store(m, pat, name, tab', started, c, if result then 1 else 2);
      seen[key] := 2;
      if result {
        seen[key] := 1;
      }
      assert seen[..] == tab'[key := if result then 1 else 2];
      KeptThrough(pat, name, i, i, tab, old(started), tab', started, seen[..], started);
      r := result;
    }

    /** compute, which runs at most once for a pair. */
    method Compute(i: nat, j: nat) returns (r: bool)
      requires Valid() && i <= |pat| && j <= |name| && Cell(i, j) !in started
      requires SettledFrom(pat, name, seen[..], started, i, {})
      modifies this, seen
      ensures Valid() && Cell(i, j) in started && SettledFrom(pat, name, seen[..], started, i, {Cell(i, j)})
      ensures r == Matches(m, pat, name, i, j)
      ensures Kept(pat, name, i, old(seen[..]), old(started), seen[..], started)
      decreases |pat| - i, 0
    {
      ghost var tab, c := seen[..], Cell(i, j);
      Begin(tab, c);
      started, calls := started + {c}, calls + 1;
      ghost var begun := started;
      if i == |pat| {
        return j == |name|;
      } else if pat[i] == Star2 {
        r := AnyLater(i, j);
        KeptThrough(pat, name, i, i + 1, tab, old(started), tab, begun, seen[..], started);
        return;
      } else if j == |name| {
        return false;
      }
      if !m(pat[i], name[j]) {
        return false;
      }
      r := Match(i + 1, j + 1);
      StaysSettled(pat, name, i, {c}, tab, begun, seen[..], started);
      KeptThrough(pat, name, i, i + 1, tab, old(started), tab, begun, seen[..], started);
    }

    /** compute's loop for `**`: some tail of the name will do. */
    method AnyLater(i: nat, j: nat) returns (r: bool)
      requires Valid() && i < |pat| && j <= |name| && pat[i] == Star2
      requires SettledFrom(pat, name, seen[..], started, i, {Cell(i, j)})
      modifies this, seen
      ensures Valid() && SettledFrom(pat, name, seen[..], started, i, {Cell(i, j)})
      ensures r == Matches(m, pat, name, i, j)
      ensures Kept(pat, name, i + 1, old(seen[..]), old(started), seen[..], started)
      decreases |pat| - i - 1, 2
    {
      ghost var c := Cell(i, j);
      for k := j to |name| + 1
        invariant Valid() && SettledFrom(pat, name, seen[..], started, i, {c})
        invariant Kept(pat, name, i + 1, old(seen[..]), old(started), seen[..], started)
        invariant NoneSoFar(m, pat, name, i + 1, j, k)
      {
        ghost var tab', started' := seen[..], started;
        var found := Match(i + 1, k);
        StaysSettled(pat, name, i, {c}, tab', started', seen[..], started);
        KeptThrough(pat, name, i + 1, i + 1, old(seen[..]), old(started), tab', started', seen[..], started);
        if found {
          StarMatches(m, pat, name, i, j, k);
          return true;
        }
        OneMoreTried(m, pat, name, i + 1, j, k);
      }
      StarFails(m, pat, name, i, j);
      return false;
    }

    /** Beginning a computation nobody has begun disturbs nothing. */
    lemma Begin(tab: seq<int>, c: Cell)
      requires TableOk(m, pat, name, tab, started) && InTable(pat, name, c) && c !in started
      requires SettledFrom(pat, name, tab, started, c.i, {})
      ensures TableOk(m, pat, name, tab, started + {c}) && |started + {c}| == |started| + 1
      ensures SettledFrom(pat, name, tab, started + {c}, c.i, {c})
      ensures Kept(pat, name, c.i, tab, started, tab, started + {c})
    {
      forall d | InTable(pat, name, d)
        ensures CellOk(m, pat, name, tab, started + {c}, d)
      {
        assert CellOk(m, pat, name, tab, started, d);
      }
    }
  }

  // ------------------------------------------------------------ the bound

  /** However the table came about, compute ran at most once for each of its cells. */
  lemma CallsAreBounded(t: Matcher)
    requires t.Valid()
    ensures t.calls <= (|t.pat| + 1) * (|t.name| + 1)
  {
    var all := Cells(|t.pat| + 1, |t.name| + 1);
    assert t.started <= all;
    SubsetIsSmaller(t.started, all);
  }

  /** The cells of the first p rows of n. */
  ghost function Cells(p: nat, n: nat): (r: set<Cell>)
    ensures |r| == p * n && forall c: Cell :: c in r <==> c.i < p && c.j < n
  {
    if p == 0 then {} else
      var row := Row(p - 1, n);
      var above := Cells(p - 1, n);
      assert above !! row;
      above + row
  }

  ghost function Row(i: nat, n: nat): (r: set<Cell>)
    ensures |r| == n && forall c: Cell :: c in r <==> c.i == i && c.j < n
  {
    if n == 0 then {} else Row(i, n - 1) + {Cell(i, n - 1)}
  }

  lemma {:induction false} SubsetIsSmaller<T>(a: set<T>, b: set<T>)
    requires a <= b
    ensures |a| <= |b|
  {
    if x :| x in a {
      SubsetIsSmaller(a - {x}, b - {x});
    }
  }

  /** pattern.match on a path already split into components. */
  method MatchPath(m: SegMatch, pat: seq<Seg>, name: seq<Seg>) returns (r: bool, ghost calls: nat)
    ensures r == Matches(m, pat, name, 0, 0)
    ensures calls <= (|pat| + 1) * (|name| + 1)
  {
    var t := new Matcher(m, pat, name);
    r := t.Match(0, 0);
    CallsAreBounded(t);
    calls := t.calls;
  }

  // --------------------------------------------------------- compilePattern

  predicate Dropped(seg: Seg) { seg == "" || seg == "." }

  /** The segments that mean something, `**` runs and all. */
  function KeptTo(raw: seq<Seg>, n: nat): seq<Seg>
    requires n <= |raw|
  {
    if n == 0 then []
    else if Dropped(raw[n - 1]) then KeptTo(raw, n - 1)
    else KeptTo(raw, n - 1) + [raw[n - 1]]
  }

  function Segments(raw: seq<Seg>): seq<Seg> { KeptTo(raw, |raw|) }

  /** Runs of `**` made one. */
  function Collapsed(segs: seq<Seg>): seq<Seg> {
    if segs == [] then []
    else
      var front, last := Collapsed(segs[..|segs| - 1]), segs[|segs| - 1];
      if last == Star2 && front != [] && front[|front| - 1] == Star2 then front else front + [last]
  }

  lemma CollapsedOneMore(segs: seq<Seg>, seg: Seg)
    ensures var front := Collapsed(segs);
            Collapsed(segs + [seg]) == if seg == Star2 && front != [] && front[|front| - 1] == Star2 then front else front + [seg]
  {
    assert (segs + [seg])[..|segs|] == segs;
  }

  predicate Acceptable(seg: Seg, valid: Seg -> bool) { Dropped(seg) || seg == Star2 || valid(seg) }

  /** One turn of compilePattern's loop, or a segment it cannot compile. */
  method AddSegment(segments: seq<Seg>, seg: Seg, valid: Seg -> bool, ghost kept: seq<Seg>)
    returns (ok: bool, next: seq<Seg>)
    requires segments == Collapsed(kept) && (segments == [] <==> kept == [])
    ensures ok <==> Acceptable(seg, valid)
    ensures ok ==> var kept' := if Dropped(seg) then kept else kept + [seg];
                   next == Collapsed(kept') && (next == [] <==> kept' == [])
  {
    next := segments;
    if Dropped(seg) {
      return true, segments;
    }
    CollapsedOneMore(kept, seg);
    if seg == Star2 {
      if |segments| > 0 && segments[|segments| - 1] == Star2 {
        return true, segments;
      }
      return true, segments + [seg];
    }
    if !valid(seg) {
      return false, segments;
    }
    return true, segments + [seg];
  }

  /** compilePattern on the split pattern; valid says path.Match accepts a segment. */
  method Compile(raw: seq<Seg>, valid: Seg -> bool) returns (r: Option<seq<Seg>>)
    ensures r.Some? <==> Segments(raw) != [] && forall i :: 0 <= i < |raw| ==> Acceptable(raw[i], valid)
    ensures r.Some? ==> r.value == Collapsed(Segments(raw))
  {
    var segments: seq<Seg> := [];
    for n := 0 to |raw|
      invariant segments == Collapsed(KeptTo(raw, n)) && (segments == [] <==> KeptTo(raw, n) == [])
      invariant forall i :: 0 <= i < n ==> Acceptable(raw[i], valid)
    {
      var ok;
      ok, segments := AddSegment(segments, raw[n], valid, KeptTo(raw, n));
      if !ok {
        return None;
      }
    }
    if |segments| == 0 {
      return None;
    }
    r := Some(segments);
  }

  // ------------------------------------------- collapsing changes nothing

  /** The same meaning read from the other end: pat matches name[..j]. */
  predicate MatchesTo(m: SegMatch, pat: seq<Seg>, name: seq<Seg>, j: nat)
    requires j <= |name|
    decreases |pat|, 0
  {
    if pat == [] then j == 0
    else
      var front, last := pat[..|pat| - 1], pat[|pat| - 1];
      if last == Star2 then MatchesEarlier(m, front, name, j)
      else j > 0 && m(last, name[j - 1]) && MatchesTo(m, front, name, j - 1)
  }

  predicate MatchesEarlier(m: SegMatch, pat: seq<Seg>, name: seq<Seg>, j: nat)
    requires j <= |name|
    decreases |pat|, 1
  {
    exists k :: 0 <= k <= j && MatchesTo(m, pat, name, k)
  }

  lemma ToOneMore(m: SegMatch, front: seq<Seg>, last: Seg, name: seq<Seg>, j: nat)
    requires j <= |name|
    ensures MatchesTo(m, front + [last], name, j) <==>
            if last == Star2 then MatchesEarlier(m, front, name, j)
            else j > 0 && m(last, name[j - 1]) && MatchesTo(m, front, name, j - 1)
  {
    assert (front + [last])[..|front|] == front;
  }

  /** The name can be cut where the first i segments end. */
  ghost predicate CutAt(m: SegMatch, pat: seq<Seg>, name: seq<Seg>, i: nat)
    requires i <= |pat|
  {
    exists j :: 0 <= j <= |name| && MatchesTo(m, pat[..i], name, j) && Matches(m, pat, name, i, j)
  }

  lemma CutMoves(m: SegMatch, pat: seq<Seg>, name: seq<Seg>, i: nat)
    requires i < |pat|
    ensures CutAt(m, pat, name, i) <==> CutAt(m, pat, name, i + 1)
  {
    assert pat[..i + 1] == pat[..i] + [pat[i]];
    forall j: nat | j <= |name|
      ensures MatchesTo(m, pat[..i + 1], name, j) <==>
              if pat[i] == Star2 then MatchesEarlier(m, pat[..i], name, j)
              else j > 0 && m(pat[i], name[j - 1]) && MatchesTo(m, pat[..i], name, j - 1)
    {
      ToOneMore(m, pat[..i], pat[i], name, j);
    }
    if CutAt(m, pat, name, i) {
      var j :| 0 <= j <= |name| && MatchesTo(m, pat[..i], name, j) && Matches(m, pat, name, i, j);
      var k := j + 1;
      if pat[i] == Star2 {
        assert MatchesLater(m, pat, name, i + 1, j);
        k :| j <= k <= |name| && Matches(m, pat, name, i + 1, k);
        assert MatchesEarlier(m, pat[..i], name, k);
      }
      assert MatchesTo(m, pat[..i + 1], name, k) && Matches(m, pat, name, i + 1, k);
    }
    if CutAt(m, pat, name, i + 1) {
      var k :| 0 <= k <= |name| && MatchesTo(m, pat[..i + 1], name, k) && Matches(m, pat, name, i + 1, k);
      var j := k - 1;
      if pat[i] == Star2 {
        assert MatchesEarlier(m, pat[..i], name, k);
        j :| 0 <= j <= k && MatchesTo(m, pat[..i], name, j);
        StarMatches(m, pat, name, i, j, k);
      }
      assert MatchesTo(m, pat[..i], name, j) && Matches(m, pat, name, i, j);
    }
  }

  lemma {:induction false} CutAnywhere(m: SegMatch, pat: seq<Seg>, name: seq<Seg>, i: nat)
    requires i <= |pat|
    ensures Matches(m, pat, name, 0, 0) <==> CutAt(m, pat, name, i)
  {
    if i == 0 {
      assert pat[..0] == [];
      assert MatchesTo(m, pat[..0], name, 0);
    } else {
      CutAnywhere(m, pat, name, i - 1);
      CutMoves(m, pat, name, i - 1);
    }
  }

  /** Forwards and backwards readings agree. */
  lemma MatchesIsMatchesTo(m: SegMatch, pat: seq<Seg>, name: seq<Seg>)
    ensures Matches(m, pat, name, 0, 0) <==> MatchesTo(m, pat, name, |name|)
  {
    CutAnywhere(m, pat, name, |pat|);
    assert pat[..|pat|] == pat;
  }

  lemma StarAbsorbs(m: SegMatch, pat: seq<Seg>, name: seq<Seg>, k: nat, j: nat)
    requires pat != [] && pat[|pat| - 1] == Star2 && k <= j <= |name| && MatchesTo(m, pat, name, k)
    ensures MatchesTo(m, pat, name, j)
  {
    var front := pat[..|pat| - 1];
    assert MatchesEarlier(m, front, name, k);
    var l :| 0 <= l <= k && MatchesTo(m, front, name, l);
    assert MatchesEarlier(m, front, name, j);
  }

  lemma {:induction false} CollapseKeepsTo(m: SegMatch, segs: seq<Seg>, name: seq<Seg>, j: nat)
    requires j <= |name|
    ensures MatchesTo(m, Collapsed(segs), name, j) <==> MatchesTo(m, segs, name, j)
    decreases |segs|
  {
    if segs != [] {
      var front, last := segs[..|segs| - 1], segs[|segs| - 1];
      var cf := Collapsed(front);
      forall k: nat | k <= |name|
        ensures MatchesTo(m, cf, name, k) <==> MatchesTo(m, front, name, k)
      {
        CollapseKeepsTo(m, front, name, k);
      }
      ToOneMore(m, cf, last, name, j);
      if last == Star2 {
        SameEarlier(m, cf, front, name, j);
        if cf != [] && cf[|cf| - 1] == Star2 {
          EarlierIsNow(m, cf, name, j);
        }
      }
    }
  }

  lemma SameEarlier(m: SegMatch, p: seq<Seg>, q: seq<Seg>, name: seq<Seg>, j: nat)
    requires j <= |name| && forall k: nat :: k <= |name| ==> (MatchesTo(m, p, name, k) <==> MatchesTo(m, q, name, k))
    ensures MatchesEarlier(m, p, name, j) <==> MatchesEarlier(m, q, name, j)
  {
  }

  lemma EarlierIsNow(m: SegMatch, pat: seq<Seg>, name: seq<Seg>, j: nat)
    requires pat != [] && pat[|pat| - 1] == Star2 && j <= |name|
    ensures MatchesEarlier(m, pat, name, j) <==> MatchesTo(m, pat, name, j)
  {
    forall k | 0 <= k <= j && MatchesTo(m, pat, name, k)
      ensures MatchesTo(m, pat, name, j)
    {
      StarAbsorbs(m, pat, name, k, j);
    }
  }

  /** Collapsing runs of `**` leaves the set of matched paths as it was. */
  lemma CollapseKeepsMatches(m: SegMatch, segs: seq<Seg>, name: seq<Seg>)
    ensures Matches(m, Collapsed(segs), name, 0, 0) <==> Matches(m, segs, name, 0, 0)
  {
    MatchesIsMatchesTo(m, Collapsed(segs), name);
    MatchesIsMatchesTo(m, segs, name);
    CollapseKeepsTo(m, segs, name, |name|);
  }

  // ------------------------------------------------ pruning loses nothing

  /** prefixMatch: can anything at or under `dir` still match? Its two arguments
      shorten together, so one index does for both. */
  predicate PrefixMatch(m: SegMatch, pat: seq<Seg>, dir: seq<Seg>, i: nat)
    requires i <= |pat| && i <= |dir|
    decreases |dir| - i
  {
    if i == |dir| then true
    else if i == |pat| then false
    else if pat[i] == Star2 then true
    else m(pat[i], dir[i]) && PrefixMatch(m, pat, dir, i + 1)
  }

  lemma {:induction false} AncestorsArePrefixes(m: SegMatch, pat: seq<Seg>, name: seq<Seg>, k: nat, i: nat)
    requires i <= |pat| && i <= k <= |name| && Matches(m, pat, name, i, i)
    ensures PrefixMatch(m, pat, name[..k], i)
    decreases |pat| - i
  {
    if i < k && i < |pat| && pat[i] != Star2 {
      AncestorsArePrefixes(m, pat, name, k, i + 1);
    }
  }

  /** Pruning loses nothing: every ancestor directory of a matching path is one the
      walk still enters. */
  lemma PruningIsSafe(m: SegMatch, pat: seq<Seg>, name: seq<Seg>, k: nat)
    requires Matches(m, pat, name, 0, 0) && k <= |name|
    ensures PrefixMatch(m, pat, name[..k], 0)
  {
    AncestorsArePrefixes(m, pat, name, k, 0);
  }

  /** Names that satisfy what is left of the pattern, nothing for a `**`. */
  function Rest(pat: seq<Seg>, w: Seg -> Seg, i: nat): seq<Seg>
    requires i <= |pat|
    decreases |pat| - i
  {
    if i == |pat| then []
    else if pat[i] == Star2 then Rest(pat, w, i + 1)
    else [w(pat[i])] + Rest(pat, w, i + 1)
  }

  predicate Satisfies(m: SegMatch, pat: seq<Seg>, w: Seg -> Seg) {
    forall i :: 0 <= i < |pat| && pat[i] != Star2 ==> m(pat[i], w(pat[i]))
  }

  lemma {:induction false} RestMatches(m: SegMatch, pat: seq<Seg>, w: Seg -> Seg, dir: seq<Seg>, i: nat)
    requires Satisfies(m, pat, w) && i <= |pat|
    ensures Matches(m, pat, dir + Rest(pat, w, i), i, |dir|)
    decreases |pat| - i
  {
    if i < |pat| {
      if pat[i] == Star2 {
        RestMatches(m, pat, w, dir, i + 1);
        StarMatches(m, pat, dir + Rest(pat, w, i), i, |dir|, |dir|);
      } else {
        var dir' := dir + [w(pat[i])];
        RestMatches(m, pat, w, dir', i + 1);
        Assoc(dir, [w(pat[i])], Rest(pat, w, i + 1));
        assert (dir + Rest(pat, w, i))[|dir|] == w(pat[i]);
      }
    }
  }

  lemma {:induction false} PrefixExtends(m: SegMatch, pat: seq<Seg>, w: Seg -> Seg, dir: seq<Seg>, i: nat) returns (rest: seq<Seg>)
    requires Satisfies(m, pat, w) && i <= |pat| && i <= |dir| && PrefixMatch(m, pat, dir, i)
    ensures Matches(m, pat, dir + rest, i, i)
    decreases |pat| - i
  {
    if i == |dir| {
      rest := Rest(pat, w, i);
      RestMatches(m, pat, w, dir, i);
    } else if pat[i] == Star2 {
      rest := Rest(pat, w, i + 1);
      RestMatches(m, pat, w, dir, i + 1);
      StarMatches(m, pat, dir + rest, i, i, |dir|);
    } else {
      rest := PrefixExtends(m, pat, w, dir, i + 1);
    }
  }

  /** Pruning is exact where every segment can be matched by some name: a
      directory is entered if and only if some path at or under it matches. */
  lemma PruningIsExact(m: SegMatch, pat: seq<Seg>, w: Seg -> Seg, dir: seq<Seg>)
    requires Satisfies(m, pat, w)
    ensures PrefixMatch(m, pat, dir, 0) <==> exists rest :: Matches(m, pat, dir + rest, 0, 0)
  {
    if PrefixMatch(m, pat, dir, 0) {
      var rest := PrefixExtends(m, pat, w, dir, 0);
    }
    if rest :| Matches(m, pat, dir + rest, 0, 0) {
      AncestorsArePrefixes(m, pat, dir + rest, |dir|, 0);
      assert (dir + rest)[..|dir|] == dir;
    }
  }
}
