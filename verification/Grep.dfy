/** internal/agent/fs/grep.go: the single-pass scan with its context windows.
    The pattern is any predicate on lines; a file is the lines its scanner yields.
  */
module Grep {
  import opened Bytes

  type Line = string
  type Regexp = Line -> bool

  datatype Match = Match(path: string, number: nat, line: Line, before: seq<Line>, after: seq<Line>)

  // ------------------------------------------------------ what is wanted

  /** L[max(0, i - c)..i) */
  function BeforeOf(lines: seq<Line>, c: nat, i: nat): seq<Line>
    requires i <= |lines|
  {
    lines[if i > c then i - c else 0..i]
  }

  /** The match on line i as far as the first n lines tell: its after-context is
      lines[i + 1..min(i + 1 + c, n)). */
  function Seen(path: string, lines: seq<Line>, c: nat, i: nat, n: nat): Match
    requires i < n <= |lines|
  {
    Match(path, i + 1, lines[i], BeforeOf(lines, c, i), lines[i + 1..Min(i + 1 + c, n)])
  }

  /** The matching lines among the first n. */
  function Hits(re: Regexp, lines: seq<Line>, n: nat): seq<nat>
    requires n <= |lines|
  {
    if n == 0 then [] else if re(lines[n - 1]) then Hits(re, lines, n - 1) + [n - 1] else Hits(re, lines, n - 1)
  }

  /** All of them, once each, in order. */
  lemma {:induction false} HitsAreTheMatchingLines(re: Regexp, lines: seq<Line>, n: nat)
    requires n <= |lines|
    ensures forall k :: 0 <= k < |Hits(re, lines, n)| ==> Hits(re, lines, n)[k] < n && re(lines[Hits(re, lines, n)[k]])
    ensures forall j, k :: 0 <= j < k < |Hits(re, lines, n)| ==> Hits(re, lines, n)[j] < Hits(re, lines, n)[k]
    ensures forall i :: 0 <= i < n && re(lines[i]) ==> i in Hits(re, lines, n)
  {
    if n > 0 {
      HitsAreTheMatchingLines(re, lines, n - 1);
    }
  }

  /** Everything there is to report in one file, in line order. */
  function FileMatches(re: Regexp, path: string, lines: seq<Line>, c: nat, filesOnly: bool): seq<Match> {
    var hits := Hits(re, lines, |lines|);
    if filesOnly then (if hits == [] then [] else [Match(path, 0, "", [], [])]) else LineMatches(re, path, lines, c, |lines|)
  }

  /** The matches on the first n lines, each with its context. */
  function LineMatches(re: Regexp, path: string, lines: seq<Line>, c: nat, n: nat): seq<Match>
    requires n <= |lines|
  {
    if n == 0 then []
    else if re(lines[n - 1]) then LineMatches(re, path, lines, c, n - 1) + [Seen(path, lines, c, n - 1, |lines|)]
    else LineMatches(re, path, lines, c, n - 1)
  }

  /** They are the hits', one for one. */
  lemma {:induction false} LineMatchesAre(re: Regexp, path: string, lines: seq<Line>, c: nat, n: nat)
    requires n <= |lines|
    ensures OneForOne(path, lines, c, Hits(re, lines, n), LineMatches(re, path, lines, c, n))
  {
    if n > 0 {
      LineMatchesAre(re, path, lines, c, n - 1);
      var hits, matches := Hits(re, lines, n - 1), LineMatches(re, path, lines, c, n - 1);
      if re(lines[n - 1]) {
        OneForOneMore(path, lines, c, hits, matches, n - 1);
        assert Hits(re, lines, n) == hits + [n - 1];
        assert LineMatches(re, path, lines, c, n) == matches + [Seen(path, lines, c, n - 1, |lines|)];
      } else {
        assert Hits(re, lines, n) == hits && LineMatches(re, path, lines, c, n) == matches;
      }
    }
  }

  /** A match says where it is and shows up to c lines on each side, fewer only at the
      ends of the file. */
  predicate Shows(m: Match, path: string, lines: seq<Line>, c: nat, i: nat) {
    && i < |lines| && m.path == path && m.number == i + 1 && m.line == lines[i]
    && |m.before| == Min(c, i) && (forall k :: 0 <= k < |m.before| ==> m.before[k] == lines[i - |m.before| + k])
    && |m.after| == Min(c, |lines| - 1 - i) && (forall k :: 0 <= k < |m.after| ==> m.after[k] == lines[i + 1 + k])
  }

  lemma SeenShows(path: string, lines: seq<Line>, c: nat, i: nat)
    requires i < |lines|
    ensures Shows(Seen(path, lines, c, i, |lines|), path, lines, c, i)
  {
  }

  /** What a file reports: its j-th match is its j-th matching line, shown so; or, for
      names only, one match without a line if any line matches. */
  lemma FileMatchesShow(re: Regexp, path: string, lines: seq<Line>, c: nat)
    ensures var hits, all := Hits(re, lines, |lines|), FileMatches(re, path, lines, c, false);
            |all| == |hits| && forall j :: 0 <= j < |all| ==> Shows(all[j], path, lines, c, hits[j])
    ensures var all := FileMatches(re, path, lines, c, true);
            if exists i :: 0 <= i < |lines| && re(lines[i]) then all == [Match(path, 0, "", [], [])] else all == []
  {
    LineMatchesAre(re, path, lines, c, |lines|);
    HitsAreTheMatchingLines(re, lines, |lines|);
    var hits, all := Hits(re, lines, |lines|), FileMatches(re, path, lines, c, false);
    if i :| 0 <= i < |lines| && re(lines[i]) {
      assert i in hits;
    }
    if hits != [] {
      assert re(lines[hits[0]]);
    }
    forall j | 0 <= j < |all|
      ensures Shows(all[j], path, lines, c, hits[j])
    {
      SeenShows(path, lines, c, hits[j]);
    }
  }

  predicate OneForOne(path: string, lines: seq<Line>, c: nat, hits: seq<nat>, matches: seq<Match>) {
    && |matches| == |hits|
    && forall j :: 0 <= j < |hits| ==> hits[j] < |lines| && matches[j] == Seen(path, lines, c, hits[j], |lines|)
  }

  lemma OneForOneMore(path: string, lines: seq<Line>, c: nat, hits: seq<nat>, matches: seq<Match>, i: nat)
    requires OneForOne(path, lines, c, hits, matches) && i < |lines|
    ensures OneForOne(path, lines, c, hits + [i], matches + [Seen(path, lines, c, i, |lines|)])
  {
  }

  // -------------------------------------------------- the loop's variables

  /** Matches for hits[from..], as far as n lines tell. */
  predicate Pending(path: string, lines: seq<Line>, c: nat, n: nat, hits: seq<nat>, from: nat, pending: seq<Match>) {
    && n <= |lines| && from + |pending| == |hits| && (forall k :: 0 <= k < |hits| ==> hits[k] < n)
    && forall j :: 0 <= j < |pending| ==> hits[from + j] < n && pending[j] == Seen(path, lines, c, hits[from + j], n)
  }

  /** Since `base`, the first d hits have been sent, complete. */
  predicate Complete(path: string, lines: seq<Line>, c: nat, hits: seq<nat>, d: nat, base: seq<Match>, sent: seq<Match>) {
    && d <= |hits| && |sent| == |base| + d && sent[..|base|] == base
    && forall j :: 0 <= j < d ==> hits[j] < |lines| && sent[|base| + j] == Seen(path, lines, c, hits[j], |lines|)
  }

  /** One more line is one more line of after-context where there is room. */
  lemma SeenOneMore(path: string, lines: seq<Line>, c: nat, i: nat, n: nat)
    requires i < n < |lines|
    ensures var s := Seen(path, lines, c, i, n);
            Seen(path, lines, c, i, n + 1) == (if |s.after| < c then s.(after := s.after + [lines[n]]) else s)
  {
    if n < i + 1 + c {
      assert lines[i + 1..n + 1] == lines[i + 1..n] + [lines[n]];
    }
  }

  /** A match whose after-context is full will not change. */
  lemma FullIsFinal(path: string, lines: seq<Line>, c: nat, i: nat, n: nat)
    requires i < n <= |lines| && |Seen(path, lines, c, i, n).after| >= c
    ensures Seen(path, lines, c, i, n) == Seen(path, lines, c, i, |lines|)
  {
  }

  lemma CompleteOneMore(path: string, lines: seq<Line>, c: nat, hits: seq<nat>, d: nat, base: seq<Match>, sent: seq<Match>, m: Match)
    requires Complete(path, lines, c, hits, d, base, sent) && d < |hits| && hits[d] < |lines|
    requires m == Seen(path, lines, c, hits[d], |lines|)
    ensures Complete(path, lines, c, hits, d + 1, base, sent + [m])
  {
    assert (sent + [m])[..|base|] == sent[..|base|];
  }

  lemma PendingTail(path: string, lines: seq<Line>, c: nat, n: nat, hits: seq<nat>, from: nat, pending: seq<Match>)
    requires Pending(path, lines, c, n, hits, from, pending) && pending != []
    ensures Pending(path, lines, c, n, hits, from + 1, pending[1..])
  {
    var rest := pending[1..];
    forall j | 0 <= j < |rest|
      ensures hits[from + 1 + j] < n && rest[j] == Seen(path, lines, c, hits[from + 1 + j], n)
    {
      assert rest[j] == pending[j + 1];
    }
  }

  lemma BeforeOneMore(lines: seq<Line>, c: nat, n: nat)
    requires n < |lines|
    ensures BeforeOf(lines, c, n + 1) == var b := BeforeOf(lines, c, n) + [lines[n]]; if |b| > c then b[1..] else b
  {
  }

  lemma {:induction false} HitsGrow(re: Regexp, lines: seq<Line>, n: nat, m: nat)
    requires n <= m <= |lines|
    ensures |Hits(re, lines, n)| <= |Hits(re, lines, m)| && Hits(re, lines, m)[..|Hits(re, lines, n)|] == Hits(re, lines, n)
    decreases m
  {
    if n < m {
      HitsGrow(re, lines, n, m - 1);
    }
  }

  /** The hits that count after n lines, when `room` more matches may be reported. */
  function Counted(re: Regexp, lines: seq<Line>, room: nat, n: nat): seq<nat>
    requires n <= |lines|
  {
    Take(Hits(re, lines, n), room)
  }

  lemma CountedOneMore(re: Regexp, lines: seq<Line>, room: nat, n: nat)
    requires n < |lines|
    ensures var hits := Counted(re, lines, room, n);
            Counted(re, lines, room, n + 1) == if re(lines[n]) && |hits| < room then hits + [n] else hits
  {
  }

  lemma CountedIsPrefix(re: Regexp, lines: seq<Line>, room: nat, n: nat)
    requires n <= |lines|
    ensures IsPrefix(Counted(re, lines, room, n), Counted(re, lines, room, |lines|))
    ensures |Counted(re, lines, room, n)| == room ==> Counted(re, lines, room, n) == Counted(re, lines, room, |lines|)
  {
    HitsGrow(re, lines, n, |lines|);
  }

  /** The loop's variables after n lines. */
  predicate Going(re: Regexp, path: string, lines: seq<Line>, c: nat, room: nat, n: nat, hits: seq<nat>,
                  pending: seq<Match>, d: nat, base: seq<Match>, sent: seq<Match>)
  {
    && n <= |lines| && hits == Counted(re, lines, room, n)
    && Pending(path, lines, c, n, hits, d, pending) && Complete(path, lines, c, hits, d, base, sent)
  }

  /** A new match joins the pending ones. */
  lemma Joins(path: string, lines: seq<Line>, c: nat, n: nat, hits: seq<nat>, pending: seq<Match>, d: nat,
              base: seq<Match>, sent: seq<Match>)
    requires n < |lines| && Pending(path, lines, c, n + 1, hits, d, pending) && Complete(path, lines, c, hits, d, base, sent)
    ensures var m := Match(path, n + 1, lines[n], BeforeOf(lines, c, n), []);
            && Pending(path, lines, c, n + 1, hits + [n], d, pending + [m])
            && Complete(path, lines, c, hits + [n], d, base, sent)
  {
    var m := Match(path, n + 1, lines[n], BeforeOf(lines, c, n), []);
    assert lines[n + 1..n + 1] == [];
    assert m == Seen(path, lines, c, n, n + 1);
    var hits', pending' := hits + [n], pending + [m];
    forall j | 0 <= j < |pending'|
      ensures hits'[d + j] < n + 1 && pending'[j] == Seen(path, lines, c, hits'[d + j], n + 1)
    {
      if j < |pending| {
        assert hits'[d + j] == hits[d + j];
      }
    }
    assert forall j :: 0 <= j < d ==> hits'[j] == hits[j];
  }

  lemma GoneIsPrefix(re: Regexp, path: string, lines: seq<Line>, c: nat, room: nat, n: nat, hits: seq<nat>, d: nat,
                     base: seq<Match>, sent: seq<Match>)
    requires n <= |lines| && hits == Counted(re, lines, room, n) && Complete(path, lines, c, hits, d, base, sent)
    ensures IsPrefix(sent, base + Take(FileMatches(re, path, lines, c, false), room))
    ensures d == |hits| && (n == |lines| || |hits| == room) ==> sent == base + Take(FileMatches(re, path, lines, c, false), room)
  {
    CountedIsPrefix(re, lines, room, n);
    LineMatchesAre(re, path, lines, c, |lines|);
    var all := Take(FileMatches(re, path, lines, c, false), room);
    var counted := Counted(re, lines, room, |lines|);
    assert |all| == |counted|;
    forall j | 0 <= j < d
      ensures sent[|base| + j] == all[j]
    {
      assert hits[j] == counted[..|hits|][j] == counted[j];
    }
    SentIsPrefix(base, sent, all, d);
  }

  lemma SentIsPrefix(base: seq<Match>, sent: seq<Match>, all: seq<Match>, d: nat)
    requires d <= |all| && |sent| == |base| + d && sent[..|base|] == base
    requires forall j :: 0 <= j < d ==> sent[|base| + j] == all[j]
    ensures IsPrefix(sent, base + all) && (d == |all| ==> sent == base + all)
  {
    assert sent == base + all[..d];
    assert d == |all| ==> all[..d] == all;
  }

  /** A match in front with its after-context full can go, and the rest stay. */
  lemma FirstIsComplete(path: string, lines: seq<Line>, c: nat, n: nat, hits: seq<nat>, d: nat, base: seq<Match>,
                        sent: seq<Match>, rest: seq<Match>)
    requires Pending(path, lines, c, n, hits, d, rest) && Complete(path, lines, c, hits, d, base, sent)
    requires rest != [] && |rest[0].after| >= c
    ensures Complete(path, lines, c, hits, d + 1, base, sent + [rest[0]])
    ensures Pending(path, lines, c, n, hits, d + 1, rest[1..])
  {
    assert rest[0] == Seen(path, lines, c, hits[d], n);
    FullIsFinal(path, lines, c, hits[d], n);
    CompleteOneMore(path, lines, c, hits, d, base, sent, rest[0]);
    PendingTail(path, lines, c, n, hits, d, rest);
  }

  // ------------------------------------------------------------ the search

  /** How one line's turn ends. */
  datatype Turned = GoOn | FileDone | SendFailed

  /** One Grep call. A send fails when it is the failAt-th. */
  class Search {
    const re: Regexp
    const filesOnly: bool
    const contextLines: nat
    const maxMatches: nat
    const failAt: int
    var sent: seq<Match>
    var matchesFound: nat
    var capped: bool

    constructor (re: Regexp, filesOnly: bool, contextLines: nat, maxMatches: nat, failAt: int)
      requires maxMatches > 0
      ensures this.re == re && this.filesOnly == filesOnly && this.contextLines == contextLines
      ensures this.maxMatches == maxMatches && this.failAt == failAt
      ensures sent == [] && matchesFound == 0 && !capped
    {
      this.re, this.filesOnly, this.contextLines := re, filesOnly, contextLines;
      this.maxMatches, this.failAt := maxMatches, failAt;
      sent, matchesFound, capped := [], 0, false;
    }

    method Send(m: Match) returns (ok: bool)
      modifies this`sent
      ensures sent == if ok then old(sent) + [m] else old(sent)
      ensures failAt < 0 ==> ok
    {
      if |sent| == failAt {
        return false;
      }
      sent := sent + [m];
      return true;
    }

    /** The loop over pending at the top of a turn. */
    method Extend(pending: seq<Match>, line: Line, ghost path: string, ghost lines: seq<Line>, ghost n: nat,
                  ghost hits: seq<nat>, ghost from: nat)
      returns (longer: seq<Match>)
      requires n < |lines| && line == lines[n] && Pending(path, lines, contextLines, n, hits, from, pending)
      ensures Pending(path, lines, contextLines, n + 1, hits, from, longer)
    {
      longer := pending;
      for k := 0 to |pending|
        invariant |longer| == |pending|
        invariant forall j :: 0 <= j < k ==> longer[j] == Seen(path, lines, contextLines, hits[from + j], n + 1)
        invariant forall j :: k <= j < |pending| ==> longer[j] == pending[j]
      {
        var m := longer[k];
        SeenOneMore(path, lines, contextLines, hits[from + k], n);
        if |m.after| < contextLines {
          longer := longer[k := m.(after := m.after + [line])];
        }
      }
    }

    /** flushComplete: send from the front while the after-context is full. */
    method FlushComplete(pending: seq<Match>, ghost path: string, ghost lines: seq<Line>, ghost n: nat,
                         ghost hits: seq<nat>, ghost from: nat, ghost base: seq<Match>)
      returns (ok: bool, rest: seq<Match>, ghost d: nat)
      requires Pending(path, lines, contextLines, n, hits, from, pending)
      requires Complete(path, lines, contextLines, hits, from, base, sent)
      modifies this`sent
      ensures failAt < 0 ==> ok
      ensures Complete(path, lines, contextLines, hits, d, base, sent)
      ensures Pending(path, lines, contextLines, n, hits, d, rest)
      ensures ok && rest != [] ==> |rest[0].after| < contextLines
    {
      ok, rest, d := true, pending, from;
      while |rest| > 0 && |rest[0].after| >= contextLines
        invariant Complete(path, lines, contextLines, hits, d, base, sent)
        invariant Pending(path, lines, contextLines, n, hits, d, rest)
        decreases |rest|
      {
        FirstIsComplete(path, lines, contextLines, n, hits, d, base, sent, rest);
        ok := Send(rest[0]);
        if !ok {
          return;
        }
        rest := rest[1..];
        d := d + 1;
      }
    }

    /** flushAll: at the end of the file nothing more will come. */
    method FlushAll(pending: seq<Match>, ghost path: string, ghost lines: seq<Line>, ghost hits: seq<nat>, ghost from: nat,
                    ghost base: seq<Match>)
      returns (ok: bool, ghost d: nat)
      requires Pending(path, lines, contextLines, |lines|, hits, from, pending)
      requires Complete(path, lines, contextLines, hits, from, base, sent)
      modifies this`sent
      ensures failAt < 0 ==> ok
      ensures Complete(path, lines, contextLines, hits, d, base, sent) && (ok ==> d == |hits|)
    {
      d := from;
      for k := 0 to |pending|
        invariant d == from + k && Complete(path, lines, contextLines, hits, d, base, sent)
      {
        CompleteOneMore(path, lines, contextLines, hits, d, base, sent, pending[k]);
        ok := Send(pending[k]);
        if !ok {
          return;
        }
        d := d + 1;
      }
      ok := true;
    }

    /** The scan's variables and the counters on the search. */
    ghost predicate Scanning(path: string, lines: seq<Line>, room: nat, n: nat, hits: seq<nat>, pending: seq<Match>,
                             d: nat, base: seq<Match>, stopping: bool)
      reads this
    {
      && Going(re, path, lines, contextLines, room, n, hits, pending, d, base, sent)
      && 0 < room <= maxMatches && stopping == capped == (|hits| == room) && matchesFound == maxMatches - room + |hits|
      && (filesOnly ==> hits == [])
    }

    /** What one file leaves behind. */
    ghost predicate Scanned(path: string, lines: seq<Line>, base: seq<Match>, room: nat)
      reads this
    {
      var all := FileMatches(re, path, lines, contextLines, filesOnly);
      && sent == base + Take(all, room) && matchesFound == maxMatches - room + |Take(all, room)|
      && capped == (|all| >= room)
    }

    /** filesOnly: the first match says all there is to say about the file. */
    method ReportFile(path: string, ghost lines: seq<Line>, ghost n: nat, ghost room: nat) returns (ok: bool)
      requires filesOnly && 0 < room <= maxMatches && matchesFound == maxMatches - room
      requires n < |lines| && re(lines[n])
      modifies this
      ensures (failAt < 0 ==> ok) && (ok ==> Scanned(path, lines, old(sent), room))
      ensures IsPrefix(sent, old(sent) + Take(FileMatches(re, path, lines, contextLines, true), room))
    {
      HitsAreTheMatchingLines(re, lines, |lines|);
      assert n in Hits(re, lines, |lines|);
      matchesFound := matchesFound + 1;
      ok := Send(Match(path, 0, "", [], []));
      if !ok {
        return;
      }
      capped := matchesFound >= maxMatches;
    }

    /** A match is counted and waits for its after-context. */
    method Note(path: string, lines: seq<Line>, n: nat, before: seq<Line>, was: seq<Match>,
                ghost room: nat, ghost hits: seq<nat>, ghost d: nat, ghost base: seq<Match>)
      returns (pending: seq<Match>, stop: bool)
      requires n < |lines| && before == BeforeOf(lines, contextLines, n) && !filesOnly && re(lines[n])
      requires 0 < room <= maxMatches && !capped && |hits| < room && matchesFound == maxMatches - room + |hits|
      requires hits == Counted(re, lines, room, n)
      requires Pending(path, lines, contextLines, n + 1, hits, d, was) && Complete(path, lines, contextLines, hits, d, base, sent)
      modifies this`matchesFound, this`capped
      ensures Scanning(path, lines, room, n + 1, hits + [n], pending, d, base, stop)
    {
      CountedOneMore(re, lines, room, n);
      Joins(path, lines, contextLines, n, hits, was, d, base, sent);
      matchesFound := matchesFound + 1;
      pending := was + [Match(path, n + 1, lines[n], before, [])];
      stop := false;
      if matchesFound >= maxMatches {
        capped, stop := true, true;
      }
    }

    /** Half a turn: the line is context for the matches still open. */
    method Context(path: string, lines: seq<Line>, n: nat, was: seq<Match>,
                   ghost room: nat, ghost hits: seq<nat>, ghost from: nat, ghost base: seq<Match>)
      returns (ok: bool, pending: seq<Match>, ghost d: nat)
      requires n < |lines| && Going(re, path, lines, contextLines, room, n, hits, was, from, base, sent)
      modifies this`sent
      ensures Pending(path, lines, contextLines, n + 1, hits, d, pending) && Complete(path, lines, contextLines, hits, d, base, sent)
      ensures failAt < 0 ==> ok
    {
      pending := Extend(was, lines[n], path, lines, n, hits, from);
      ok, pending, d := FlushComplete(pending, path, lines, n + 1, hits, from, base);
    }

    /** The other half: the line may be a match itself. */
    method Judge(path: string, lines: seq<Line>, n: nat, before: seq<Line>, was: seq<Match>, stopping: bool,
                 ghost room: nat, ghost hits: seq<nat>, ghost d: nat, ghost base: seq<Match>)
      returns (turn: Turned, pending: seq<Match>, stop: bool, ghost hits': seq<nat>)
      requires n < |lines| && before == BeforeOf(lines, contextLines, n) && hits == Counted(re, lines, room, n)
      requires Pending(path, lines, contextLines, n + 1, hits, d, was) && Complete(path, lines, contextLines, hits, d, base, sent)
      requires 0 < room <= maxMatches && stopping == capped == (|hits| == room) && matchesFound == maxMatches - room + |hits|
      requires filesOnly ==> hits == []
      modifies this
      ensures turn.GoOn? ==> Scanning(path, lines, room, n + 1, hits', pending, d, base, stop)
      ensures turn.FileDone? ==> Scanned(path, lines, base, room)
      ensures !turn.GoOn? ==> IsPrefix(sent, base + Take(FileMatches(re, path, lines, contextLines, filesOnly), room))
      ensures failAt < 0 ==> !turn.SendFailed?
    {
      CountedOneMore(re, lines, room, n);
      pending, stop, hits' := was, stopping, hits;
      if stopping || !re(lines[n]) {
        return GoOn, pending, stop, hits';
      }
      if filesOnly {
        assert sent == base;
        var ok := ReportFile(path, lines, n, room);
        return if ok then FileDone else SendFailed, pending, stop, hits';
      }
      hits' := hits + [n];
      pending, stop := Note(path, lines, n, before, was, room, hits, d, base);
      turn := GoOn;
    }

    /** One line: a failed send ends the scan. */
    method Turn(path: string, lines: seq<Line>, n: nat, before: seq<Line>, was: seq<Match>, stopping: bool,
                ghost room: nat, ghost hits: seq<nat>, ghost from: nat, ghost base: seq<Match>)
      returns (turn: Turned, pending: seq<Match>, stop: bool, ghost hits': seq<nat>, ghost d: nat)
      requires n < |lines| && before == BeforeOf(lines, contextLines, n)
      requires Scanning(path, lines, room, n, hits, was, from, base, stopping)
      modifies this
      ensures turn.GoOn? ==> Scanning(path, lines, room, n + 1, hits', pending, d, base, stop)
      ensures turn.FileDone? ==> Scanned(path, lines, base, room)
      ensures !turn.GoOn? ==> IsPrefix(sent, base + Take(FileMatches(re, path, lines, contextLines, filesOnly), room))
      ensures failAt < 0 ==> !turn.SendFailed?
    {
      var ok;
      ok, pending, d := Context(path, lines, n, was, room, hits, from, base);
      if !ok {
        GoneIsPrefix(re, path, lines, contextLines, room, n, hits, d, base, sent);
        return SendFailed, pending, stopping, hits, d;
      }
      turn, pending, stop, hits' := Judge(path, lines, n, before, pending, stopping, room, hits, d, base);
    }

    /** The last contextLines lines, one line on. */
    method Remember(was: seq<Line>, lines: seq<Line>, n: nat) returns (before: seq<Line>)
      requires n < |lines| && was == BeforeOf(lines, contextLines, n)
      ensures before == BeforeOf(lines, contextLines, n + 1)
    {
      BeforeOneMore(lines, contextLines, n);
      before := was;
      if contextLines > 0 {
        before := before + [lines[n]];
        if |before| > contextLines {
          before := before[1..];
        }
      }
    }

    /** scan: one file, whose lines are the scanner's. */
    method Scan(path: string, lines: seq<Line>) returns (ok: bool)
      requires !capped && matchesFound < maxMatches
      modifies this
      ensures failAt < 0 ==> ok
      ensures ok ==> Scanned(path, lines, old(sent), maxMatches - old(matchesFound))
      ensures IsPrefix(sent, old(sent) + Take(FileMatches(re, path, lines, contextLines, filesOnly), maxMatches - old(matchesFound)))
    {
      ghost var base, room, d, hits: seq<nat> := sent, maxMatches - matchesFound, 0, [];
      var before: seq<Line>, pending: seq<Match> := [], [];
      var lineNum, stopping := 0, false;
      while lineNum < |lines|
        invariant lineNum <= |lines| && before == BeforeOf(lines, contextLines, lineNum)
        invariant Scanning(path, lines, room, lineNum, hits, pending, d, base, stopping)
      {
        var previous := Remember(before, lines, lineNum);
        var turn;
        turn, pending, stopping, hits, d := Turn(path, lines, lineNum, before, pending, stopping, room, hits, d, base);
        if turn != GoOn {
          return turn == FileDone;
        }
        before, lineNum := previous, lineNum + 1;
        if stopping && |pending| == 0 {
          break;
        }
      }
      ok := Finish(path, lines, room, lineNum, hits, pending, d, base, stopping);
    }

    /** The end of the scan, at the last line or when nothing more is wanted. */
    method Finish(path: string, lines: seq<Line>, ghost room: nat, ghost n: nat, ghost hits: seq<nat>, pending: seq<Match>,
                  ghost d: nat, ghost base: seq<Match>, ghost stopping: bool)
      returns (ok: bool)
      requires Scanning(path, lines, room, n, hits, pending, d, base, stopping)
      requires n == |lines| || (stopping && pending == [])
      modifies this`sent
      ensures (failAt < 0 ==> ok) && (ok ==> Scanned(path, lines, base, room))
      ensures IsPrefix(sent, base + Take(FileMatches(re, path, lines, contextLines, filesOnly), room))
    {
      ghost var d';
      ok, d' := FlushAll(pending, path, lines, hits, d, base);
      GoneIsPrefix(re, path, lines, contextLines, room, n, hits, d', base, sent);
      CountedIsPrefix(re, lines, room, n);
      LineMatchesAre(re, path, lines, contextLines, |lines|);
    }

    /** What `all` says of the call so far: its first maxMatches have been sent. */
    ghost predicate Sent(all: seq<Match>)
      reads this
    {
      sent == Take(all, maxMatches) && matchesFound == |sent| && capped == (|all| >= maxMatches)
    }

    /** visit: one file of the walk. */
    method Visit(file: Source, ghost before: seq<Match>) returns (ok: bool)
      requires Sent(before) && !capped
      modifies this
      ensures failAt < 0 ==> ok
      ensures ok ==> Sent(before + Of(file))
      ensures IsPrefix(sent, Take(before + Of(file), maxMatches))
    {
      TakeAcross(before, Of(file), maxMatches);
      if !file.searched {
        assert before + Of(file) == before;
        return true;
      }
      ok := Scan(file.path, file.lines);
    }

    /** What a file has to report. */
    ghost function Of(file: Source): seq<Match> {
      if file.searched then FileMatches(re, file.path, file.lines, contextLines, filesOnly) else []
    }

    /** visit for each file of the walk, in order, until one says stop. */
    method Run(files: seq<Source>) returns (ok: bool)
      requires sent == [] && matchesFound == 0 && !capped && maxMatches > 0
      modifies this
      ensures failAt < 0 ==> ok
      ensures ok ==> Sent(AllMatches(re, files, |files|, contextLines, filesOnly))
      ensures IsPrefix(sent, Take(AllMatches(re, files, |files|, contextLines, filesOnly), maxMatches))
    {
      var i := 0;
      ghost var all := AllMatches(re, files, |files|, contextLines, filesOnly);
      while i < |files| && !capped
        invariant i <= |files| && Sent(AllMatches(re, files, i, contextLines, filesOnly))
      {
        ghost var before := AllMatches(re, files, i, contextLines, filesOnly);
        ghost var after := AllMatches(re, files, i + 1, contextLines, filesOnly);
        assert after == before + Of(files[i]);
        AllGrow(re, files, i + 1, |files|, contextLines, filesOnly);
        PrefixTaken(after, all, maxMatches);
        ok := Visit(files[i], before);
        i := i + 1;
        if !ok {
          PrefixChain(sent, Take(after, maxMatches), Take(all, maxMatches));
          return;
        }
      }
      AllGrow(re, files, i, |files|, contextLines, filesOnly);
      PrefixTaken(AllMatches(re, files, i, contextLines, filesOnly), all, maxMatches);
      ok := true;
    }
  }

  lemma PrefixChain(a: seq<Match>, b: seq<Match>, c: seq<Match>)
    requires IsPrefix(a, b) && IsPrefix(b, c)
    ensures IsPrefix(a, c)
  {
  }

  /** A file of the walk; one that the include pattern drops, that cannot be opened
      or that is binary is not searched. */
  datatype Source = Source(path: string, lines: seq<Line>, searched: bool)

  /** Every match in the first n files, file by file. */
  function AllMatches(re: Regexp, files: seq<Source>, n: nat, c: nat, filesOnly: bool): seq<Match>
    requires n <= |files|
  {
    if n == 0 then []
    else AllMatches(re, files, n - 1, c, filesOnly)
         + (if files[n - 1].searched then FileMatches(re, files[n - 1].path, files[n - 1].lines, c, filesOnly) else [])
  }

  lemma TakeAcross(a: seq<Match>, b: seq<Match>, n: nat)
    requires |a| <= n
    ensures Take(a + b, n) == a + Take(b, n - |a|) && Take(a, n) == a
  {
  }

  lemma {:induction false} AllGrow(re: Regexp, files: seq<Source>, i: nat, n: nat, c: nat, filesOnly: bool)
    requires i <= n <= |files|
    ensures IsPrefix(AllMatches(re, files, i, c, filesOnly), AllMatches(re, files, n, c, filesOnly))
    decreases n
  {
    if i < n {
      AllGrow(re, files, i, n - 1, c, filesOnly);
      PrefixAppend(AllMatches(re, files, i, c, filesOnly), AllMatches(re, files, n - 1, c, filesOnly),
                   if files[n - 1].searched then FileMatches(re, files[n - 1].path, files[n - 1].lines, c, filesOnly) else []);
    }
  }

  lemma PrefixAppend(a: seq<Match>, b: seq<Match>, c: seq<Match>)
    requires IsPrefix(a, b)
    ensures IsPrefix(a, b + c)
  {
  }

  lemma PrefixTaken(a: seq<Match>, b: seq<Match>, max: nat)
    requires IsPrefix(a, b)
    ensures IsPrefix(Take(a, max), Take(b, max)) && (|a| >= max ==> Take(a, max) == Take(b, max))
  {
  }
}
