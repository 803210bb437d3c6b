/** internal/agent/fs/gitignore.go: the stack of rule files and its verdict.
    Paths are sequences of component names below the walk's root.
  */
module GitIgnore {
  import opened Optional
  import opened Bytes
  import opened Pattern

  type Path = seq<Seg>

  datatype Rule = Rule(pat: seq<Seg>, negate: bool, dirOnly: bool)

  /** The rules of one .gitignore, relative to the directory that holds it. */
  datatype IgnoreFile = IgnoreFile(dir: Path, rules: seq<Rule>)

  /** platform.HasPathPrefix */
  predicate HasPrefix(path: Path, dir: Path) { |dir| <= |path| && path[..|dir|] == dir }

  predicate StartsWithDots(name: Seg) { |name| >= 2 && name[0] == '.' && name[1] == '.' }

  /** Whether the loop looks at a file's rules for this path: Rel gives something
      that does not start with "..", be it a step up or a name. */
  predicate Considers(f: IgnoreFile, path: Path) {
    HasPrefix(path, f.dir) && !(|path| > |f.dir| && StartsWithDots(path[|f.dir|]))
  }

  function Rel(f: IgnoreFile, path: Path): Path
    requires HasPrefix(path, f.dir)
  {
    path[|f.dir|..]
  }

  predicate RuleMatches(m: SegMatch, f: IgnoreFile, rule: Rule, path: Path, isDir: bool)
    requires HasPrefix(path, f.dir)
  {
    !(rule.dirOnly && !isDir) && Matches(m, rule.pat, Rel(f, path), 0, 0)
  }

  /** What the first n rules of a file say: the last of them to match decides. */
  function Verdict(m: SegMatch, f: IgnoreFile, n: nat, path: Path, isDir: bool): Option<bool>
    requires n <= |f.rules| && HasPrefix(path, f.dir)
  {
    if n == 0 then None
    else if RuleMatches(m, f, f.rules[n - 1], path, isDir) then Some(!f.rules[n - 1].negate)
    else Verdict(m, f, n - 1, path, isDir)
  }

  /** What the first n files say: the deepest with anything to say decides. */
  predicate Excluded(m: SegMatch, files: seq<IgnoreFile>, n: nat, path: Path, isDir: bool)
    requires n <= |files|
  {
    if n == 0 then false
    else
      var f := files[n - 1];
      if !Considers(f, path) || Verdict(m, f, |f.rules|, path, isDir) == None then Excluded(m, files, n - 1, path, isDir)
      else Verdict(m, f, |f.rules|, path, isDir) == Some(true)
  }

  // ---------------------------------------------------------- the reading

  /** Rule j of file i matches, and nothing later in the file or deeper does. */
  ghost predicate Decides(m: SegMatch, files: seq<IgnoreFile>, n: nat, path: Path, isDir: bool, i: nat, j: nat)
    requires n <= |files|
  {
    && i < n && j < |files[i].rules| && Considers(files[i], path)
    && RuleMatches(m, files[i], files[i].rules[j], path, isDir)
    && (forall j' :: j < j' < |files[i].rules| ==> !RuleMatches(m, files[i], files[i].rules[j'], path, isDir))
    && (forall i' :: i < i' < n && Considers(files[i'], path) ==> Silent(m, files[i'], path, isDir))
  }

  ghost predicate Silent(m: SegMatch, f: IgnoreFile, path: Path, isDir: bool)
    requires HasPrefix(path, f.dir)
  {
    forall j :: 0 <= j < |f.rules| ==> !RuleMatches(m, f, f.rules[j], path, isDir)
  }

  lemma {:induction false} VerdictIs(m: SegMatch, f: IgnoreFile, n: nat, path: Path, isDir: bool) returns (j: nat)
    requires n <= |f.rules| && HasPrefix(path, f.dir)
    ensures var v := Verdict(m, f, n, path, isDir);
            && (v == None ==> forall k :: 0 <= k < n ==> !RuleMatches(m, f, f.rules[k], path, isDir))
            && (v.Some? ==> j < n && RuleMatches(m, f, f.rules[j], path, isDir) && v == Some(!f.rules[j].negate)
                            && forall k :: j < k < n ==> !RuleMatches(m, f, f.rules[k], path, isDir))
  {
    j := 0;
    if n > 0 {
      if RuleMatches(m, f, f.rules[n - 1], path, isDir) {
        j := n - 1;
      } else {
        j := VerdictIs(m, f, n - 1, path, isDir);
      }
    }
  }

  /** At most one rule decides. */
  lemma DecidesOnce(m: SegMatch, files: seq<IgnoreFile>, n: nat, path: Path, isDir: bool, i: nat, j: nat, i': nat, j': nat)
    requires n <= |files| && Decides(m, files, n, path, isDir, i, j) && Decides(m, files, n, path, isDir, i', j')
    ensures i == i' && j == j'
  {
  }

  /** None of the first n files has anything to say. */
  ghost predicate AllSilent(m: SegMatch, files: seq<IgnoreFile>, n: nat, path: Path, isDir: bool)
    requires n <= |files|
  {
    forall i :: 0 <= i < n && Considers(files[i], path) ==> Silent(m, files[i], path, isDir)
  }

  lemma SilentOnTop(m: SegMatch, files: seq<IgnoreFile>, n: nat, path: Path, isDir: bool, i: nat, j: nat)
    requires n < |files| && (Considers(files[n], path) ==> Silent(m, files[n], path, isDir))
    ensures Decides(m, files, n, path, isDir, i, j) ==> Decides(m, files, n + 1, path, isDir, i, j)
    ensures AllSilent(m, files, n, path, isDir) ==> AllSilent(m, files, n + 1, path, isDir)
  {
  }

  lemma {:induction false} ExcludedGives(m: SegMatch, files: seq<IgnoreFile>, n: nat, path: Path, isDir: bool) returns (i: nat, j: nat)
    requires n <= |files|
    ensures if Decides(m, files, n, path, isDir, i, j) then Excluded(m, files, n, path, isDir) == !files[i].rules[j].negate
            else AllSilent(m, files, n, path, isDir) && !Excluded(m, files, n, path, isDir)
  {
    i, j := 0, 0;
    if n > 0 {
      var f := files[n - 1];
      if Considers(f, path) {
        j := VerdictIs(m, f, |f.rules|, path, isDir);
        i := n - 1;
      }
      if !Considers(f, path) || Verdict(m, f, |f.rules|, path, isDir) == None {
        i, j := ExcludedGives(m, files, n - 1, path, isDir);
        SilentOnTop(m, files, n - 1, path, isDir, i, j);
      }
    }
  }

  /** A path is excluded exactly when the deciding rule, the last to match in the
      deepest file that has one, is not a "!" rule. */
  lemma ExcludedIff(m: SegMatch, files: seq<IgnoreFile>, path: Path, isDir: bool)
    ensures Excluded(m, files, |files|, path, isDir)
            <==> exists i: nat, j: nat :: Decides(m, files, |files|, path, isDir, i, j) && !files[i].rules[j].negate
  {
    var i, j := ExcludedGives(m, files, |files|, path, isDir);
    if i': nat, j': nat :| Decides(m, files, |files|, path, isDir, i', j') && !files[i'].rules[j'].negate {
      if Decides(m, files, |files|, path, isDir, i, j) {
        DecidesOnce(m, files, |files|, path, isDir, i, j, i', j');
      }
    }
  }

  // ------------------------------------------------ what a rule applies to

  /** The rules as they are for directories: "foo/" is "foo". */
  function ForDirs(rules: seq<Rule>): (r: seq<Rule>)
    ensures |r| == |rules| && forall k :: 0 <= k < |rules| ==> r[k] == rules[k].(dirOnly := false)
  {
    if rules == [] then [] else ForDirs(rules[..|rules| - 1]) + [rules[|rules| - 1].(dirOnly := false)]
  }

  /** The rules as they are for files: "foo/" is not there. */
  function ForFiles(rules: seq<Rule>): seq<Rule> {
    if rules == [] then []
    else
      var rest, last := ForFiles(rules[..|rules| - 1]), rules[|rules| - 1];
      if last.dirOnly then rest else rest + [last]
  }

  function OfKind(f: IgnoreFile, isDir: bool): IgnoreFile {
    f.(rules := if isDir then ForDirs(f.rules) else ForFiles(f.rules))
  }

  lemma {:induction false} VerdictOfFront(m: SegMatch, f: IgnoreFile, g: IgnoreFile, n: nat, path: Path, isDir: bool)
    requires n <= |f.rules| && n <= |g.rules| && f.dir == g.dir && HasPrefix(path, f.dir) && f.rules[..n] == g.rules[..n]
    ensures Verdict(m, f, n, path, isDir) == Verdict(m, g, n, path, isDir)
  {
    if n > 0 {
      assert f.rules[n - 1] == f.rules[..n][n - 1] == g.rules[..n][n - 1] == g.rules[n - 1];
      assert f.rules[..n - 1] == f.rules[..n][..n - 1] && g.rules[..n - 1] == g.rules[..n][..n - 1];
      VerdictOfFront(m, f, g, n - 1, path, isDir);
    }
  }

  lemma {:induction false} DirVerdict(m: SegMatch, f: IgnoreFile, n: nat, path: Path)
    requires n <= |f.rules| && HasPrefix(path, f.dir)
    ensures Verdict(m, OfKind(f, true), n, path, true) == Verdict(m, f, n, path, true)
  {
    if n > 0 {
      DirVerdict(m, f, n - 1, path);
    }
  }

  lemma {:induction false} FileVerdict(m: SegMatch, f: IgnoreFile, path: Path)
    requires HasPrefix(path, f.dir)
    ensures Verdict(m, OfKind(f, false), |ForFiles(f.rules)|, path, false) == Verdict(m, f, |f.rules|, path, false)
    decreases |f.rules|
  {
    if f.rules != [] {
      var n := |f.rules| - 1;
      var g := f.(rules := f.rules[..n]);
      FileVerdict(m, g, path);
      VerdictOfFront(m, f, g, n, path, false);
      if !f.rules[n].dirOnly {
        VerdictOfFront(m, OfKind(f, false), OfKind(g, false), |ForFiles(g.rules)|, path, false);
      }
    }
  }

  /** A rule for directories only counts for a directory like any other, and for a
      file not at all. */
  lemma {:induction false} DirOnlyIsForDirs(m: SegMatch, files: seq<IgnoreFile>, kinds: seq<IgnoreFile>, n: nat, path: Path, isDir: bool)
    requires n <= |files| == |kinds| && forall i :: 0 <= i < |files| ==> kinds[i] == OfKind(files[i], isDir)
    ensures Excluded(m, files, n, path, isDir) == Excluded(m, kinds, n, path, isDir)
  {
    if n > 0 {
      DirOnlyIsForDirs(m, files, kinds, n - 1, path, isDir);
      var f := files[n - 1];
      if Considers(f, path) {
        if isDir {
          DirVerdict(m, f, |f.rules|, path);
        } else {
          FileVerdict(m, f, path);
        }
      }
    }
  }

  /** A rule file's own paths: what is left of a path below its directory. */
  lemma RelIsBelow(f: IgnoreFile, path: Path)
    requires HasPrefix(path, f.dir)
    ensures path == f.dir + Rel(f, path)
  {
  }

  /** What a rule file says of a path below it is what its rules would say at the
      root of that path's own part, wherever the file is. */
  lemma {:induction false} RulesAreRelative(m: SegMatch, dir: Path, rules: seq<Rule>, n: nat, rel: Path, isDir: bool)
    requires n <= |rules|
    ensures Verdict(m, IgnoreFile(dir, rules), n, dir + rel, isDir) == Verdict(m, IgnoreFile([], rules), n, rel, isDir)
  {
    if n > 0 {
      RulesAreRelative(m, dir, rules, n - 1, rel, isDir);
      assert Rel(IgnoreFile(dir, rules), dir + rel) == rel == Rel(IgnoreFile([], rules), rel);
    }
  }

  /** One file with one rule excludes exactly what the rule's pattern matches, unless
      it is a "!" rule, or for directories only and this is none. */
  lemma OneRuleExcludes(m: SegMatch, dir: Path, rule: Rule, rel: Path, isDir: bool)
    requires rel != [] && !StartsWithDots(rel[0])
    ensures Excluded(m, [IgnoreFile(dir, [rule])], 1, dir + rel, isDir)
            <==> Matches(m, rule.pat, rel, 0, 0) && !rule.negate && (rule.dirOnly ==> isDir)
  {
    var files := [IgnoreFile(dir, [rule])];
    assert Rel(files[0], dir + rel) == rel;
    assert Verdict(m, files[0], 0, dir + rel, isDir) == None;
    assert !Excluded(m, files, 0, dir + rel, isDir);
  }

  // ------------------------------------------ names that start with dots

  /** What git's rules would have: every file above the path has its say. */
  predicate WouldExclude(m: SegMatch, files: seq<IgnoreFile>, n: nat, path: Path, isDir: bool)
    requires n <= |files|
  {
    if n == 0 then false
    else
      var f := files[n - 1];
      if !HasPrefix(path, f.dir) || Verdict(m, f, |f.rules|, path, isDir) == None then WouldExclude(m, files, n - 1, path, isDir)
      else Verdict(m, f, |f.rules|, path, isDir) == Some(true)
  }

  predicate NoDots(path: Path) { forall k :: 0 <= k < |path| ==> !(".." <= path[k]) }

  predicate JudgedRight(m: SegMatch, files: seq<IgnoreFile>, path: Path, isDir: bool) {
    Excluded(m, files, |files|, path, isDir) == WouldExclude(m, files, |files|, path, isDir)
  }

  lemma {:induction false} AgreeWithoutDots(m: SegMatch, files: seq<IgnoreFile>, n: nat, path: Path, isDir: bool)
    requires n <= |files| && NoDots(path)
    ensures Excluded(m, files, n, path, isDir) == WouldExclude(m, files, n, path, isDir)
  {
    if n > 0 {
      AgreeWithoutDots(m, files, n - 1, path, isDir);
    }
  }

  /** The test on ".." was meant for steps up, and catches names too: a path is
      judged as the rules say, whatever they are, exactly when no component of it
      starts with two dots. */
  lemma JudgedRightIff(m: SegMatch, path: Path)
    ensures NoDots(path) <==> forall files, isDir :: JudgedRight(m, files, path, isDir)
  {
    if NoDots(path) {
      forall files: seq<IgnoreFile>, isDir: bool
        ensures JudgedRight(m, files, path, isDir)
      {
        AgreeWithoutDots(m, files, |files|, path, isDir);
      }
    } else {
      var k :| 0 <= k < |path| && ".." <= path[k];
      assert StartsWithDots(path[k]);
      var f := IgnoreFile(path[..k], [Rule([Star2], false, false)]);
      AnythingMatchesStar(m, Rel(f, path));
      assert Verdict(m, f, 0, path, false) == None;
      assert Verdict(m, f, 1, path, false) == Some(true);
      var files := [f];
      assert !Considers(f, path) && files[0] == f;
      assert !Excluded(m, files, 0, path, false) && !Excluded(m, files, 1, path, false);
      assert WouldExclude(m, files, 1, path, false) && |files| == 1;
      assert !JudgedRight(m, files, path, false);
    }
  }

  lemma AnythingMatchesStar(m: SegMatch, name: Path)
    ensures Matches(m, [Star2], name, 0, 0)
  {
    assert Matches(m, [Star2], name, 1, |name|);
    StarMatches(m, [Star2], name, 0, 0, |name|);
  }

  // ------------------------------------------------------------- the stack

  /** trimTo: drop from the top while the top does not contain dir. */
  function Trimmed(files: seq<IgnoreFile>, dir: Path): seq<IgnoreFile> {
    if files == [] || HasPrefix(dir, files[|files| - 1].dir) then files
    else Trimmed(files[..|files| - 1], dir)
  }

  predicate AllContain(files: seq<IgnoreFile>, dir: Path) {
    forall i :: 0 <= i < |files| ==> HasPrefix(dir, files[i].dir)
  }

  /** Rule files of directories below dir. */
  predicate AllBelow(files: seq<IgnoreFile>, dir: Path) {
    forall i :: 0 <= i < |files| ==> |files[i].dir| > |dir| && HasPrefix(files[i].dir, dir)
  }

  /** Trimming to a directory leaves exactly the files that contain it. */
  lemma {:induction false} TrimsExactly(front: seq<IgnoreFile>, extra: seq<IgnoreFile>, dir: Path)
    requires AllContain(front, dir) && AllBelow(extra, dir)
    ensures Trimmed(front + extra, dir) == front
  {
    if extra == [] {
      assert front + extra == front;
    } else {
      var n := |extra| - 1;
      assert (front + extra)[|front| + n] == extra[n];
      assert (front + extra)[..|front| + n] == front + extra[..n];
      TrimsExactly(front, extra[..n], dir);
    }
  }

  class IgnoreStack {
    var files: seq<IgnoreFile>

    constructor ()
      ensures files == []
    {
      files := [];
    }

    method TrimTo(dir: Path)
      modifies this
      ensures files == Trimmed(old(files), dir)
    {
      while |files| > 0 && !HasPrefix(dir, files[|files| - 1].dir)
        invariant Trimmed(files, dir) == Trimmed(old(files), dir)
      {
        files := files[..|files| - 1];
      }
    }

    /** push: a directory without rules adds nothing. */
    method Push(dir: Path, rules: seq<Rule>)
      modifies this
      ensures files == old(files) + (if rules == [] then [] else [IgnoreFile(dir, rules)])
    {
      if |rules| == 0 {
        return;
      }
      files := files + [IgnoreFile(dir, rules)];
    }

    /** ignored: deepest file first, and within it the last match wins. */
    method Ignored(m: SegMatch, path: Path, isDir: bool) returns (r: bool)
      ensures r == Excluded(m, files, |files|, path, isDir)
    {
      var i := |files|;
      while i > 0
        invariant 0 <= i <= |files| && Excluded(m, files, |files|, path, isDir) == Excluded(m, files, i, path, isDir)
      {
        i := i - 1;
        var file := files[i];
        if !Considers(file, path) {
          continue;
        }
        var decided, excluded := false, false;
        for k := 0 to |file.rules|
          invariant Verdict(m, file, k, path, isDir) == if decided then Some(excluded) else None
        {
          var rule := file.rules[k];
          if rule.dirOnly && !isDir {
            continue;
          }
          var matched, _ := MatchPath(m, rule.pat, Rel(file, path));
          if !matched {
            continue;
          }
          decided, excluded := true, !rule.negate;
        }
        if decided {
          return excluded;
        }
      }
      return false;
    }
  }
}
