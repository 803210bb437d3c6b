/** internal/agent/fs/walk.go: which files a walk yields, told of each directory on
    the way by itself rather than by following the walk.
  */
module WalkAccount {
  import opened Optional
  import opened Bytes
  import opened GitIgnore
  import Pattern
  import opened Walk

  // ---------------------------------------------------- the rules in force

  /** The rule file of the directory k components down, and its being there. */
  predicate HasRules(root: Node, dir: Path, k: nat) { k <= |dir| && RulesOf(Find(root, dir[..k])) != [] }

  function RuleFile(root: Node, dir: Path, k: nat): IgnoreFile
    requires k <= |dir|
  {
    IgnoreFile(dir[..k], RulesOf(Find(root, dir[..k])))
  }

  lemma PrefixOfFront(dir: Path, k: nat)
    requires k < |dir|
    ensures dir[..|dir| - 1][..k] == dir[..k]
  {
  }

  /** The rule files in force below a directory are those of it and of the ones above
      it that have rules, and none when they are not respected. */
  lemma {:induction false} InForceIff(o: Options, root: Node, dir: Path, f: IgnoreFile)
    ensures f in Along(o, root, dir)
            <==> o.respectGitignore && exists k: nat :: k <= |dir| && HasRules(root, dir, k) && f == RuleFile(root, dir, k)
    decreases |dir|
  {
    assert dir[..|dir|] == dir;
    if dir != [] {
      var front := dir[..|dir| - 1];
      InForceIff(o, root, front, f);
      if k: nat :| k <= |front| && HasRules(root, front, k) && f == RuleFile(root, front, k) {
        PrefixOfFront(dir, k);
        assert HasRules(root, dir, k) && f == RuleFile(root, dir, k);
      }
      if k: nat :| k < |dir| && HasRules(root, dir, k) && f == RuleFile(root, dir, k) {
        PrefixOfFront(dir, k);
        assert HasRules(root, front, k) && f == RuleFile(root, front, k);
      }
    }
    if HasRules(root, dir, |dir|) {
      assert RuleFile(root, dir, |dir|) == IgnoreFile(dir, RulesOf(Find(root, dir)));
    }
  }

  /** Each lies deeper than the one before, none deeper than n. */
  predicate Deepening(files: seq<IgnoreFile>, n: nat) {
    && (forall i :: 0 <= i < |files| ==> |files[i].dir| <= n)
    && (forall i, j :: 0 <= i < j < |files| ==> |files[i].dir| < |files[j].dir|)
  }

  lemma DeepensOneMore(files: seq<IgnoreFile>, own: seq<IgnoreFile>, n: nat)
    requires Deepening(files, n) && |own| <= 1 && forall i :: 0 <= i < |own| ==> |own[i].dir| == n + 1
    ensures Deepening(files + own, n + 1)
  {
  }

  /** Outermost first, so that the deepest has the last word. */
  lemma {:induction false} OutermostFirst(o: Options, root: Node, dir: Path)
    ensures Deepening(Along(o, root, dir), |dir|)
    decreases |dir|
  {
    var own := Own(o, dir, RulesOf(Find(root, dir)));
    if dir == [] {
      assert [] + own == own;
    } else {
      OutermostFirst(o, root, dir[..|dir| - 1]);
      DeepensOneMore(Along(o, root, dir[..|dir| - 1]), own, |dir| - 1);
    }
  }

  // ------------------------------------------------------------ the account

  /** The rules exclude it. */
  predicate RuledOut(o: Options, root: Node, path: Path, isDir: bool)
    requires path != []
  {
    var files := Along(o, root, path[..|path| - 1]);
    o.respectGitignore && Excluded(o.m, files, |files|, path, isDir)
  }

  /** A directory the walk goes on below: it can be read, is not one of the four that
      are left out unless asked for, is not ruled out, and may hold what is wanted. */
  predicate GoesOn(o: Options, root: Node, path: Path)
    requires path != []
  {
    var n, name := Find(root, path), path[|path| - 1];
    && n.Some? && n.value.Dir? && n.value.readable
    && (o.includeDefaultIgnored || (name != ".git" && name != "node_modules" && name != "vendor" && name != "target"))
    && !RuledOut(o, root, path, true) && o.descend(path)
  }

  /** A regular file, or a link to one inside the jail. */
  predicate IsFile(n: Option<Node>) { n == Some(Leaf(Regular)) || n == Some(Leaf(Link(true))) }

  /** The directories on the way to p, from the n-th on. */
  predicate WayOpen(o: Options, root: Node, p: Path, n: nat) {
    forall k :: n < k < |p| ==> GoesOn(o, root, p[..k])
  }

  lemma AlongOneMore(o: Options, root: Node, dir: Path, name: Pattern.Seg)
    ensures Along(o, root, dir + [name]) == Along(o, root, dir) + Own(o, dir + [name], RulesOf(Find(root, dir + [name])))
  {
    assert (dir + [name])[..|dir|] == dir;
  }

  /** Entering a directory and reading it is going on below it. */
  lemma EntersIff(o: Options, root: Node, dir: Path, name: Pattern.Seg)
    requires Find(root, dir + [name]).Some? && Find(root, dir + [name]).value.Dir?
    ensures GoesOn(o, root, dir + [name])
            <==> Enters(o, Along(o, root, dir), dir + [name]) && Find(root, dir + [name]).value.readable
  {
    assert (dir + [name])[..|dir|] == dir;
  }

  lemma WayOpens(o: Options, root: Node, p: Path, n: nat)
    requires n + 1 < |p|
    ensures WayOpen(o, root, p, n) <==> GoesOn(o, root, p[..n + 1]) && WayOpen(o, root, p, n + 1)
  {
  }

  predicate Reached(o: Options, root: Node, p: Path, n: nat) {
    p != [] && IsFile(Find(root, p)) && !RuledOut(o, root, p, false) && WayOpen(o, root, p, n)
  }

  /** A name in the directory itself. */
  lemma KeptHere(o: Options, root: Node, dir: Path, name: Pattern.Seg)
    requires Find(root, dir).Some? && Find(root, dir).value.Dir?
    ensures Kept(o, dir, Find(root, dir).value.entries, Along(o, root, dir), [name]) <==> Reached(o, root, dir + [name], |dir|)
  {
    var p := dir + [name];
    FindStep(root, dir, name);
    assert p[..|dir|] == dir && [name][1..] == [];
    assert WayOpen(o, root, p, |dir|);
    if Find(root, p).Some? && Find(root, p).value.Dir? {
      assert !Kept(o, p, Find(root, p).value.entries, Along(o, root, dir) + Own(o, p, Find(root, p).value.rules), []);
    }
  }

  /** A name further down leads through one of its directories. */
  lemma ReachedThrough(o: Options, root: Node, dir: Path, rel: Path)
    requires Find(root, dir).Some? && Find(root, dir).value.Dir? && |rel| > 1
    ensures Reached(o, root, dir + rel, |dir|) <==> GoesOn(o, root, dir + [rel[0]]) && Reached(o, root, dir + rel, |dir| + 1)
  {
    assert (dir + rel)[..|dir| + 1] == dir + [rel[0]];
    WayOpens(o, root, dir + rel, |dir|);
  }

  lemma KeptThrough(o: Options, root: Node, dir: Path, rel: Path)
    requires Find(root, dir).Some? && Find(root, dir).value.Dir? && |rel| > 1
    ensures var n := Find(root, dir + [rel[0]]);
            Kept(o, dir, Find(root, dir).value.entries, Along(o, root, dir), rel)
            <==> n.Some? && n.value.Dir? && GoesOn(o, root, dir + [rel[0]])
                 && Kept(o, dir + [rel[0]], n.value.entries, Along(o, root, dir + [rel[0]]), rel[1..])
  {
    FindStep(root, dir, rel[0]);
    AlongOneMore(o, root, dir, rel[0]);
    if Find(root, dir + [rel[0]]).Some? && Find(root, dir + [rel[0]]).value.Dir? {
      EntersIff(o, root, dir, rel[0]);
    }
  }

  lemma {:induction false} KeptIffReached(o: Options, root: Node, dir: Path, rel: Path)
    requires Find(root, dir).Some? && Find(root, dir).value.Dir?
    ensures Kept(o, dir, Find(root, dir).value.entries, Along(o, root, dir), rel) <==> rel != [] && Reached(o, root, dir + rel, |dir|)
    decreases |rel|
  {
    if |rel| == 1 {
      assert rel == [rel[0]];
      KeptHere(o, root, dir, rel[0]);
    } else if rel != [] {
      var sub := dir + [rel[0]];
      KeptThrough(o, root, dir, rel);
      ReachedThrough(o, root, dir, rel);
      if Find(root, sub).Some? && Find(root, sub).value.Dir? {
        assert sub + rel[1..] == dir + rel;
        KeptIffReached(o, root, sub, rel[1..]);
      }
    }
  }

  /** The walk yields a file exactly when it is a regular file, or a link to one inside
      the jail, the rules in force do not exclude it, and each directory on the way goes
      on: readable, not left out by its name, not excluded, and not pruned. */
  lemma YieldedIff(o: Options, root: Node, p: Path)
    requires Sound(root) && root.Dir?
    ensures p in YieldsRoot(o, root) <==> root.readable && Reached(o, root, p, 0)
  {
    var above := Own(o, [], root.rules);
    assert [] + p == p;
    YieldedIffKept(o, [], root.entries, above, p);
    assert Along(o, root, []) == above by {
      assert [] + above == above;
    }
    KeptIffReached(o, root, [], p);
  }

  /** A walk with a limit takes the first so many files and stops at the last of them;
      without one it takes all. */
  lemma TakesTheFirst(limit: nat, all: seq<Path>)
    ensures Taken(limit, all).0 == (if 0 < limit < |all| then all[..limit] else all)
    ensures Taken(limit, all).1 <==> 0 < limit <= |all|
  {
    if limit == |all| {
      assert all[..limit] == all;
    }
  }
}
