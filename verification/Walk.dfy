/** internal/agent/fs/walk.go: the walk over an abstract directory tree, its
    callback's mutable stack against a definition without one.
  */
module Walk {
  import opened Optional
  import opened Bytes
  import opened Pattern
  import opened GitIgnore

  /** What a name in a directory is. A link is kept when it leads to a regular
      file inside the jail. */
  datatype Kind = Regular | Link(kept: bool) | Special

  /** A directory's entries in the order they are read. */
  datatype Forest = Nil | Cons(name: Seg, node: Node, rest: Forest)

  datatype Node = Leaf(kind: Kind) | Dir(rules: seq<Rule>, readable: bool, entries: Forest)

  datatype Options = Options(respectGitignore: bool, includeDefaultIgnored: bool, descend: Path -> bool, m: SegMatch)

  predicate DefaultIgnored(name: Seg) { name == ".git" || name == "node_modules" || name == "vendor" || name == "target" }

  predicate Yieldable(kind: Kind) { kind == Regular || (kind.Link? && kind.kept) }

  /** The rule file of a directory, if it has rules and they are respected. */
  function Own(o: Options, path: Path, rules: seq<Rule>): seq<IgnoreFile> {
    if o.respectGitignore && rules != [] then [IgnoreFile(path, rules)] else []
  }

  predicate Refused(o: Options, above: seq<IgnoreFile>, path: Path, isDir: bool) {
    o.respectGitignore && Excluded(o.m, above, |above|, path, isDir)
  }

  /** Whether the walk goes into a directory other than the root. */
  predicate Enters(o: Options, above: seq<IgnoreFile>, path: Path)
    requires path != []
  {
    && (o.includeDefaultIgnored || !DefaultIgnored(path[|path| - 1]))
    && !Refused(o, above, path, true) && o.descend(path)
  }

  // ------------------------------------------- what a walk should yield

  /** The files kept at or under path; `above` are the rule files of the directories
      that contain it, outermost first. */
  function Yields(o: Options, path: Path, node: Node, above: seq<IgnoreFile>): seq<Path>
    requires path != []
    decreases node
  {
    match node
    case Leaf(kind) => if !Refused(o, above, path, false) && Yieldable(kind) then [path] else []
    case Dir(rules, readable, entries) =>
      if Enters(o, above, path) && readable then YieldsAll(o, path, entries, above + Own(o, path, rules)) else []
  }

  function YieldsAll(o: Options, dir: Path, f: Forest, above: seq<IgnoreFile>): seq<Path>
    decreases f
  {
    match f
    case Nil => []
    case Cons(name, node, rest) => Yields(o, dir + [name], node, above) + YieldsAll(o, dir, rest, above)
  }

  /** From the root, which is entered without question. */
  function YieldsRoot(o: Options, root: Node): seq<Path> {
    match root
    case Leaf(_) => []
    case Dir(rules, readable, entries) => if readable then YieldsAll(o, [], entries, Own(o, [], rules)) else []
  }

  // --------------------------------------------------- what it should visit

  /** One visit that got as far as the ignore rules, and the rule files it met. */
  datatype Visit = Visit(path: Path, files: seq<IgnoreFile>)

  function VisitOf(o: Options, path: Path, above: seq<IgnoreFile>): seq<Visit> {
    if o.respectGitignore then [Visit(path, above)] else []
  }

  /** The visits at or under path, in order. */
  function Visits(o: Options, path: Path, node: Node, above: seq<IgnoreFile>): seq<Visit>
    requires path != []
    decreases node
  {
    match node
    case Leaf(_) => VisitOf(o, path, above)
    case Dir(rules, readable, entries) =>
      if !o.includeDefaultIgnored && DefaultIgnored(path[|path| - 1]) then []
      else VisitOf(o, path, above)
           + (if Enters(o, above, path) && readable then VisitsAll(o, path, entries, above + Own(o, path, rules)) else [])
  }

  function VisitsAll(o: Options, dir: Path, f: Forest, above: seq<IgnoreFile>): seq<Visit>
    decreases f
  {
    match f
    case Nil => []
    case Cons(name, node, rest) => Visits(o, dir + [name], node, above) + VisitsAll(o, dir, rest, above)
  }

  function VisitsRoot(o: Options, root: Node): seq<Visit> {
    match root
    case Leaf(_) => []
    case Dir(rules, readable, entries) => if readable then VisitsAll(o, [], entries, Own(o, [], rules)) else []
  }

  // ------------------------------------------------------- the same, by path

  function Child(f: Forest, name: Seg): Option<Node> {
    match f
    case Nil => None
    case Cons(n, node, rest) => if n == name then Some(node) else Child(rest, name)
  }

  predicate Distinct(f: Forest) {
    match f
    case Nil => true
    case Cons(n, node, rest) => Child(rest, n) == None && Distinct(rest) && Sound(node)
  }

  /** No directory has two entries of one name. */
  predicate Sound(node: Node) { node.Dir? ==> Distinct(node.entries) }

  /** Rel, below the directory entries `f` of `dir`, leads through directories the
      walk enters to a file it keeps. */
  predicate Kept(o: Options, dir: Path, f: Forest, above: seq<IgnoreFile>, rel: Path)
    decreases |rel|
  {
    rel != [] &&
    match Child(f, rel[0])
    case None => false
    case Some(Leaf(kind)) => |rel| == 1 && !Refused(o, above, dir + rel, false) && Yieldable(kind)
    case Some(Dir(rules, readable, entries)) =>
      var sub := dir + [rel[0]];
      Enters(o, above, sub) && readable && Kept(o, sub, entries, above + Own(o, sub, rules), rel[1..])
  }

  lemma {:induction false} YieldsBelow(o: Options, path: Path, node: Node, above: seq<IgnoreFile>, p: Path)
    requires path != [] && p in Yields(o, path, node, above)
    ensures HasPrefix(p, path)
    decreases node
  {
    if node.Dir? {
      YieldsAllBelow(o, path, node.entries, above + Own(o, path, node.rules), p);
    }
  }

  lemma {:induction false} YieldsAllBelow(o: Options, dir: Path, f: Forest, above: seq<IgnoreFile>, p: Path)
    requires p in YieldsAll(o, dir, f, above)
    ensures |p| > |dir| && HasPrefix(p, dir) && Child(f, p[|dir|]).Some?
    decreases f
  {
    var sub := dir + [f.name];
    if p in Yields(o, sub, f.node, above) {
      YieldsBelow(o, sub, f.node, above, p);
      assert p[|dir|] == p[..|sub|][|dir|] == f.name;
      assert p[..|dir|] == p[..|sub|][..|dir|];
    } else {
      YieldsAllBelow(o, dir, f.rest, above, p);
    }
  }

  lemma NotElsewhere(o: Options, path: Path, node: Node, above: seq<IgnoreFile>, p: Path)
    requires path != [] && (|p| < |path| || p[|path| - 1] != path[|path| - 1])
    ensures p !in Yields(o, path, node, above)
  {
    if p in Yields(o, path, node, above) {
      YieldsBelow(o, path, node, above, p);
    }
  }

  /** A file is yielded exactly when no directory on the way to it is pruned and it
      is not itself refused. */
  lemma {:induction false} YieldedIffKept(o: Options, dir: Path, f: Forest, above: seq<IgnoreFile>, rel: Path)
    requires Distinct(f)
    ensures dir + rel in YieldsAll(o, dir, f, above) <==> Kept(o, dir, f, above, rel)
    decreases f
  {
    var p := dir + rel;
    match f
    case Nil =>
    case Cons(name, node, rest) =>
      YieldedIffKept(o, dir, rest, above, rel);
      var sub := dir + [name];
      if rel != [] && rel[0] == name {
        assert p == sub + rel[1..] && p[|dir|] == name;
        if p in YieldsAll(o, dir, rest, above) {
          YieldsAllBelow(o, dir, rest, above, p);
        }
        if node.Dir? {
          YieldedIffKept(o, sub, node.entries, above + Own(o, sub, node.rules), rel[1..]);
        } else if |rel| == 1 {
          assert p == sub;
        }
      } else {
        NotElsewhere(o, sub, node, above, p);
      }
  }

  // ------------------------------------------------------ pruning for Glob

  function Everywhere(o: Options): Options { o.(descend := _ => true) }

  /** Glob's options: a directory is entered if the pattern may match below it. */
  function Pruned(o: Options, pat: seq<Seg>): Options { o.(descend := dir => PrefixMatch(o.m, pat, dir, 0)) }

  lemma {:induction false} PrunedKeeps(o: Options, pat: seq<Seg>, dir: Path, f: Forest, above: seq<IgnoreFile>, rel: Path)
    requires Matches(o.m, pat, dir + rel, 0, 0)
    ensures Kept(Pruned(o, pat), dir, f, above, rel) <==> Kept(Everywhere(o), dir, f, above, rel)
    decreases |rel|
  {
    if rel != [] && Child(f, rel[0]).Some? && Child(f, rel[0]).value.Dir? {
      var sub, node := dir + [rel[0]], Child(f, rel[0]).value;
      assert sub + rel[1..] == dir + rel && (dir + rel)[..|sub|] == sub;
      PruningIsSafe(o.m, pat, dir + rel, |sub|);
      PrunedKeeps(o, pat, sub, node.entries, above + Own(o, sub, node.rules), rel[1..]);
    }
  }

  /** Skipping the subtrees a pattern cannot reach costs Glob no match. */
  lemma GlobLosesNothing(o: Options, pat: seq<Seg>, root: Node, p: Path)
    requires Sound(root) && Matches(o.m, pat, p, 0, 0)
    ensures p in YieldsRoot(Pruned(o, pat), root) <==> p in YieldsRoot(Everywhere(o), root)
  {
    if root.Dir? {
      var above := Own(o, [], root.rules);
      assert [] + p == p;
      PrunedKeeps(o, pat, [], root.entries, above, p);
      YieldedIffKept(Pruned(o, pat), [], root.entries, above, p);
      YieldedIffKept(Everywhere(o), [], root.entries, above, p);
    }
  }

  // ---------------------------------------------- the rule files on the way

  /** The entry at rel below a node. */
  function Find(node: Node, rel: Path): Option<Node>
    decreases |rel|
  {
    if rel == [] then Some(node)
    else match node
      case Leaf(_) => None
      case Dir(_, _, entries) =>
        match Child(entries, rel[0])
        case None => None
        case Some(child) => Find(child, rel[1..])
  }

  function RulesOf(n: Option<Node>): seq<Rule> { if n.Some? && n.value.Dir? then n.value.rules else [] }

  /** The rule files of dir and of every directory above it, outermost first. */
  function Along(o: Options, root: Node, dir: Path): seq<IgnoreFile> {
    (if dir == [] then [] else Along(o, root, dir[..|dir| - 1])) + Own(o, dir, RulesOf(Find(root, dir)))
  }

  lemma {:induction false} FindStep(root: Node, dir: Path, name: Seg)
    ensures var n := Find(root, dir);
            Find(root, dir + [name]) == if n.Some? && n.value.Dir? then Child(n.value.entries, name) else None
    decreases |dir|
  {
    if dir == [] {
      assert dir + [name] == [name] && [name][1..] == [];
    } else if root.Dir? && Child(root.entries, dir[0]).Some? {
      FindStep(Child(root.entries, dir[0]).value, dir[1..], name);
      assert (dir + [name])[1..] == dir[1..] + [name];
    }
  }

  lemma {:induction false} AlongContains(o: Options, root: Node, dir: Path)
    ensures AllContain(Along(o, root, dir), dir)
    ensures !o.respectGitignore ==> Along(o, root, dir) == []
  {
    if dir != [] {
      var up := dir[..|dir| - 1];
      AlongContains(o, root, up);
      var files := Along(o, root, dir);
      forall i | 0 <= i < |files|
        ensures HasPrefix(dir, files[i].dir)
      {
        if i < |Along(o, root, up)| {
          assert files[i] == Along(o, root, up)[i];
          assert dir[..|files[i].dir|] == up[..|files[i].dir|];
        }
      }
    }
  }

  predicate PartOf(f: Forest, entries: Forest) {
    match f
    case Nil => true
    case Cons(name, node, rest) => Child(entries, name) == Some(node) && PartOf(rest, entries)
  }

  lemma {:induction false} PartOfLonger(f: Forest, name: Seg, node: Node, entries: Forest)
    requires Child(f, name) == None && PartOf(f, entries)
    ensures PartOf(f, Cons(name, node, entries))
    decreases f
  {
    if f.Cons? {
      PartOfLonger(f.rest, name, node, entries);
    }
  }

  lemma {:induction false} AllPartOfItself(f: Forest)
    requires Distinct(f)
    ensures PartOf(f, f)
    decreases f
  {
    if f.Cons? {
      AllPartOfItself(f.rest);
      PartOfLonger(f.rest, f.name, f.node, f.rest);
    }
  }

  // --------------------------------------------------------- the callback

  /** What the callback answers: nil, SkipDir or SkipAll. */
  datatype Next = Continue | SkipDir | SkipAll

  /** The walk in progress: what fn has been given, and how many it wants. */
  class Walker {
    const o: Options
    const limit: nat
    const stack: IgnoreStack
    var found: seq<Path>
    var stopped: bool
    ghost var visits: seq<Visit>

    constructor (o: Options, limit: nat)
      ensures this.o == o && this.limit == limit && fresh(stack)
      ensures stack.files == [] && found == [] && visits == [] && !stopped
    {
      this.o, this.limit := o, limit;
      stack := new IgnoreStack();
      found, stopped, visits := [], false, [];
    }

    /** fn: take the file, and stop the walk when enough were taken. */
    method Yield(path: Path) returns (keepGoing: bool)
      modifies this`found
      ensures found == old(found) + [path] && keepGoing == (|found| != limit)
    {
      found := found + [path];
      keepGoing := |found| != limit;
    }

    /** The callback on a directory other than the root, or on a file. */
    method Callback(path: Path, node: Node, ghost above: seq<IgnoreFile>, ghost extra: seq<IgnoreFile>)
      returns (next: Next, ghost extra': seq<IgnoreFile>)
      requires path != [] && !stopped && stack.files == above + extra
      requires o.respectGitignore ==> AllContain(above, path[..|path| - 1]) && AllBelow(extra, path[..|path| - 1])
      requires !o.respectGitignore ==> above == extra == []
      modifies this, stack
      ensures node.Dir? ==> found == old(found) && !stopped && (next.SkipDir? || next.Continue?)
      ensures node.Dir? ==> (next.Continue? <==> Enters(o, above, path))
      ensures next.Continue? && node.Dir? ==> stack.files == above + Own(o, path, node.rules)
      ensures node.Leaf? ==> found == old(found) + Yields(o, path, node, above) && (next.SkipAll? <==> stopped) && !next.SkipDir?
      ensures node.Leaf? ==> (stopped <==> |found| > |old(found)| && |found| == limit)
      ensures stack.files == above + extra'
      ensures extra' == extra || extra' == [] || extra' == Own(o, path, if node.Dir? then node.rules else [])
      ensures visits == old(visits) + (if node.Leaf? || o.includeDefaultIgnored || !DefaultIgnored(path[|path| - 1])
                                       then VisitOf(o, path, above) else [])
    {
      var parent := path[..|path| - 1];
      if o.respectGitignore {
        TrimsExactly(above, extra, parent);
      }
      assert above + [] == above;
      extra' := extra;
      match node
      case Dir(rules, _, _) =>
        if !o.includeDefaultIgnored && DefaultIgnored(path[|path| - 1]) {
          return SkipDir, extra';
        }
        if o.respectGitignore {
          stack.TrimTo(parent);
          extra' := [];
          visits := visits + [Visit(path, stack.files)];
          var ignored := stack.Ignored(o.m, path, true);
          if ignored {
            return SkipDir, extra';
          }
          stack.Push(path, rules);
          extra' := Own(o, path, rules);
        }
        if !o.descend(path) {
          return SkipDir, extra';
        }
        return Continue, extra';
      case Leaf(kind) =>
        if o.respectGitignore {
          stack.TrimTo(parent);
          extra' := [];
          visits := visits + [Visit(path, stack.files)];
          var ignored := stack.Ignored(o.m, path, false);
          if ignored {
            return Continue, extra';
          }
        }
        match kind {
          case Regular =>
          case Link(kept) =>
            if !kept {
              return Continue, extra';
            }
          case Special =>
            return Continue, extra';
        }
        var keepGoing := Yield(path);
        if !keepGoing {
          stopped := true;
          return SkipAll, extra';
        }
        return Continue, extra';
    }

    /** Every stack met so far held exactly the rule files above the path visited. */
    ghost predicate VisitsOk(root: Node)
      reads this
    {
      forall i :: 0 <= i < |visits| ==> VisitOk(o, root, visits[i])
    }

    /** Between entries of dir: the rule files above them, and perhaps leftovers. */
    ghost predicate At(root: Node, dir: Path, extra: seq<IgnoreFile>)
      reads this, stack
    {
      stack.files == Along(o, root, dir) + extra && AllBelow(extra, dir) && (!o.respectGitignore ==> extra == [])
    }

    /** filepath.WalkDir below one entry. */
    method WalkNode(ghost root: Node, dir: Path, name: Seg, node: Node, ghost extra: seq<IgnoreFile>) returns (ghost extra': seq<IgnoreFile>)
      requires !stopped && Room(limit, |found|) && At(root, dir, extra) && VisitsOk(root)
      requires Find(root, dir + [name]) == Some(node) && Sound(node)
      modifies this, stack
      ensures At(root, dir, extra') && VisitsOk(root)
      ensures (found, stopped) == Taken(limit, old(found) + Yields(o, dir + [name], node, Along(o, root, dir)))
      ensures Logged(o, old(visits), Visits(o, dir + [name], node, Along(o, root, dir)), visits, found, stopped)
      decreases node, 1
    {
      var path := dir + [name];
      ghost var took, before, above := found, visits, Along(o, root, dir);
      var next;
      next, extra' := VisitEntry(root, dir, name, node, extra);
      if node.Leaf? {
        return;
      }
      if next != Continue || !node.readable {
        assert took + [] == took;
        assert VisitOf(o, path, above) + [] == VisitOf(o, path, above);
        return;
      }
      extra' := WalkEntries(root, dir, name, node);
      LoggedThen(o, before, VisitOf(o, path, above), VisitsAll(o, path, node.entries, Along(o, root, path)), visits, found, stopped);
    }

    /** The callback, told where in the tree it is. */
    method VisitEntry(ghost root: Node, dir: Path, name: Seg, node: Node, ghost extra: seq<IgnoreFile>) returns (next: Next, ghost extra': seq<IgnoreFile>)
      requires !stopped && Room(limit, |found|) && At(root, dir, extra) && VisitsOk(root)
      requires Find(root, dir + [name]) == Some(node)
      modifies this, stack
      ensures At(root, dir, extra') && VisitsOk(root)
      ensures node.Leaf? ==> (found, stopped) == Taken(limit, old(found) + Yields(o, dir + [name], node, Along(o, root, dir)))
                             && Logged(o, old(visits), VisitOf(o, dir + [name], Along(o, root, dir)), visits, found, stopped)
      ensures node.Dir? ==> && !stopped && found == old(found) && (next == Continue <==> Enters(o, Along(o, root, dir), dir + [name]))
                            && visits == old(visits) + (if o.includeDefaultIgnored || !DefaultIgnored(name)
                                                        then VisitOf(o, dir + [name], Along(o, root, dir)) else [])
                            && (next == Continue ==> stack.files == Along(o, root, dir + [name]))
    {
      var path := dir + [name];
      ghost var above, took := Along(o, root, dir), found;
      assert path[..|path| - 1] == dir && path[|path| - 1] == name;
      AlongContains(o, root, dir);
      next, extra' := Callback(path, node, above, extra);
      assert Along(o, root, path) == above + Own(o, path, RulesOf(Some(node)));
      OwnIsBelow(o, dir, name, RulesOf(Some(node)));
      if node.Leaf? {
        TakenOne(limit, took, Yields(o, path, node, above));
      }
    }

    /** filepath.WalkDir inside a directory that was entered. */
    method WalkEntries(ghost root: Node, dir: Path, name: Seg, node: Node) returns (ghost extra': seq<IgnoreFile>)
      requires !stopped && Room(limit, |found|) && stack.files == Along(o, root, dir + [name]) && VisitsOk(root)
      requires node.Dir? && Find(root, dir + [name]) == Some(node) && Sound(node)
      modifies this, stack
      ensures At(root, dir, extra') && VisitsOk(root)
      ensures (found, stopped) == Taken(limit, old(found) + YieldsAll(o, dir + [name], node.entries, Along(o, root, dir + [name])))
      ensures Logged(o, old(visits), VisitsAll(o, dir + [name], node.entries, Along(o, root, dir + [name])), visits, found, stopped)
      decreases node, 0
    {
      var path := dir + [name];
      assert path[..|path| - 1] == dir;
      AlongContains(o, root, path);
      assert Along(o, root, path) + [] == Along(o, root, path);
      AllPartOfItself(node.entries);
      ghost var deeper := WalkForest(root, path, node.entries, node.entries, []);
      Assoc(Along(o, root, dir), Own(o, path, node.rules), deeper);
      extra' := Own(o, path, node.rules) + deeper;
      LeftoversAreBelow(o, dir, name, node.rules, deeper);
    }

    /** filepath.WalkDir over a directory's entries, in order. */
    method WalkForest(ghost root: Node, dir: Path, f: Forest, ghost entries: Forest, ghost extra: seq<IgnoreFile>) returns (ghost extra': seq<IgnoreFile>)
      requires !stopped && Room(limit, |found|) && At(root, dir, extra) && VisitsOk(root)
      requires Find(root, dir).Some? && Find(root, dir).value.Dir? && Find(root, dir).value.entries == entries
      requires PartOf(f, entries) && Distinct(f)
      modifies this, stack
      ensures At(root, dir, extra') && VisitsOk(root)
      ensures (found, stopped) == Taken(limit, old(found) + YieldsAll(o, dir, f, Along(o, root, dir)))
      ensures Logged(o, old(visits), VisitsAll(o, dir, f, Along(o, root, dir)), visits, found, stopped)
      decreases f, 0
    {
      ghost var took, above, before := found, Along(o, root, dir), visits;
      match f
      case Nil =>
        extra' := extra;
        assert took + [] == took && visits + [] == visits;
      case Cons(name, node, rest) =>
        FindStep(root, dir, name);
        extra' := WalkNode(root, dir, name, node, extra);
        ghost var here, there := Yields(o, dir + [name], node, above), YieldsAll(o, dir, rest, above);
        Assoc(took, here, there);
        ghost var seen, more := Visits(o, dir + [name], node, above), VisitsAll(o, dir, rest, above);
        if stopped {
          TakenEarly(limit, took + here, there);
          LoggedFirst(o, before, seen, more, visits, found);
          return;
        }
        extra' := WalkForest(root, dir, rest, entries, extra');
        LoggedThen(o, before, seen, more, visits, found, stopped);
    }

    /** walkTree */
    method WalkRoot(root: Node)
      requires found == [] && visits == [] && !stopped && stack.files == [] && root.Dir? && Sound(root)
      modifies this, stack
      ensures VisitsOk(root)
      ensures (found, stopped) == Taken(limit, YieldsRoot(o, root))
      ensures Logged(o, [], VisitsRoot(o, root), visits, found, stopped)
    {
      if o.respectGitignore {
        stack.Push([], root.rules);
      }
      assert Along(o, root, []) == Own(o, [], root.rules);
      assert Along(o, root, []) + [] == Along(o, root, []);
      if !root.readable {
        return;
      }
      AllPartOfItself(root.entries);
      ghost var extra := WalkForest(root, [], root.entries, root.entries, []);
      assert [] + YieldsRoot(o, root) == YieldsRoot(o, root);
    }
  }

  predicate VisitOk(o: Options, root: Node, v: Visit) {
    v.path != [] && v.files == Along(o, root, v.path[..|v.path| - 1])
  }

  /** A walk that was not stopped has made all its visits; one that was has made
      those up to the last file it took. */
  predicate Logged(o: Options, was: seq<Visit>, all: seq<Visit>, now: seq<Visit>, found: seq<Path>, stopped: bool) {
    if !stopped then now == was + all
    else
      && IsPrefix(now, was + all)
      && (o.respectGitignore ==> |now| > |was| && found != [] && now[|now| - 1].path == found[|found| - 1])
  }

  lemma LoggedFirst(o: Options, was: seq<Visit>, here: seq<Visit>, there: seq<Visit>, now: seq<Visit>, found: seq<Path>)
    requires Logged(o, was, here, now, found, true)
    ensures Logged(o, was, here + there, now, found, true)
  {
    assert was + (here + there) == (was + here) + there;
  }

  lemma LoggedThen(o: Options, was: seq<Visit>, here: seq<Visit>, there: seq<Visit>, now: seq<Visit>, found: seq<Path>, stopped: bool)
    requires Logged(o, was + here, there, now, found, stopped)
    ensures Logged(o, was, here + there, now, found, stopped)
  {
    Assoc(was, here, there);
  }

  /** Taking stops at the limit; none is no limit. */
  predicate Room(limit: nat, n: nat) { limit == 0 || n < limit }

  function Taken(limit: nat, all: seq<Path>): (seq<Path>, bool) {
    if Room(limit, |all|) then (all, false) else (all[..limit], true)
  }

  lemma TakenOne(limit: nat, took: seq<Path>, more: seq<Path>)
    requires Room(limit, |took|) && |more| <= 1
    ensures Taken(limit, took + more) == (took + more, more != [] && |took| + 1 == limit)
  {
    assert (took + more)[..|took + more|] == took + more;
  }

  lemma TakenEarly(limit: nat, some: seq<Path>, more: seq<Path>)
    requires !Room(limit, |some|)
    ensures Taken(limit, some + more) == Taken(limit, some)
  {
    assert (some + more)[..limit] == some[..limit];
  }

  lemma OwnIsBelow(o: Options, dir: Path, name: Seg, rules: seq<Rule>)
    ensures AllBelow(Own(o, dir + [name], rules), dir)
  {
  }

  lemma LeftoversAreBelow(o: Options, dir: Path, name: Seg, rules: seq<Rule>, deeper: seq<IgnoreFile>)
    requires AllBelow(deeper, dir + [name])
    ensures AllBelow(Own(o, dir + [name], rules) + deeper, dir)
  {
    var files := Own(o, dir + [name], rules) + deeper;
    forall i | 0 <= i < |files|
      ensures |files[i].dir| > |dir| && HasPrefix(files[i].dir, dir)
    {
      var k := i - |Own(o, dir + [name], rules)|;
      if k >= 0 {
        assert files[i] == deeper[k];
        assert deeper[k].dir[..|dir|] == deeper[k].dir[..|dir| + 1][..|dir|];
      }
    }
  }
}
