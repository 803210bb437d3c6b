/** internal/agent/fs/locks.go: lock keys, their order, and the order in which
    lockBoth takes two of them.
  */
module LockKeys {

  type Key = string

  /** What the platform makes of a spelling: the identity, or strings.ToLower, which
      is any function here. */
  type Fold = string -> string

  /** lockKey: one key for every spelling of a path that the platform folds together. */
  function LockKey(fold: Fold, path: string): Key { fold(path) }

  /** Go's string order. */
  predicate Less(a: Key, b: Key) {
    if b == [] then false
    else if a == [] then true
    else a[0] < b[0] || (a[0] == b[0] && Less(a[1..], b[1..]))
  }

  lemma {:induction false} LessIsIrreflexive(a: Key)
    ensures !Less(a, a)
  {
    if a != [] {
      LessIsIrreflexive(a[1..]);
    }
  }

  lemma {:induction false} LessIsTransitive(a: Key, b: Key, c: Key)
    requires Less(a, b) && Less(b, c)
    ensures Less(a, c)
  {
    if a != [] && a[0] == b[0] && b[0] == c[0] {
      LessIsTransitive(a[1..], b[1..], c[1..]);
    }
  }

  lemma {:induction false} LessIsTotal(a: Key, b: Key)
    ensures Less(a, b) || a == b || Less(b, a)
  {
    if a != [] && b != [] && a[0] == b[0] {
      LessIsTotal(a[1..], b[1..]);
      assert a == [a[0]] + a[1..] && b == [b[0]] + b[1..];
    }
  }

  /** The keys lock(path) takes. */
  function PlanOne(fold: Fold, path: string): seq<Key> { [LockKey(fold, path)] }

  /** The keys lockBoth(a, b) takes, in the order it takes them. */
  function PlanBoth(fold: Fold, a: string, b: string): seq<Key> {
    var ka, kb := LockKey(fold, a), LockKey(fold, b);
    var first, second := if Less(kb, ka) then kb else ka, if Less(kb, ka) then ka else kb;
    if first == second then [first] else [first, second]
  }

  predicate Ascending(plan: seq<Key>) {
    forall i, j :: 0 <= i < j < |plan| ==> Less(plan[i], plan[j])
  }

  /** The order is the callers' common one, not the argument order, and two
      spellings of one file are one lock. */
  lemma PlansAreOrdered(fold: Fold, a: string, b: string)
    ensures Ascending(PlanBoth(fold, a, b)) && 1 <= |PlanBoth(fold, a, b)| <= 2
    ensures PlanBoth(fold, a, b) == PlanBoth(fold, b, a)
    ensures forall k :: k in PlanBoth(fold, a, b) <==> k == LockKey(fold, a) || k == LockKey(fold, b)
    ensures |PlanBoth(fold, a, b)| == 1 <==> LockKey(fold, a) == LockKey(fold, b)
  {
    var ka, kb := LockKey(fold, a), LockKey(fold, b);
    LessIsTotal(ka, kb);
    if Less(ka, kb) && Less(kb, ka) {
      LessIsTransitive(ka, kb, ka);
      LessIsIrreflexive(ka);
    }
    LessIsIrreflexive(ka);
  }
}
