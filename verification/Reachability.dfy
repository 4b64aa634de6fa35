/** Reachability by at least one edge in a graph given by a successor function. */
module Reachability {

  ghost predicate IsPath<T(!new)>(succ: T -> set<T>, p: seq<T>) {
    forall i | 0 <= i < |p| - 1 :: p[i + 1] in succ(p[i])
  }

  ghost predicate Reaches<T(!new)>(succ: T -> set<T>, a: T, b: T) {
    exists p :: IsPath(succ, p) && |p| >= 2 && p[0] == a && p[|p| - 1] == b
  }

  ghost predicate Closed<T(!new)>(succ: T -> set<T>, s: set<T>) {
    forall x | x in s :: succ(x) <= s
  }

  lemma ReachesOneStep<T(!new)>(succ: T -> set<T>, a: T, b: T)
    requires b in succ(a)
    ensures Reaches(succ, a, b)
  {
    assert IsPath(succ, [a, b]);
  }

  lemma ReachesOneMore<T(!new)>(succ: T -> set<T>, a: T, b: T, c: T)
    requires Reaches(succ, a, b) && c in succ(b)
    ensures Reaches(succ, a, c)
  {
    var p :| IsPath(succ, p) && |p| >= 2 && p[0] == a && p[|p| - 1] == b;
    assert IsPath(succ, p + [c]);
  }

  /** A set that holds the successors of a and is closed holds everything a reaches. */
  lemma ClosedHoldsReachable<T(!new)>(succ: T -> set<T>, a: T, s: set<T>, b: T)
    requires succ(a) <= s && Closed(succ, s) && Reaches(succ, a, b)
    ensures b in s
  {
    var p :| IsPath(succ, p) && |p| >= 2 && p[0] == a && p[|p| - 1] == b;
    for i := 1 to |p| - 1
      invariant p[i] in s
    {
      assert p[i + 1] in succ(p[i]);
    }
  }
}
