/** Small shared vocabulary: optional values, outcomes and the lexicographic order on names. */
module Common {

  datatype Option<+T> = None | Some(value: T)

  datatype Result<+T, +E> = Ok(value: T) | Err(error: E)

  /** Byte-wise comparison of Go strings: -1, 0 or 1. */
  function CompareStrings(a: string, b: string): (c: int)
    ensures -1 <= c <= 1
    ensures c == 0 <==> a == b
  {
    if a == [] then (if b == [] then 0 else -1)
    else if b == [] then 1
    else if a[0] < b[0] then -1
    else if a[0] > b[0] then 1
    else
      var c := CompareStrings(a[1..], b[1..]);
      assert a[1..] == b[1..] ==> a == [a[0]] + a[1..] == [b[0]] + b[1..] == b;
      c
  }

  lemma {:induction false} CompareStringsFlip(a: string, b: string)
    ensures CompareStrings(b, a) == -CompareStrings(a, b)
  {
    if a != [] && b != [] && a[0] == b[0] {
      CompareStringsFlip(a[1..], b[1..]);
    }
  }

  lemma {:induction false} CompareStringsTransitive(a: string, b: string, c: string)
    requires CompareStrings(a, b) <= 0 && CompareStrings(b, c) <= 0
    ensures CompareStrings(a, c) <= 0
    ensures CompareStrings(a, b) < 0 || CompareStrings(b, c) < 0 ==> CompareStrings(a, c) < 0
  {
    if a != [] && b != [] && c != [] && a[0] == b[0] == c[0] {
      CompareStringsTransitive(a[1..], b[1..], c[1..]);
    }
  }

  /** a is a proper prefix of b, or has the smaller character at the first place where they differ. */
  ghost predicate ComesBefore(a: string, b: string) {
    a < b || exists k: nat :: DiffersAt(a, b, k) && a[k] < b[k]
  }

  /** k is the first place where both have an element and these differ. */
  ghost predicate DiffersAt<T>(a: seq<T>, b: seq<T>, k: nat) {
    k < |a| && k < |b| && a[..k] == b[..k] && a[k] != b[k]
  }

  lemma SameUpTo<T>(a: seq<T>, b: seq<T>, k: nat, j: nat)
    requires j < k <= |a| && k <= |b| && a[..k] == b[..k]
    ensures a[j] == b[j]
  {
    assert a[j] == a[..k][j] == b[..k][j] == b[j];
  }

  lemma OneDifference<T>(a: seq<T>, b: seq<T>, j: nat, k: nat)
    requires DiffersAt(a, b, j) && DiffersAt(a, b, k)
    ensures j == k && !(a <= b) && !(b <= a)
  {
    if j < k {
      SameUpTo(a, b, k, j);
    } else if k < j {
      SameUpTo(a, b, j, k);
    }
  }

  /** Two lists are one a prefix of the other, or differ somewhere. */
  lemma {:induction false} PrefixOrDiffer<T>(a: seq<T>, b: seq<T>) returns (k: nat)
    ensures a <= b || b <= a || DiffersAt(a, b, k)
  {
    k := 0;
    while k < |a| && k < |b| && a[k] == b[k]
      invariant k <= |a| && k <= |b| && a[..k] == b[..k]
    {
      k := k + 1;
    }
  }

  lemma {:induction false} CompareStringsAt(a: string, b: string, k: nat)
    requires DiffersAt(a, b, k)
    ensures CompareStrings(a, b) == if a[k] < b[k] then -1 else 1
  {
    if k > 0 {
      assert a[0] == a[..k][0] == b[..k][0] == b[0];
      assert a[1..][..k - 1] == a[..k][1..] == b[..k][1..] == b[1..][..k - 1];
      CompareStringsAt(a[1..], b[1..], k - 1);
    }
  }

  lemma {:induction false} CompareStringsPrefix(a: string, b: string)
    requires a < b
    ensures CompareStrings(a, b) == -1
  {
    if a != [] {
      CompareStringsPrefix(a[1..], b[1..]);
    }
  }

  /** The sign of the comparison: by the first differing character, or the proper prefix. */
  lemma CompareStringsIff(a: string, b: string)
    ensures CompareStrings(a, b) < 0 <==> ComesBefore(a, b)
  {
    CompareStringsFlip(a, b);
    var k := PrefixOrDiffer(a, b);
    if DiffersAt(a, b, k) {
      CompareStringsAt(a, b, k);
      forall j: nat | DiffersAt(a, b, j)
        ensures j == k
      {
        OneDifference(a, b, j, k);
      }
      OneDifference(a, b, k, k);
    } else if a < b {
      CompareStringsPrefix(a, b);
    } else {
      if b < a {
        CompareStringsPrefix(b, a);
      }
      forall j: nat | DiffersAt(a, b, j)
        ensures false
      {
        OneDifference(a, b, j, j);
      }
    }
  }

  ghost predicate NoRepeats<T>(s: seq<T>) {
    forall i, j | 0 <= i < j < |s| :: s[i] != s[j]
  }

  function NamesIn(names: seq<string>): set<string> {
    set n | n in names
  }

  /** The names that are not gone, in their order. */
  ghost function Left(names: seq<string>, gone: set<string>): seq<string> {
    if names == [] then []
    else
      var n := |names| - 1;
      Left(names[..n], gone) + if names[n] in gone then [] else [names[n]]
  }

  lemma {:induction false} AllLeft(names: seq<string>)
    ensures Left(names, {}) == names
  {
    if names != [] {
      AllLeft(names[..|names| - 1]);
    }
  }

  lemma {:induction false} LeftMembers(names: seq<string>, gone: set<string>, y: string)
    ensures y in Left(names, gone) <==> y in names && y !in gone
  {
    if names != [] {
      var n := |names| - 1;
      LeftMembers(names[..n], gone, y);
      assert names == names[..n] + [names[n]];
    }
  }

  lemma {:induction false} SubsetSize<T>(a: set<T>, b: set<T>)
    requires a <= b
    ensures |a| <= |b|
    decreases |a|
  {
    if a != {} {
      var x :| x in a;
      SubsetSize(a - {x}, b - {x});
    }
  }

  /** A list without repetition is as long as a set that holds its elements only if it lists them all. */
  lemma {:induction false} ListSize<T>(p: seq<T>, s: set<T>)
    requires forall i, j | 0 <= i < j < |p| :: p[i] != p[j]
    requires forall i | 0 <= i < |p| :: p[i] in s
    ensures |p| <= |s|
    ensures |p| == |s| <==> forall x | x in s :: x in p
    decreases |p|
  {
    if p == [] {
      if s != {} {
        var x :| x in s;
      }
    } else {
      var n := |p| - 1;
      var rest := s - {p[n]};
      ListSize(p[..n], rest);
      assert forall x | x in s :: (x in p <==> x == p[n] || x in p[..n]) by {
        assert p == p[..n] + [p[n]];
      }
      assert p[n] in s && p[n] !in rest;
      assert (forall x | x in s :: x in p) <==> (forall x | x in rest :: x in p[..n]);
    }
  }

  lemma {:induction false} CountOnce<T(!new)>(s: seq<T>, x: T)
    requires NoRepeats(s)
    ensures multiset(s)[x] == if x in s then 1 else 0
  {
    if s != [] {
      var n := |s| - 1;
      CountOnce(s[..n], x);
      assert s == s[..n] + [s[n]];
    }
  }

  lemma SameElements<T(!new)>(a: seq<T>, b: seq<T>)
    requires NoRepeats(a) && NoRepeats(b) && forall x :: x in a <==> x in b
    ensures multiset(a) == multiset(b)
  {
    forall x
      ensures multiset(a)[x] == multiset(b)[x]
    {
      CountOnce(a, x);
      CountOnce(b, x);
    }
  }

  lemma PermutedNoRepeats<T(!new)>(a: seq<T>, b: seq<T>)
    requires NoRepeats(a) && multiset(a) == multiset(b)
    ensures NoRepeats(b)
  {
    forall i, j | 0 <= i < j < |b|
      ensures b[i] != b[j]
    {
      CountOnce(a, b[j]);
      assert b == b[..j] + [b[j]] + b[j + 1..];
      assert b[i] in b[..j];
      assert multiset(b)[b[j]] == multiset(b[..j])[b[j]] + 1 + multiset(b[j + 1..])[b[j]];
    }
  }

  lemma PermutedElements<T(!new)>(a: seq<T>, b: seq<T>, x: T)
    requires multiset(a) == multiset(b)
    ensures x in a <==> x in b
  {
    assert x in a <==> x in multiset(a);
    assert x in b <==> x in multiset(b);
  }

  /** The numbers from lo up to but not including hi. */
  ghost function Range(lo: nat, hi: nat): (s: set<nat>)
    requires lo <= hi
    ensures forall i: nat :: i in s <==> lo <= i < hi
    decreases hi
  {
    if lo == hi then {} else Range(lo, hi - 1) + {hi - 1}
  }
}
