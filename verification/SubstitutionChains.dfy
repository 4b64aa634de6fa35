/** Chains of substitutions: each bundle may name one bundle it substitutes for. */
module SubstitutionChains {
  import opened Common
  import opened Semver
  import opened Reachability

  /** From a bundle to the one it substitutes for. */
  type Links = map<string, string>

  type Versions = map<string, VersionText>

  ghost function Down(links: Links): string -> set<string> {
    x => if x in links then {links[x]} else {}
  }

  /** Some number of substitutions lead from x down to y. */
  ghost predicate Over(links: Links, x: string, y: string) {
    Reaches(Down(links), x, y)
  }

  predicate NewerText(a: VersionText, b: VersionText) {
    a.Text? && b.Text? && Newer(a.version, b.version)
  }

  ghost predicate AtMostOneEach(links: Links) {
    forall x, y | x in links && y in links && links[x] == links[y] :: x == y
  }

  /** A bundle is newer than the one it substitutes for, where that one is known. */
  ghost predicate Ascending(links: Links, ver: Versions) {
    links.Keys <= ver.Keys && forall x | x in links && links[x] in ver :: NewerText(ver[x], ver[links[x]])
  }

  ghost predicate Chained(links: Links, ver: Versions) {
    AtMostOneEach(links) && Ascending(links, ver)
  }

  lemma NewerTextTransitive(a: VersionText, b: VersionText, c: VersionText)
    requires NewerText(a, b) && NewerText(b, c)
    ensures NewerText(a, c)
  {
    NewerTransitive(a.version, b.version, c.version);
  }

  lemma NewerTextAsymmetric(a: VersionText, b: VersionText)
    requires NewerText(a, b)
    ensures !NewerText(b, a) && a != b
  {
    BuildIdOrder(a.version, b.version);
  }

  // ---- Steps along a chain ---------------------------------------------------------------------

  lemma OverOne(links: Links, x: string)
    requires x in links
    ensures Over(links, x, links[x])
  {
    ReachesOneStep(Down(links), x, links[x]);
  }

  lemma FirstStep(links: Links, x: string, z: string)
    requires Over(links, x, z)
    ensures x in links && (z == links[x] || Over(links, links[x], z))
  {
    var p :| IsPath(Down(links), p) && |p| >= 2 && p[0] == x && p[|p| - 1] == z;
    assert p[0 + 1] in Down(links)(p[0]);
    if |p| > 2 {
      var q := p[1..];
      forall i | 0 <= i < |q| - 1
        ensures q[i + 1] in Down(links)(q[i])
      {
        assert p[i + 1 + 1] in Down(links)(p[i + 1]);
      }
      assert IsPath(Down(links), q);
    }
  }

  lemma LastStep(links: Links, x: string, z: string) returns (w: string)
    requires Over(links, x, z)
    ensures w in links && links[w] == z && (w == x || Over(links, x, w))
  {
    var p :| IsPath(Down(links), p) && |p| >= 2 && p[0] == x && p[|p| - 1] == z;
    w := p[|p| - 2];
    assert p[|p| - 2 + 1] in Down(links)(p[|p| - 2]);
    if |p| > 2 {
      assert IsPath(Down(links), p[..|p| - 1]);
    }
  }

  lemma OverTransitive(links: Links, x: string, y: string, z: string)
    requires Over(links, x, y) && Over(links, y, z)
    ensures Over(links, x, z)
  {
    var q :| IsPath(Down(links), q) && |q| >= 2 && q[0] == y && q[|q| - 1] == z;
    for i := 1 to |q|
      invariant Over(links, x, q[i - 1])
    {
      assert q[i - 1 + 1] in Down(links)(q[i - 1]);
      ReachesOneMore(Down(links), x, q[i - 1], q[i]);
    }
  }

  lemma StepThenOver(links: Links, x: string, z: string)
    requires x in links && (z == links[x] || Over(links, links[x], z))
    ensures Over(links, x, z)
  {
    OverOne(links, x);
    if z != links[x] {
      OverTransitive(links, x, links[x], z);
    }
  }

  // ---- Ascending chains ------------------------------------------------------------------------

  lemma OverIsNewer(links: Links, ver: Versions, x: string, y: string)
    requires Ascending(links, ver) && Over(links, x, y) && y in ver
    ensures x in ver && NewerText(ver[x], ver[y])
  {
    var p :| IsPath(Down(links), p) && |p| >= 2 && p[0] == x && p[|p| - 1] == y;
    var i := |p| - 2;
    assert p[i + 1] in Down(links)(p[i]);
    while i > 0
      invariant 0 <= i <= |p| - 2
      invariant p[i] in links && NewerText(ver[p[i]], ver[y])
    {
      i := i - 1;
      assert p[i + 1] in Down(links)(p[i]);
      NewerTextTransitive(ver[p[i]], ver[p[i + 1]], ver[y]);
    }
  }

  lemma OverIsAcyclic(links: Links, ver: Versions, x: string, y: string)
    requires Ascending(links, ver) && Over(links, x, y)
    ensures x != y && !Over(links, y, x)
  {
    FirstStep(links, x, y);
    if x == y {
      OverIsNewer(links, ver, x, x);
      NewerTextAsymmetric(ver[x], ver[x]);
    }
    if Over(links, y, x) {
      OverTransitive(links, x, y, x);
      OverIsNewer(links, ver, x, x);
      NewerTextAsymmetric(ver[x], ver[x]);
    }
  }

  /** Two bundles over the same one are on the same chain. */
  lemma Linear(links: Links, x: string, y: string, s: string)
    requires AtMostOneEach(links) && Over(links, x, s) && Over(links, y, s)
    ensures x == y || Over(links, x, y) || Over(links, y, x)
  {
    var p :| IsPath(Down(links), p) && |p| >= 2 && p[0] == x && p[|p| - 1] == s;
    var q :| IsPath(Down(links), q) && |q| >= 2 && q[0] == y && q[|q| - 1] == s;
    if |p| <= |q| {
      SharedEnd(links, p, q);
      OnPath(links, q, |q| - |p|);
    } else {
      SharedEnd(links, q, p);
      OnPath(links, p, |p| - |q|);
    }
  }

  lemma SharedEnd(links: Links, p: seq<string>, q: seq<string>)
    requires AtMostOneEach(links) && IsPath(Down(links), p) && IsPath(Down(links), q)
    requires 2 <= |p| <= |q| && p[|p| - 1] == q[|q| - 1]
    ensures p[0] == q[|q| - |p|]
  {
    var i := |p| - 1;
    while i > 0
      invariant 0 <= i < |p| && p[i] == q[|q| - |p| + i]
    {
      i := i - 1;
      assert p[i + 1] in Down(links)(p[i]);
      assert q[|q| - |p| + i + 1] in Down(links)(q[|q| - |p| + i]);
    }
  }

  lemma OnPath(links: Links, p: seq<string>, i: nat)
    requires IsPath(Down(links), p) && |p| >= 2 && i < |p|
    ensures i == 0 || Over(links, p[0], p[i])
  {
    if i > 0 {
      assert IsPath(Down(links), p[..i + 1]);
    }
  }

  // ---- Splicing a bundle into a chain ----------------------------------------------------------

  /** n now substitutes for p, and the bundle that did so before, if any, now substitutes for n. */
  function Splice(links: Links, n: string, p: string, upper: Option<string>): Links {
    var low := links[n := p];
    if upper.Some? then low[upper.value := n] else low
  }

  /** n is new, newer than p, and older than the bundle that substitutes for p. */
  ghost predicate Fits(links: Links, ver: Versions, n: string, p: string, upper: Option<string>) {
    && Chained(links, ver) && n in ver && n !in links && n != p && (forall x | x in links :: links[x] != n)
    && (p in ver ==> NewerText(ver[n], ver[p]))
    && match upper
       case None => forall x | x in links :: links[x] != p
       case Some(o) => o in links && links[o] == p && NewerText(ver[o], ver[n])
  }

  lemma SpliceChained(links: Links, ver: Versions, n: string, p: string, upper: Option<string>)
    requires Fits(links, ver, n, p, upper)
    ensures Chained(Splice(links, n, p, upper), ver)
  {
  }

  /** Away from the spliced links the chains are the old ones. */
  lemma SpliceStep(links: Links, n: string, p: string, upper: Option<string>, w: string)
    requires n !in links && w != n && Some(w) != upper
    ensures var more := Splice(links, n, p, upper);
            (w in more <==> w in links) && (w in links ==> more[w] == links[w])
  {
  }

  /** What lies below a bundle afterwards lay below it before, or is n or lies below n. */
  lemma SpliceUnder(links: Links, n: string, p: string, upper: Option<string>, x: string, z: string)
    requires n !in links && x != n && Over(Splice(links, n, p, upper), x, z)
    ensures var more := Splice(links, n, p, upper);
            Over(links, x, z) || (Over(more, x, n) && (z == n || Over(more, n, z)))
  {
    var more := Splice(links, n, p, upper);
    var path :| IsPath(Down(more), path) && |path| >= 2 && path[0] == x && path[|path| - 1] == z;
    for i := 1 to |path|
      invariant i == 1 || Over(links, x, path[i - 1])
                  || (Over(more, x, n) && (path[i - 1] == n || Over(more, n, path[i - 1])))
    {
      SpliceUnderStep(links, n, p, upper, x, path, i);
    }
  }

  lemma SpliceUnderStep(links: Links, n: string, p: string, upper: Option<string>, x: string, path: seq<string>, i: nat)
    requires n !in links && x != n && 0 < i < |path| && path[0] == x && IsPath(Down(Splice(links, n, p, upper)), path)
    requires var more, w := Splice(links, n, p, upper), path[i - 1];
             w == x || Over(links, x, w) || (Over(more, x, n) && (w == n || Over(more, n, w)))
    ensures var more, z := Splice(links, n, p, upper), path[i];
            Over(links, x, z) || (Over(more, x, n) && (z == n || Over(more, n, z)))
  {
    var more, w, z := Splice(links, n, p, upper), path[i - 1], path[i];
    assert path[i - 1 + 1] in Down(more)(path[i - 1]);
    OnPath(more, path, i);
    OnPath(more, path, i - 1);
    if Over(more, x, n) && (w == n || Over(more, n, w)) {
      if w == n {
        OverOne(more, n);
      } else {
        ReachesOneMore(Down(more), n, w, z);
      }
    } else if w == n {
      OverOne(more, n);
    } else if Some(w) != upper {
      SpliceStep(links, n, p, upper, w);
      if w == x {
        OverOne(links, x);
      } else {
        ReachesOneMore(Down(links), x, w, z);
      }
    }
  }

  /** Chains that do not pass the upper bundle's link stay. */
  lemma SpliceKeeps(links: Links, n: string, p: string, upper: Option<string>, x: string, z: string)
    requires n !in links && Over(links, x, z)
    requires upper.Some? ==> !Over(links, upper.value, z) || (x != upper.value && !Over(links, x, upper.value))
    ensures Over(Splice(links, n, p, upper), x, z)
  {
    var more := Splice(links, n, p, upper);
    var path :| IsPath(Down(links), path) && |path| >= 2 && path[0] == x && path[|path| - 1] == z;
    forall i | 0 <= i < |path| - 1
      ensures path[i + 1] in Down(more)(path[i])
    {
      assert path[i + 1] in Down(links)(path[i]);
      OnPath(links, path, i);
      RestOfPath(links, path, i);
      SpliceStep(links, n, p, upper, path[i]);
    }
    assert IsPath(Down(more), path);
  }

  lemma RestOfPath(links: Links, path: seq<string>, i: nat)
    requires IsPath(Down(links), path) && i < |path| - 1
    ensures Over(links, path[i], path[|path| - 1])
  {
    var q := path[i..];
    forall j | 0 <= j < |q| - 1
      ensures q[j + 1] in Down(links)(q[j])
    {
      assert path[i + j + 1] in Down(links)(path[i + j]);
    }
    assert IsPath(Down(links), q);
  }

  /**
    The new bundle takes its place by version among the bundles over s: it is over s, over all that are not
    newer, and under all that are newer.
  */
  lemma SplicePosition(links: Links, ver: Versions, n: string, p: string, upper: Option<string>, s: string, x: string)
    requires Fits(links, ver, n, p, upper) && (p == s || Over(links, p, s)) && Over(links, x, s)
    ensures x in ver && (NewerText(ver[x], ver[n]) || NewerText(ver[n], ver[x]))
    ensures if NewerText(ver[x], ver[n])
            then Over(Splice(links, n, p, upper), x, n)
            else Over(Splice(links, n, p, upper), n, x)
  {
    FirstStep(links, x, s);
    if p != s {
      Linear(links, x, p, s);
    }
    if p == s || Over(links, x, p) {
      AboveSplice(links, ver, n, p, upper, x);
    } else {
      UnderSplice(links, ver, n, p, upper, x);
      if x != p {
        OverIsNewer(links, ver, p, x);
        NewerTextTransitive(ver[n], ver[p], ver[x]);
      }
      NewerTextAsymmetric(ver[n], ver[x]);
    }
  }

  lemma AboveSplice(links: Links, ver: Versions, n: string, p: string, upper: Option<string>, x: string)
    requires Fits(links, ver, n, p, upper) && Over(links, x, p)
    ensures x in ver && NewerText(ver[x], ver[n]) && Over(Splice(links, n, p, upper), x, n)
  {
    var more := Splice(links, n, p, upper);
    var o := LastStep(links, x, p);
    assert upper == Some(o);
    OverOne(more, o);
    if x != o {
      OverIsNewer(links, ver, x, o);
      NewerTextTransitive(ver[x], ver[o], ver[n]);
      if Over(links, o, o) {
        OverIsAcyclic(links, ver, o, o);
      }
      SpliceKeeps(links, n, p, upper, x, o);
      OverTransitive(more, x, o, n);
    }
  }

  lemma UnderSplice(links: Links, ver: Versions, n: string, p: string, upper: Option<string>, x: string)
    requires Fits(links, ver, n, p, upper) && (x == p || Over(links, p, x))
    ensures Over(Splice(links, n, p, upper), n, x)
  {
    var more := Splice(links, n, p, upper);
    if upper.Some? {
      OverOne(links, upper.value);
      OverIsAcyclic(links, ver, upper.value, p);
    }
    OverOne(more, n);
    if x != p {
      SpliceKeeps(links, n, p, upper, p, x);
      OverTransitive(more, n, p, x);
    }
  }
}
