/** The candidates for a channel's head and the bundles met in a channel so far: pkg/registry/populator.go. */
module HeadCandidates {
  import opened Common
  import opened Semver
  import opened Registry

  /** bundleVersion: a version with the number of times it was seen. */
  datatype Candidate = Candidate(name: string, version: Version, count: nat)

  const ZERO := Version(0, 0, 0, [], [])

  /** What a bundle without a version counts as. */
  const UNVERSIONED := Version(0, 0, 0, [Alphanumeric("z")], [])

  function Parsed(b: RegistryBundle): Option<Version> {
    match b.version
    case NoVersion => Some(UNVERSIONED)
    case Text(v) => Some(v)
    case Malformed(_) => None
  }

  ghost predicate Beats(v: Version, b: RegistryBundle) {
    Parsed(b).Some? && Newer(v, Parsed(b).value)
  }

  ghost predicate Ties(v: Version, b: RegistryBundle) {
    Parsed(b) == Some(v)
  }

  /** Bundles compare by their own version, those without one by 0.0.0-z, those with a malformed one not at all. */
  lemma ComparesBy(v: Version, b: RegistryBundle)
    ensures Ties(v, b) <==> b.version == Text(v) || (b.version == NoVersion && v == UNVERSIONED)
    ensures Beats(v, b) <==> exists w :: Ties(w, b) && Newer(v, w)
  {
    if Beats(v, b) {
      assert Ties(Parsed(b).value, b);
    }
  }

  /** A bundle without a version is older than every release; prereleases of 0.0.0 it precedes by the letter z. */
  lemma UnversionedOrder(v: Version)
    ensures Precedes(UNVERSIONED, v) <==>
              || v.major > 0 || v.minor > 0 || v.patch > 0 || v.pre == []
              || (v.pre[0] == Alphanumeric("z") && |v.pre| > 1)
              || (v.pre[0].Alphanumeric? && ComesBefore("z", v.pre[0].text))
  {
    if v.pre != [] {
      var z := [Alphanumeric("z")];
      if v.pre[0] != z[0] {
        assert DiffersAt(z, v.pre, 0);
      } else {
        assert z <= v.pre;
      }
    }
  }

  lemma BeatsOn(a: Version, b: Version, x: RegistryBundle)
    requires Newer(a, b) && (Beats(b, x) || Ties(b, x))
    ensures Beats(a, x)
  {
    if Beats(b, x) {
      NewerTransitive(a, b, Parsed(x).value);
    }
  }

  /** The bundles met in the channel before the k-th channel of the n-th bundle. */
  ghost function Met(bundles: seq<RegistryBundle>, n: nat, k: nat, ch: string): set<nat>
    requires n <= |bundles| && (n < |bundles| ==> k <= |bundles[n].channels|)
  {
    set i: nat | i < |bundles| && ((i < n && ch in bundles[i].channels) || (i == n && ch in bundles[n].channels[..k]))
  }

  lemma MetStep(bundles: seq<RegistryBundle>, n: nat, k: nat, ch: string)
    requires n < |bundles| && k < |bundles[n].channels|
    ensures Met(bundles, n, k + 1, ch) == Met(bundles, n, k, ch) + if ch == bundles[n].channels[k] then {n} else {}
  {
    var names := bundles[n].channels;
    assert names[..k + 1] == names[..k] + [names[k]];
  }

  lemma MetNext(bundles: seq<RegistryBundle>, n: nat, ch: string)
    requires n < |bundles|
    ensures Met(bundles, n, |bundles[n].channels|, ch) == Met(bundles, n + 1, 0, ch)
  {
    assert bundles[n].channels[..|bundles[n].channels|] == bundles[n].channels;
  }

  /** The current bundle meets the head of a channel: the bundle with its count, and the channel's head afterwards. */
  function Challenge(current: Candidate, head: Candidate): Option<(Candidate, Candidate)> {
    var c := BuildIdCompare(current.version, head.version);
    if c.None? then None
    else if c.value < 0 then Some((current, head))
    else
      var counted := if c.value == 0 then current.(count := current.count + head.count) else current;
      Some((counted, counted))
  }

  const NO_MAX := Candidate("", ZERO, 0)

  ghost predicate Mentions(bundles: seq<RegistryBundle>, ch: string) {
    exists b :: b in bundles && ch in b.channels
  }

  ghost predicate OnlyChannel(bundles: seq<RegistryBundle>, ch: string) {
    Mentions(bundles, ch) && forall c | Mentions(bundles, c) :: c == ch
  }
}
