// The in-memory upgrade graph and the insertion of a bundle by version: pkg/registry/graph.go, bundlegraphloader.go.
module Graph {
  import opened Common
  import opened Semver

  datatype BundleKey = BundleKey(path: string, version: VersionText, csvName: string)

  const NO_KEY := BundleKey("", NoVersion, "")

  /** A channel's nodes with the keys each node replaces; these need not be nodes themselves. */
  datatype ChannelGraph = ChannelGraph(head: BundleKey, nodes: map<BundleKey, set<BundleKey>>)

  datatype PackageGraph = PackageGraph(name: string, defaultChannel: string, channels: map<string, ChannelGraph>)

  // ---- Versions of nodes -----------------------------------------------------------------------

  predicate Lower(a: BundleKey, b: BundleKey) {
    a.version.Text? && b.version.Text? && Below(a.version.version, b.version.version)
  }

  /** All keys have a version and no two have the same precedence. */
  ghost predicate DistinctVersions(keys: set<BundleKey>) {
    && (forall k | k in keys :: k.version.Text?)
    && (forall j, k | j in keys && k in keys && j != k :: Lower(j, k) || Lower(k, j))
  }

  lemma LowerTransitive(a: BundleKey, b: BundleKey, c: BundleKey)
    requires Lower(a, b) && Lower(b, c)
    ensures Lower(a, c)
  {
    CompareTransitive(a.version.version, b.version.version, c.version.version);
  }

  lemma LowerAsymmetric(a: BundleKey, b: BundleKey)
    requires Lower(a, b)
    ensures !Lower(b, a) && a != b
  {
    CompareFlip(a.version.version, b.version.version);
  }

  // ---- Inserting a node into a channel ---------------------------------------------------------

  /** A node that stops the insertion: its version does not parse, or it is the version to add. */
  predicate Conflicts(k: BundleKey, v: Version) {
    !k.version.Text? || Compare(k.version.version, v) == 0
  }

  predicate Ahead(k: BundleKey, v: Version) {
    k.version.Text? && Compare(k.version.version, v) > 0
  }

  predicate Behind(k: BundleKey, v: Version) {
    k.version.Text? && Compare(k.version.version, v) < 0
  }

  predicate SkipPatchCandidate(k: BundleKey, v: Version) {
    Behind(k, v) && k.version.version.major == v.major && k.version.version.minor == v.minor
  }

  ghost predicate IsLowestAhead(keys: set<BundleKey>, v: Version, a: BundleKey) {
    if a == NO_KEY then forall k | k in keys :: !Ahead(k, v)
    else a in keys && Ahead(a, v) && forall k | k in keys && Ahead(k, v) :: !Lower(k, a)
  }

  ghost predicate IsGreatestBehind(keys: set<BundleKey>, v: Version, b: BundleKey) {
    if b == NO_KEY then forall k | k in keys :: !Behind(k, v)
    else b in keys && Behind(b, v) && forall k | k in keys && Behind(k, v) :: !Lower(b, k)
  }

  function Candidates(keys: set<BundleKey>, v: Version, skippatch: bool): set<BundleKey> {
    if skippatch then set k | k in keys && SkipPatchCandidate(k, v) else {}
  }

  /** The channel after linking the key between its neighbours and dropping the skipped nodes. */
  function Linked(c: ChannelGraph, key: BundleKey, ahead: BundleKey, behind: BundleKey, skipped: set<BundleKey>)
    : ChannelGraph
  {
    var repointed := if ahead == NO_KEY then c.nodes else c.nodes[ahead := {key}];
    ChannelGraph(
      if ahead == NO_KEY then key else c.head,
      (repointed - skipped)[key := skipped + if behind == NO_KEY then {} else {behind}])
  }

  ghost predicate Inserted(c: ChannelGraph, key: BundleKey, v: Version, skippatch: bool, c': ChannelGraph) {
    exists ahead, behind ::
      && IsLowestAhead(c.nodes.Keys, v, ahead) && IsGreatestBehind(c.nodes.Keys, v, behind)
      && c' == Linked(c, key, ahead, behind, Candidates(c.nodes.Keys, v, skippatch))
  }

  /** What the scan over the nodes has found so far. */
  ghost predicate Scanned(seen: set<BundleKey>, v: Version, skippatch: bool, ahead: BundleKey, behind: BundleKey,
                          skipped: set<BundleKey>) {
    && (forall k | k in seen :: !Conflicts(k, v))
    && IsLowestAhead(seen, v, ahead) && IsGreatestBehind(seen, v, behind)
    && skipped == Candidates(seen, v, skippatch)
  }

  function NewAhead(node: BundleKey, v: Version, ahead: BundleKey): BundleKey {
    if Ahead(node, v) && (ahead == NO_KEY || Lower(node, ahead)) then node else ahead
  }

  function NewBehind(node: BundleKey, v: Version, behind: BundleKey): BundleKey {
    if Behind(node, v) && (behind == NO_KEY || Lower(behind, node)) then node else behind
  }

  lemma AheadStep(seen: set<BundleKey>, v: Version, ahead: BundleKey, node: BundleKey)
    requires IsLowestAhead(seen, v, ahead)
    ensures IsLowestAhead(seen + {node}, v, NewAhead(node, v, ahead))
  {
    forall k | k in seen && Ahead(k, v) && Ahead(node, v) && ahead != NO_KEY && Lower(node, ahead)
      ensures !Lower(k, node)
    {
      if Lower(k, node) {
        LowerTransitive(k, node, ahead);
      }
    }
    if node.version.Text? {
      CompareFlip(node.version.version, node.version.version);
    }
  }

  lemma BehindStep(seen: set<BundleKey>, v: Version, behind: BundleKey, node: BundleKey)
    requires IsGreatestBehind(seen, v, behind)
    ensures IsGreatestBehind(seen + {node}, v, NewBehind(node, v, behind))
  {
    forall k | k in seen && Behind(k, v) && Behind(node, v) && behind != NO_KEY && Lower(behind, node)
      ensures !Lower(node, k)
    {
      if Lower(node, k) {
        LowerTransitive(behind, node, k);
      }
    }
    if node.version.Text? {
      CompareFlip(node.version.version, node.version.version);
    }
  }

  lemma ScanStep(seen: set<BundleKey>, v: Version, skippatch: bool, ahead: BundleKey, behind: BundleKey,
                 skipped: set<BundleKey>, node: BundleKey)
    requires Scanned(seen, v, skippatch, ahead, behind, skipped) && !Conflicts(node, v)
    ensures Scanned(seen + {node}, v, skippatch, NewAhead(node, v, ahead), NewBehind(node, v, behind),
                    if skippatch && SkipPatchCandidate(node, v) then skipped + {node} else skipped)
  {
    AheadStep(seen, v, ahead, node);
    BehindStep(seen, v, behind, node);
  }

  lemma ScannedMore(keys: set<BundleKey>, rest: set<BundleKey>, node: BundleKey)
    requires rest <= keys && node in rest
    ensures keys - (rest - {node}) == keys - rest + {node}
  {
  }

  /** The scan for the neighbours, in any order; stops at a conflicting node. */
  method ScanNodes(keys: set<BundleKey>, v: Version, skippatch: bool)
    returns (ok: bool, ahead: BundleKey, behind: BundleKey, skipped: set<BundleKey>)
    ensures ok <==> forall k | k in keys :: !Conflicts(k, v)
    ensures ok ==> Scanned(keys, v, skippatch, ahead, behind, skipped)
  {
    ahead, behind, skipped := NO_KEY, NO_KEY, {};
    var rest := keys;
    while rest != {}
      invariant rest <= keys && Scanned(keys - rest, v, skippatch, ahead, behind, skipped)
      invariant forall k | k in keys && k !in rest :: !Conflicts(k, v)
      decreases |rest|
    {
      var node :| node in rest;
      if Conflicts(node, v) {
        return false, ahead, behind, skipped;
      }
      ScanStep(keys - rest, v, skippatch, ahead, behind, skipped, node);
      ScannedMore(keys, rest, node);
      rest := rest - {node};
      ahead, behind := NewAhead(node, v, ahead), NewBehind(node, v, behind);
      if skippatch && SkipPatchCandidate(node, v) {
        skipped := skipped + {node};
      }
    }
    assert keys - rest == keys;
    ok := true;
  }

  ghost predicate Under(k: BundleKey, v: Version) {
    k.version.Text? && Precedes(k.version.version, v)
  }

  ghost predicate Above(k: BundleKey, v: Version) {
    k.version.Text? && Precedes(v, k.version.version)
  }

  /** No node is nearer above v than the given one; without one, no node is above v. */
  ghost predicate NextAbove(keys: set<BundleKey>, v: Version, a: Option<BundleKey>) {
    match a
    case None => forall k | k in keys :: !Above(k, v)
    case Some(x) => x in keys && Above(x, v) && forall k | k in keys && Above(k, v) :: !Under(k, x.version.version)
  }

  ghost predicate NextUnder(keys: set<BundleKey>, v: Version, b: Option<BundleKey>) {
    match b
    case None => forall k | k in keys :: !Under(k, v)
    case Some(x) => x in keys && Under(x, v) && forall k | k in keys && Under(k, v) :: !Above(k, x.version.version)
  }

  /** With skippatch, the lower patches of the same minor version. */
  ghost predicate Patched(k: BundleKey, v: Version, skippatch: bool) {
    skippatch && Under(k, v) && k.version.version.major == v.major && k.version.version.minor == v.minor
  }

  /** The key lies between its neighbours and replaces the lower one and all it patches, which are no nodes any more. */
  ghost predicate Between(c: ChannelGraph, key: BundleKey, v: Version, skippatch: bool, above: Option<BundleKey>,
                          under: Option<BundleKey>, c': ChannelGraph) {
    && NextAbove(c.nodes.Keys, v, above) && NextUnder(c.nodes.Keys, v, under)
    && c'.head == (if above.None? then key else c.head)
    && (forall k :: k in c'.nodes <==> k == key || (k in c.nodes && !Patched(k, v, skippatch)))
    && (forall k :: k in c'.nodes[key] <==> under == Some(k) || (k in c.nodes && Patched(k, v, skippatch)))
    && (forall k | k in c'.nodes && k != key :: c'.nodes[k] == if above == Some(k) then {key} else c.nodes[k])
  }

  lemma InsertedBetween(c: ChannelGraph, key: BundleKey, v: Version, skippatch: bool, ahead: BundleKey,
                        behind: BundleKey)
    requires IsLowestAhead(c.nodes.Keys, v, ahead) && IsGreatestBehind(c.nodes.Keys, v, behind)
    ensures var c' := Linked(c, key, ahead, behind, Candidates(c.nodes.Keys, v, skippatch));
            exists above, under :: Between(c, key, v, skippatch, above, under, c')
  {
    var above := if ahead == NO_KEY then None else Some(ahead);
    var under := if behind == NO_KEY then None else Some(behind);
    ByPrecedence(v);
    assert NextAbove(c.nodes.Keys, v, above);
    assert NextUnder(c.nodes.Keys, v, under);
    var c' := Linked(c, key, ahead, behind, Candidates(c.nodes.Keys, v, skippatch));
    assert Between(c, key, v, skippatch, above, under, c');
  }

  lemma ByPrecedence(v: Version)
    ensures forall k :: (Ahead(k, v) <==> Above(k, v)) && (Behind(k, v) <==> Under(k, v))
    ensures forall j: BundleKey, k: BundleKey | k.version.Text? :: Lower(j, k) <==> Under(j, k.version.version)
    ensures forall j: BundleKey, k: BundleKey | k.version.Text? :: Lower(k, j) <==> Above(j, k.version.version)
  {
    forall a, b
      ensures (Compare(a, b) < 0 <==> Precedes(a, b)) && (Compare(a, b) > 0 <==> Precedes(b, a))
    {
      PrecedenceIff(a, b);
    }
  }

  /** Fails exactly on a node without a version or with the precedence of the new one, for any order of the scan. */
  method InsertNode(c: ChannelGraph, key: BundleKey, v: Version, skippatch: bool) returns (r: Option<ChannelGraph>)
    ensures r.None? <==> exists k :: k in c.nodes && Conflicts(k, v)
    ensures r.None? <==> exists k :: k in c.nodes && !Above(k, v) && !Under(k, v)
    ensures r.Some? ==> Inserted(c, key, v, skippatch, r.value)
    ensures r.Some? ==> exists above, under :: Between(c, key, v, skippatch, above, under, r.value)
  {
    ByPrecedence(v);
    var ok, ahead, behind, skipped := ScanNodes(c.nodes.Keys, v, skippatch);
    if !ok {
      return None;
    }
    InsertedBetween(c, key, v, skippatch, ahead, behind);
    r := Some(Linked(c, key, ahead, behind, skipped));
  }

  // ---- Sorted chains ---------------------------------------------------------------------------

  /** The nodes immediately below k. */
  ghost function Predecessors(keys: set<BundleKey>, k: BundleKey): set<BundleKey> {
    set j | j in keys && Lower(j, k) && forall m | m in keys :: !(Lower(j, m) && Lower(m, k))
  }

  /** The greatest node is the head, and every node replaces exactly its immediate predecessor. */
  ghost predicate SortedChain(keys: set<BundleKey>, c: ChannelGraph) {
    && DistinctVersions(keys)
    && c.head in keys && (forall k | k in keys && k != c.head :: Lower(k, c.head))
    && c.nodes.Keys == keys && (forall k | k in keys :: c.nodes[k] == Predecessors(keys, k))
  }

  lemma SortedChainUnique(keys: set<BundleKey>, a: ChannelGraph, b: ChannelGraph)
    requires SortedChain(keys, a) && SortedChain(keys, b)
    ensures a == b
  {
    if a.head != b.head {
      LowerAsymmetric(a.head, b.head);
    }
  }

  lemma OnePredecessor(keys: set<BundleKey>, k: BundleKey, i: BundleKey, j: BundleKey)
    requires DistinctVersions(keys) && i in Predecessors(keys, k) && j in Predecessors(keys, k)
    ensures i == j
  {
  }

  ghost predicate NewVersion(keys: set<BundleKey>, key: BundleKey) {
    key.version.Text? && forall k | k in keys :: !Conflicts(k, key.version.version)
  }

  lemma NewVersionDistinct(keys: set<BundleKey>, key: BundleKey)
    requires DistinctVersions(keys) && NewVersion(keys, key)
    ensures key !in keys && DistinctVersions(keys + {key})
    ensures forall k | k in keys ::
              (Ahead(k, key.version.version) <==> Lower(key, k)) && (Behind(k, key.version.version) <==> Lower(k, key))
  {
    CompareFlip(key.version.version, key.version.version);
    forall k | k in keys
      ensures Lower(k, key) || Lower(key, k)
      ensures Ahead(k, key.version.version) <==> Lower(key, k)
    {
      CompareFlip(k.version.version, key.version.version);
    }
  }

  /** Only the node right above the new one gets a new predecessor. */
  lemma PredecessorsAfter(keys: set<BundleKey>, key: BundleKey, ahead: BundleKey, k: BundleKey)
    requires DistinctVersions(keys) && NewVersion(keys, key) && k in keys
    requires IsLowestAhead(keys, key.version.version, ahead)
    ensures Predecessors(keys + {key}, k) == if k == ahead then {key} else Predecessors(keys, k)
  {
    NewVersionDistinct(keys, key);
    if k == ahead {
      AheadPredecessor(keys, key, ahead);
    } else {
      OtherPredecessor(keys, key, ahead, k);
    }
  }

  lemma AheadPredecessor(keys: set<BundleKey>, key: BundleKey, ahead: BundleKey)
    requires DistinctVersions(keys) && NewVersion(keys, key) && ahead in keys
    requires IsLowestAhead(keys, key.version.version, ahead)
    ensures Predecessors(keys + {key}, ahead) == {key}
  {
    NewVersionDistinct(keys, key);
    var more := keys + {key};
    forall j | j in Predecessors(more, ahead)
      ensures j == key
    {
      assert j == key || Lower(j, key) || Lower(key, j);
    }
    forall m | m in more
      ensures !(Lower(key, m) && Lower(m, ahead))
    {
      if m == key {
        CompareFlip(key.version.version, key.version.version);
      }
    }
    assert key in Predecessors(more, ahead);
  }

  lemma OtherPredecessor(keys: set<BundleKey>, key: BundleKey, ahead: BundleKey, k: BundleKey)
    requires DistinctVersions(keys) && NewVersion(keys, key) && k in keys && k != ahead
    requires IsLowestAhead(keys, key.version.version, ahead)
    ensures Predecessors(keys + {key}, k) == Predecessors(keys, k)
  {
    NewVersionDistinct(keys, key);
    var more := keys + {key};
    if Lower(key, k) {
      assert ahead != NO_KEY && Lower(key, ahead) && Lower(ahead, k);
      assert key !in Predecessors(more, k);
      forall j | j in Predecessors(keys, k)
        ensures !(Lower(j, key) && Lower(key, k))
      {
        if Lower(j, key) {
          LowerTransitive(j, key, ahead);
        }
      }
    } else {
      LowerNotBelow(key, k);
    }
    assert forall j | j in Predecessors(keys, k) :: j in Predecessors(more, k);
    assert forall j | j in Predecessors(more, k) :: j in Predecessors(keys, k);
  }

  lemma LowerNotBelow(key: BundleKey, k: BundleKey)
    requires !Lower(key, k)
    ensures forall j :: !(Lower(j, key) && Lower(key, k))
  {
  }

  lemma NewPredecessor(keys: set<BundleKey>, key: BundleKey, behind: BundleKey)
    requires DistinctVersions(keys) && NewVersion(keys, key)
    requires IsGreatestBehind(keys, key.version.version, behind)
    ensures Predecessors(keys + {key}, key) == if behind == NO_KEY then {} else {behind}
  {
    NewVersionDistinct(keys, key);
    CompareFlip(key.version.version, key.version.version);
    var more := keys + {key};
    forall j | j in Predecessors(more, key)
      ensures behind != NO_KEY && j == behind
    {
      assert j in keys && Lower(j, key);
      assert j == behind || Lower(j, behind) || Lower(behind, j);
    }
  }

  /** The head stays on top: it only changes when nothing lies above the new key. */
  lemma HeadAfter(keys: set<BundleKey>, head: BundleKey, key: BundleKey, ahead: BundleKey)
    requires DistinctVersions(keys) && NewVersion(keys, key) && IsLowestAhead(keys, key.version.version, ahead)
    requires head in keys && forall k | k in keys && k != head :: Lower(k, head)
    ensures var head' := if ahead == NO_KEY then key else head;
            head' in keys + {key} && forall k | k in keys + {key} && k != head' :: Lower(k, head')
  {
    NewVersionDistinct(keys, key);
    if ahead != NO_KEY && ahead != head {
      assert Lower(key, ahead) && Lower(ahead, head);
      LowerTransitive(key, ahead, head);
    }
  }

  /** Inserting a version into a sorted chain gives the sorted chain with that version. */
  lemma InsertKeepsSorted(keys: set<BundleKey>, c: ChannelGraph, key: BundleKey, c': ChannelGraph)
    requires SortedChain(keys, c) && NewVersion(keys, key) && Inserted(c, key, key.version.version, false, c')
    ensures SortedChain(keys + {key}, c')
  {
    var v := key.version.version;
    assert c.nodes.Keys == keys;
    var ahead, behind :| IsLowestAhead(c.nodes.Keys, v, ahead) && IsGreatestBehind(c.nodes.Keys, v, behind)
                         && c' == Linked(c, key, ahead, behind, Candidates(c.nodes.Keys, v, false));
    HeadAfter(keys, c.head, key, ahead);
    NewVersionDistinct(keys, key);
    assert NO_KEY !in keys;
    LinkedNodes(c, key, ahead, behind);
    forall k | k in keys + {key}
      ensures c'.nodes[k] == Predecessors(keys + {key}, k)
    {
      if k == key {
        NewPredecessor(keys, key, behind);
      } else {
        PredecessorsAfter(keys, key, ahead, k);
      }
    }
  }

  lemma LinkedNodes(c: ChannelGraph, key: BundleKey, ahead: BundleKey, behind: BundleKey)
    requires key !in c.nodes && (ahead == NO_KEY <==> ahead !in c.nodes)
    ensures var nodes := Linked(c, key, ahead, behind, {}).nodes;
            && nodes.Keys == c.nodes.Keys + {key}
            && nodes[key] == (if behind == NO_KEY then {} else {behind})
            && forall k | k in c.nodes :: nodes[k] == if k == ahead then {key} else c.nodes[k]
  {
  }

  lemma SingletonSorted(key: BundleKey)
    requires key.version.Text?
    ensures SortedChain({key}, ChannelGraph(key, map[key := {}]))
  {
    CompareFlip(key.version.version, key.version.version);
    assert Predecessors({key}, key) == {};
  }

  // ---- Skippatch -------------------------------------------------------------------------------

  /** Distinct versions, the head on top, and edges to strictly lower versions only. */
  ghost predicate Ordered(c: ChannelGraph) {
    && DistinctVersions(c.nodes.Keys)
    && c.head in c.nodes && (forall k | k in c.nodes && k != c.head :: Lower(k, c.head))
    && (forall k, j | k in c.nodes && j in c.nodes[k] :: Lower(j, k))
  }

  /** Skippatch takes out exactly the lower patch versions and records them all, next to the greatest lower version. */
  lemma SkipPatchNodes(c: ChannelGraph, key: BundleKey, c': ChannelGraph)
    requires DistinctVersions(c.nodes.Keys) && NewVersion(c.nodes.Keys, key)
    requires Inserted(c, key, key.version.version, true, c')
    ensures var skipped := set k | k in c.nodes && SkipPatchCandidate(k, key.version.version);
            && c'.nodes.Keys == c.nodes.Keys - skipped + {key}
            && skipped <= c'.nodes[key]
            && forall j | j in c'.nodes[key] && j !in skipped ::
                 j in c.nodes && Lower(j, key) && forall k | k in c.nodes && Lower(k, key) :: !Lower(j, k)
  {
    var v, keys := key.version.version, c.nodes.Keys;
    var skipped := set k | k in c.nodes && SkipPatchCandidate(k, v);
    assert skipped == Candidates(keys, v, true);
    NewVersionDistinct(keys, key);
  }

  /** Skippatch keeps the channel ordered, also where edges now lead to keys that are no longer nodes. */
  lemma SkipPatchOrdered(c: ChannelGraph, key: BundleKey, c': ChannelGraph)
    requires Ordered(c) && NewVersion(c.nodes.Keys, key) && Inserted(c, key, key.version.version, true, c')
    ensures Ordered(c')
  {
    var v, keys := key.version.version, c.nodes.Keys;
    var skipped := Candidates(keys, v, true);
    var ahead, behind :| IsLowestAhead(c.nodes.Keys, v, ahead) && IsGreatestBehind(c.nodes.Keys, v, behind)
                         && c' == Linked(c, key, ahead, behind, Candidates(c.nodes.Keys, v, true));
    NewVersionDistinct(keys, key);
    HeadAfter(keys, c.head, key, ahead);
    SkipPatchNodes(c, key, c');
    assert c'.head in c'.nodes by {
      if ahead != NO_KEY {
        LowerAsymmetric(key, c.head);
      }
    }
    forall k, j | k in c'.nodes && j in c'.nodes[k]
      ensures Lower(j, k)
    {
      if k == key {
        assert j in skipped || j == behind;
      } else if k == ahead {
        assert c'.nodes[k] == {key};
      } else {
        assert c'.nodes[k] == c.nodes[k];
      }
    }
  }
}
