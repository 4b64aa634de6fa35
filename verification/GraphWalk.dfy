// Walking a channel graph from its head and flattening it to entries: the inner loop of AddPackageChannelsFromGraph.
module GraphWalk {
  import opened Common
  import opened Tables
  import opened ChannelRows
  import opened EntryWriter
  import opened Graph

  // ---- The walk --------------------------------------------------------------------------------

  function Replaced(c: ChannelGraph, k: BundleKey): set<BundleKey> {
    if k in c.nodes then c.nodes[k] else {}
  }

  function NextNodes(c: ChannelGraph, k: BundleKey): set<BundleKey> {
    Replaced(c, k) * c.nodes.Keys
  }

  function Synthetic(c: ChannelGraph, k: BundleKey): set<BundleKey> {
    Replaced(c, k) - c.nodes.Keys
  }

  /** Ranks fall along every edge between nodes. */
  ghost predicate Descends(c: ChannelGraph, rank: map<BundleKey, nat>) {
    && (forall k | k in c.nodes :: k in rank)
    && (forall k, j | k in c.nodes && j in NextNodes(c, k) :: rank[j] < rank[k])
  }

  /** The edges between nodes have no cycle; on a cycle the walk would not end. */
  ghost predicate Walkable(c: ChannelGraph) {
    exists rank :: Descends(c, rank)
  }

  /** Edges to strictly lower versions make a channel walkable. */
  lemma VersionsDescend(c: ChannelGraph)
    requires forall k, j | k in c.nodes && j in NextNodes(c, k) :: Lower(j, k)
    ensures Walkable(c)
  {
    var rank := map k | k in c.nodes :: |set j | j in c.nodes && Lower(j, k)|;
    forall k, j | k in c.nodes && j in NextNodes(c, k)
      ensures rank[j] < rank[k]
    {
      LowerCountsLess(c.nodes.Keys, j, k);
    }
    assert Descends(c, rank);
  }

  lemma LowerCountsLess(keys: set<BundleKey>, j: BundleKey, k: BundleKey)
    requires j in keys && Lower(j, k)
    ensures |set i | i in keys && Lower(i, j)| < |set i | i in keys && Lower(i, k)|
  {
    var below, above := set i | i in keys && Lower(i, j), set i | i in keys && Lower(i, k);
    forall i | i in below
      ensures i in above && i != j
    {
      LowerTransitive(i, j, k);
      LowerAsymmetric(i, j);
    }
    assert below <= above - {j};
    SubsetSize(below, above - {j});
  }

  ghost predicate StepTaken(c: ChannelGraph, path: seq<BundleKey>, i: nat)
    requires 0 < i < |path|
  {
    path[i] in NextNodes(c, path[i - 1]) && path[i] != NO_KEY
  }

  /** A path from the head along edges between nodes. */
  ghost predicate IsPartialWalk(c: ChannelGraph, path: seq<BundleKey>) {
    && |path| > 0 && path[0] == c.head
    && forall i | 0 < i < |path| :: StepTaken(c, path, i)
  }

  /** A path that stops where the loop stops. */
  ghost predicate IsWalk(c: ChannelGraph, path: seq<BundleKey>) {
    && IsPartialWalk(c, path)
    && (NextNodes(c, path[|path| - 1]) == {} || NO_KEY in NextNodes(c, path[|path| - 1]))
  }

  lemma {:induction false} WalkDescends(c: ChannelGraph, rank: map<BundleKey, nat>, path: seq<BundleKey>, i: nat,
                                        j: nat)
    requires Descends(c, rank) && IsPartialWalk(c, path) && i < j < |path|
    ensures path[i] in c.nodes && path[j] in c.nodes && rank[path[j]] < rank[path[i]]
    decreases j
  {
    assert StepTaken(c, path, j);
    if i < j - 1 {
      WalkDescends(c, rank, path, i, j - 1);
    }
  }

  /** A walk visits no node twice, so it takes at most as many steps as there are nodes. */
  lemma WalkDistinct(c: ChannelGraph, path: seq<BundleKey>)
    requires Walkable(c) && IsPartialWalk(c, path)
    ensures forall i, j | 0 <= i < j < |path| :: path[i] != path[j]
    ensures c.head in c.nodes ==> (forall i | 0 <= i < |path| :: path[i] in c.nodes) && |path| <= |c.nodes|
  {
    var rank :| Descends(c, rank);
    forall i, j | 0 <= i < j < |path|
      ensures path[i] != path[j]
    {
      WalkDescends(c, rank, path, i, j);
    }
    if c.head in c.nodes {
      forall i | 0 <= i < |path|
        ensures path[i] in c.nodes
      {
        if i > 0 {
          assert StepTaken(c, path, i);
        }
      }
      ListSize(path, c.nodes.Keys);
    }
  }

  /** The length check at the end of the walk reports exactly the graphs with a node off the path. */
  lemma LengthCheck(c: ChannelGraph, path: seq<BundleKey>)
    requires Walkable(c) && IsPartialWalk(c, path) && c.head in c.nodes
    ensures |c.nodes| != |path| <==> exists k :: k in c.nodes && k !in path
  {
    WalkDistinct(c, path);
    ListSize(path, c.nodes.Keys);
    assert |c.nodes.Keys| == |c.nodes|;
  }

  // ---- Flattening ------------------------------------------------------------------------------

  function Names(keys: seq<BundleKey>): (names: seq<string>)
    ensures |names| == |keys| && forall i | 0 <= i < |keys| :: names[i] == keys[i].csvName
  {
    seq(|keys|, i requires 0 <= i < |keys| => keys[i].csvName)
  }

  /** The link written for a node: its synthetic replacements, in some order, are skips. */
  ghost predicate LinkKeys(c: ChannelGraph, k: BundleKey, link: Link, keys: seq<BundleKey>) {
    && (forall x :: x in keys <==> x in Synthetic(c, k))
    && (forall i, j | 0 <= i < j < |keys| :: keys[i] != keys[j])
    && link == Link(k.csvName, Names(keys))
  }

  ghost predicate LinkFor(c: ChannelGraph, k: BundleKey, link: Link) {
    exists keys :: LinkKeys(c, k, link, keys)
  }

  ghost predicate LinksFor(c: ChannelGraph, path: seq<BundleKey>, links: seq<Link>) {
    |links| == |path| && forall i | 0 <= i < |path| :: LinkFor(c, path[i], links[i])
  }

  /** Separates the keys that are nodes from those that are not; the last node found is followed. */
  method SplitReplaces(c: ChannelGraph, k: BundleKey) returns (synthetic: seq<BundleKey>, next: BundleKey)
    ensures forall x :: x in synthetic <==> x in Synthetic(c, k)
    ensures forall i, j | 0 <= i < j < |synthetic| :: synthetic[i] != synthetic[j]
    ensures if NextNodes(c, k) == {} then next == NO_KEY else next in NextNodes(c, k)
  {
    synthetic, next := [], NO_KEY;
    var rest := Replaced(c, k);
    while rest != {}
      invariant rest <= Replaced(c, k)
      invariant forall x :: x in synthetic <==> x in Synthetic(c, k) && x !in rest
      invariant forall i, j | 0 <= i < j < |synthetic| :: synthetic[i] != synthetic[j]
      invariant if NextNodes(c, k) - rest == {} then next == NO_KEY else next in NextNodes(c, k)
      decreases |rest|
    {
      var x :| x in rest;
      rest := rest - {x};
      if x !in c.nodes {
        synthetic := synthetic + [x];
      } else {
        next := x;
      }
    }
  }

  lemma {:induction false} SemverDepth(chain: seq<Link>, n: nat)
    requires n <= |chain|
    ensures DepthAt(SemverMode, chain, n, 1) == 1 + n
  {
    if n > 0 {
      SemverDepth(chain, n - 1);
    }
  }

  /** The rows of some nodes of the walk, the last of them with the given id. */
  ghost predicate Flattened(old_: map<nat, Entry>, entries: map<nat, Entry>, key: ChannelKey, links: seq<Link>,
                            lastId: nat) {
    if links == [] then entries == old_ && lastId == 0
    else Building(old_, entries, SemverMode, key, links, 1, FreshId(old_)) && lastId == LastId(links, FreshId(old_))
  }

  /** The real entry of a node, pointed at by the previous one if there is one. */
  method AddNode(entries: map<nat, Entry>, key: ChannelKey, name: string, depth: nat, previousId: nat,
                 ghost old_: map<nat, Entry>, ghost links: seq<Link>)
    returns (more: map<nat, Entry>, id: nat)
    requires depth == 1 + |links| && Flattened(old_, entries, key, links, previousId)
    ensures Building(old_, more, SemverMode, key, links + [Link(name, [])], 1, FreshId(old_))
    ensures LastDepth(SemverMode, links + [Link(name, [])], 1) == depth
    ensures id == LastId(links + [Link(name, [])], FreshId(old_))
  {
    more, id := AddChannelEntry(entries, Entry(key, name, None, depth));
    if previousId == 0 {
      if links != [] {
        PositiveIds(links, FreshId(old_));
      }
      assert links + [Link(name, [])] == [Link(name, [])];
      BuildingStart(old_, more, SemverMode, key, name, 1);
    } else {
      more := AddReplaces(more, id, previousId);
      SemverDepth(links, |links|);
      BuildingNext(old_, entries, more, SemverMode, key, links, 1, FreshId(old_), name, depth);
    }
  }

  lemma PositiveIds(links: seq<Link>, id: nat)
    requires links != [] && id >= 1
    ensures LastId(links, id) >= 1
  {
    if |links| > 1 {
      RealAtIncreases(SemverMode, links, 0, |links| - 1, 0, id);
    }
  }

  /** The rows of one node: its real entry and the pairs for its synthetic replacements. */
  method WriteNode(entries: map<nat, Entry>, key: ChannelKey, c: ChannelGraph, node: BundleKey, depth: nat,
                   previousId: nat, ghost old_: map<nat, Entry>, ghost links: seq<Link>)
    returns (more: map<nat, Entry>, id: nat, next: BundleKey, ghost link: Link)
    requires depth == 1 + |links| && Flattened(old_, entries, key, links, previousId)
    ensures LinkFor(c, node, link)
    ensures Flattened(old_, more, key, links + [link], id)
    ensures if NextNodes(c, node) == {} then next == NO_KEY else next in NextNodes(c, node)
  {
    more, id := AddNode(entries, key, node.csvName, depth, previousId, old_, links);
    var synthetic;
    synthetic, next := SplitReplaces(c, node);
    var syntheticDepth;
    more, syntheticDepth := AddSkipEntries(more, key, node.csvName, Names(synthetic), depth + 1, old_, SemverMode,
      links, 1, FreshId(old_));
    link := Link(node.csvName, Names(synthetic));
    assert LinkKeys(c, node, link, synthetic);
  }

  lemma WalkOn(c: ChannelGraph, done: seq<BundleKey>, node: BundleKey, next: BundleKey)
    requires IsPartialWalk(c, done + [node]) && next in NextNodes(c, node) && next != NO_KEY
    ensures IsPartialWalk(c, done + [node] + [next])
  {
    var path := done + [node] + [next];
    forall i | 0 < i < |path|
      ensures StepTaken(c, path, i)
    {
      if i < |path| - 1 {
        assert StepTaken(c, done + [node], i);
      }
    }
  }

  lemma OneMoreLink(c: ChannelGraph, done: seq<BundleKey>, links: seq<Link>, node: BundleKey, link: Link)
    requires LinksFor(c, done, links) && LinkFor(c, node, link)
    ensures LinksFor(c, done + [node], links + [link])
  {
  }

  /**
    Writes the entries of one channel for any choice among several next nodes. Ends because ranks fall, and
    reports an invalid graph exactly when the path is not as long as there are nodes.
  */
  method WriteGraphChannel(old_: map<nat, Entry>, key: ChannelKey, c: ChannelGraph)
    returns (entries: map<nat, Entry>, invalid: bool, ghost path: seq<BundleKey>, ghost links: seq<Link>)
    requires Walkable(c)
    ensures IsWalk(c, path) && LinksFor(c, path, links)
    ensures Building(old_, entries, SemverMode, key, links, 1, FreshId(old_))
    ensures invalid <==> |c.nodes| != |path|
  {
    ghost var rank :| Descends(c, rank);
    entries := old_;
    var node, depth, previousId := c.head, 1, 0;
    path, links := [], [];
    while true
      invariant IsPartialWalk(c, path + [node])
      invariant LinksFor(c, path, links)
      invariant depth == |path| + 1
      invariant Flattened(old_, entries, key, links, previousId)
      decreases if node in rank then rank[node] + 1 else 0
    {
      var id, next;
      ghost var link;
      entries, id, next, link := WriteNode(entries, key, c, node, depth, previousId, old_, links);
      OneMoreLink(c, path, links, node, link);
      path, links := path + [node], links + [link];
      if next == NO_KEY {
        invalid := |c.nodes| != depth;
        return;
      }
      WalkOn(c, path[..|path| - 1], node, next);
      assert path[..|path| - 1] + [node] == path;
      node, previousId, depth := next, id, depth + 1;
    }
  }
}
