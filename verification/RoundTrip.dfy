/** Storing a channel graph that is a single chain and rebuilding it gives the graph back. */
module RoundTrip {
  import opened Common
  import opened Semver
  import opened Tables
  import opened ChannelRows
  import opened Graph
  import opened GraphWalk
  import opened GraphStore
  import opened GraphLoad

  // ---- The rows of a walk, as annotated entries ------------------------------------------------

  function NextOf(path: seq<BundleKey>, m: nat): BundleKey {
    if m + 1 < |path| then path[m + 1] else NO_KEY
  }

  /** The annotated rows a walk gives rise to: real, extra and dummy entries. */
  ghost predicate IsRealRow(path: seq<BundleKey>, r: Annotated, m: nat) {
    m < |path| && r.key == path[m] && r.replacesKey == NextOf(path, m)
  }

  ghost predicate IsExtraRow(c: ChannelGraph, path: seq<BundleKey>, r: Annotated, m: nat) {
    m < |path| && r.key == path[m] && r.replacesKey in Synthetic(c, path[m])
  }

  ghost predicate IsDummyRow(c: ChannelGraph, path: seq<BundleKey>, r: Annotated, m: nat) {
    m < |path| && r.key in Synthetic(c, path[m]) && r.replacesKey == NO_KEY
  }

  ghost predicate IsWalkRow(c: ChannelGraph, path: seq<BundleKey>, r: Annotated) {
    exists m: nat :: IsRealRow(path, r, m) || IsExtraRow(c, path, r, m) || IsDummyRow(c, path, r, m)
  }

  /** The rows of channel ch are exactly those of the walk. */
  ghost predicate RowsOfWalk(rows: set<Annotated>, ch: string, c: ChannelGraph, path: seq<BundleKey>) {
    && (forall r | r in rows && r.channel == ch :: IsWalkRow(c, path, r))
    && (forall m | 0 <= m < |path| :: Annotated(ch, path[m], NextOf(path, m)) in rows)
    && (forall m, x | 0 <= m < |path| && x in Synthetic(c, path[m]) :: Annotated(ch, path[m], x) in rows)
  }

  ghost predicate AtMostOne(keys: set<BundleKey>) {
    forall i, j | i in keys && j in keys :: i == j
  }

  ghost predicate NoBundles(keys: set<BundleKey>, existing: set<BundleKey>) {
    forall x | x in keys :: x !in existing && x != NO_KEY
  }

  /** A chain of actual bundles from the head, each followed by at most one other; skipped keys are no bundles. */
  ghost predicate ChainGraph(c: ChannelGraph, path: seq<BundleKey>, existing: set<BundleKey>) {
    && IsWalk(c, path)
    && NoRepeats(path)
    && (forall k :: k in c.nodes <==> k in path)
    && (forall k | k in c.nodes :: AtMostOne(NextNodes(c, k)))
    && (forall k | k in c.nodes :: k in existing)
    && (forall k | k in c.nodes :: NoBundles(Synthetic(c, k), existing))
    && NO_KEY !in c.nodes
  }

  lemma TrackedNodes(rows: set<Annotated>, ch: string, c: ChannelGraph, path: seq<BundleKey>, existing: set<BundleKey>)
    requires RowsOfWalk(rows, ch, c, path) && ChainGraph(c, path, existing)
    ensures Tracked(rows, existing, ch) == c.nodes.Keys
    ensures Replacing(rows, ch) <= c.nodes.Keys
  {
    forall r | r in rows && r.channel == ch && (r.key in existing || r.replacesKey != NO_KEY)
      ensures r.key in c.nodes
    {
      var m: nat :| IsRealRow(path, r, m) || IsExtraRow(c, path, r, m) || IsDummyRow(c, path, r, m);
      assert path[m] in path;
    }
    forall k | k in c.nodes
      ensures k in Tracked(rows, existing, ch)
    {
      var m :| 0 <= m < |path| && path[m] == k;
      assert Annotated(ch, path[m], NextOf(path, m)) in rows;
    }
  }

  /** What a node of the chain replaces: the next node, and its synthetic replacements. */
  lemma ReplacedByNode(c: ChannelGraph, path: seq<BundleKey>, existing: set<BundleKey>, m: nat)
    requires ChainGraph(c, path, existing) && m < |path|
    ensures path[m] in c.nodes
    ensures c.nodes[path[m]] == Synthetic(c, path[m]) + if NextOf(path, m) == NO_KEY then {} else {NextOf(path, m)}
    ensures m + 1 < |path| <==> NextOf(path, m) != NO_KEY
  {
    assert path[m] in path;
    if m + 1 < |path| {
      assert StepTaken(c, path, m + 1);
      assert AtMostOne(NextNodes(c, path[m]));
      assert NextNodes(c, path[m]) == {path[m + 1]};
    } else {
      assert NextNodes(c, path[m]) == {};
    }
    assert c.nodes[path[m]] == Synthetic(c, path[m]) + NextNodes(c, path[m]);
  }

  /** A row with a node's key is its real row or one of its extra rows. */
  lemma RowOfNode(rows: set<Annotated>, ch: string, c: ChannelGraph, path: seq<BundleKey>, existing: set<BundleKey>,
                  n: nat, r: Annotated)
    requires RowsOfWalk(rows, ch, c, path) && ChainGraph(c, path, existing) && n < |path|
    requires r in rows && r.channel == ch && r.key == path[n]
    ensures r.replacesKey == NextOf(path, n) || r.replacesKey in Synthetic(c, path[n])
  {
    assert path[n] in path;
    var m: nat :| IsRealRow(path, r, m) || IsExtraRow(c, path, r, m) || IsDummyRow(c, path, r, m);
    if !IsDummyRow(c, path, r, m) {
      assert path[m] == path[n];
    }
  }

  lemma RowForEdge(rows: set<Annotated>, ch: string, c: ChannelGraph, path: seq<BundleKey>, existing: set<BundleKey>,
                   n: nat, x: BundleKey)
    requires RowsOfWalk(rows, ch, c, path) && ChainGraph(c, path, existing) && n < |path| && path[n] in c.nodes
    requires x in c.nodes[path[n]]
    ensures Annotated(ch, path[n], x) in rows && x != NO_KEY
  {
    if x in Synthetic(c, path[n]) {
      assert NoBundles(Synthetic(c, path[n]), existing);
    } else {
      ReplacedByNode(c, path, existing, n);
      assert Annotated(ch, path[n], NextOf(path, n)) in rows;
    }
  }

  lemma EdgeForRow(rows: set<Annotated>, ch: string, c: ChannelGraph, path: seq<BundleKey>, existing: set<BundleKey>,
                   n: nat, r: Annotated)
    requires RowsOfWalk(rows, ch, c, path) && ChainGraph(c, path, existing) && n < |path| && path[n] in c.nodes
    requires r in rows && r.channel == ch && r.key == path[n] && r.replacesKey != NO_KEY
    ensures r.replacesKey in c.nodes[path[n]]
  {
    RowOfNode(rows, ch, c, path, existing, n, r);
    ReplacedByNode(c, path, existing, n);
  }

  lemma EdgesOfNode(rows: set<Annotated>, ch: string, c: ChannelGraph, path: seq<BundleKey>, existing: set<BundleKey>,
                    k: BundleKey)
    requires RowsOfWalk(rows, ch, c, path) && ChainGraph(c, path, existing) && k in c.nodes
    ensures EdgeKeys(rows, ch, k) == c.nodes[k]
  {
    var n :| 0 <= n < |path| && path[n] == k;
    forall x | x in c.nodes[k]
      ensures x in EdgeKeys(rows, ch, k)
    {
      RowForEdge(rows, ch, c, path, existing, n, x);
      assert Annotated(ch, k, x) in rows;
    }
    forall r | r in rows && r.channel == ch && r.key == k && r.replacesKey != NO_KEY
      ensures r.replacesKey in c.nodes[k]
    {
      EdgeForRow(rows, ch, c, path, existing, n, r);
    }
  }

  lemma HeadOfWalk(rows: set<Annotated>, ch: string, c: ChannelGraph, path: seq<BundleKey>, existing: set<BundleKey>)
    requires RowsOfWalk(rows, ch, c, path) && ChainGraph(c, path, existing)
    ensures HeadKeys(rows, existing, ch) == {c.head}
  {
    TrackedNodes(rows, ch, c, path, existing);
    forall r | r in rows && r.channel == ch
      ensures r.replacesKey != c.head
    {
      NeverHead(rows, ch, c, path, existing, r);
    }
    forall k | k in c.nodes && k != c.head
      ensures k in ReplacedKeys(rows, ch)
    {
      var n :| 0 <= n < |path| && path[n] == k;
      assert NextOf(path, n - 1) == k;
      assert Annotated(ch, path[n - 1], NextOf(path, n - 1)) in rows;
    }
    assert path[0] in path;
  }

  lemma NeverHead(rows: set<Annotated>, ch: string, c: ChannelGraph, path: seq<BundleKey>, existing: set<BundleKey>,
                  r: Annotated)
    requires RowsOfWalk(rows, ch, c, path) && ChainGraph(c, path, existing) && r in rows && r.channel == ch
    ensures r.replacesKey != c.head
  {
    assert path[0] in path;
    assert IsWalkRow(c, path, r);
    var m: nat :| IsRealRow(path, r, m) || IsExtraRow(c, path, r, m) || IsDummyRow(c, path, r, m);
    assert m + 1 < |path| ==> path[0] != path[m + 1];
  }

  lemma WalkGivesGraph(rows: set<Annotated>, ch: string, c: ChannelGraph, path: seq<BundleKey>,
                       existing: set<BundleKey>)
    requires RowsOfWalk(rows, ch, c, path) && ChainGraph(c, path, existing)
    ensures IsGraphOf(rows, existing, ch, c) && Tracked(rows, existing, ch) != {}
  {
    HeadOfWalk(rows, ch, c, path, existing);
    TrackedNodes(rows, ch, c, path, existing);
    forall k | k in c.nodes
      ensures c.nodes[k] == EdgeKeys(rows, ch, k)
    {
      EdgesOfNode(rows, ch, c, path, existing, k);
    }
    assert c.head in path;
  }

  // ---- From entries to annotated rows ----------------------------------------------------------

  /** Node keys are the keys of bundle rows. */
  ghost predicate NodesMatch(db: Db, c: ChannelGraph) {
    forall k | k in c.nodes :: k.csvName in db.bundles && KeyOfName(db, k.csvName) == k && k != NO_KEY
  }

  /** The replaced keys that are no nodes are of names without a row. */
  ghost predicate SkipsRowless(db: Db, c: ChannelGraph) {
    forall k | k in c.nodes :: KeysOfNoRow(db, Synthetic(c, k))
  }

  ghost predicate KeysMatch(db: Db, c: ChannelGraph) {
    NodesMatch(db, c) && SkipsRowless(db, c)
  }

  ghost predicate KeysOfNoRow(db: Db, keys: set<BundleKey>) {
    forall x | x in keys :: x.csvName !in db.bundles && KeyOfName(db, x.csvName) == x && x != NO_KEY
  }

  lemma PathKeys(db: Db, c: ChannelGraph, path: seq<BundleKey>, m: nat)
    requires KeysMatch(db, c) && IsPartialWalk(c, path) && c.head in c.nodes && m < |path|
    ensures path[m] in c.nodes && KeyOfName(db, path[m].csvName) == path[m]
    ensures KeysOfNoRow(db, Synthetic(c, path[m]))
  {
    if m > 0 {
      assert StepTaken(c, path, m);
    }
  }

  /** The name of a skip of the m-th link is that of a synthetic replacement of the m-th node. */
  lemma SkipKey(c: ChannelGraph, path: seq<BundleKey>, links: seq<Link>, m: nat, j: nat) returns (x: BundleKey)
    requires LinksFor(c, path, links) && m < |path| && j < |links[m].skips|
    ensures x in Synthetic(c, path[m]) && links[m].skips[j] == x.csvName
  {
    assert LinkFor(c, path[m], links[m]);
    var keys :| LinkKeys(c, path[m], links[m], keys);
    x := keys[j];
  }

  lemma SkipOfKey(c: ChannelGraph, path: seq<BundleKey>, links: seq<Link>, m: nat, x: BundleKey) returns (j: nat)
    requires LinksFor(c, path, links) && m < |path| && x in Synthetic(c, path[m])
    ensures j < |links[m].skips| && links[m].skips[j] == x.csvName
  {
    assert LinkFor(c, path[m], links[m]);
    var keys :| LinkKeys(c, path[m], links[m], keys);
    j :| 0 <= j < |keys| && keys[j] == x;
  }

  ghost predicate Laid(db: Db, key: ChannelKey, c: ChannelGraph, l: GraphLayout) {
    GraphLaid(db.entries, key, c, l) && KeysMatch(db, c) && c.head in c.nodes
  }

  lemma RealAnnotation(db: Db, key: ChannelKey, c: ChannelGraph, l: GraphLayout, m: nat)
    requires Laid(db, key, c, l) && m < |l.path|
    ensures var i := RealAt(l.links, m, l.id);
            HasRow(db.entries, i, RowOf(SemverMode, key, l.links, 1, l.id, Real(m)))
            && Annotate(db, i) == Annotated(key.name, l.path[m], NextOf(l.path, m))
  {
    RowAtPlace(db.entries, SemverMode, key, l.links, 1, l.id, Real(m));
    assert LinkFor(c, l.path[m], l.links[m]);
    PathKeys(db, c, l.path, m);
    if m + 1 < |l.path| {
      RowAtPlace(db.entries, SemverMode, key, l.links, 1, l.id, Real(m + 1));
      assert LinkFor(c, l.path[m + 1], l.links[m + 1]);
      PathKeys(db, c, l.path, m + 1);
    }
  }

  lemma ExtraAnnotation(db: Db, key: ChannelKey, c: ChannelGraph, l: GraphLayout, m: nat, j: nat, x: BundleKey)
    requires Laid(db, key, c, l) && m < |l.path| && j < |l.links[m].skips|
    requires x in Synthetic(c, l.path[m]) && l.links[m].skips[j] == x.csvName
    ensures var i := IdOf(l.links, Extra(m, j), l.id);
            HasRow(db.entries, i, RowOf(SemverMode, key, l.links, 1, l.id, Extra(m, j)))
            && Annotate(db, i) == Annotated(key.name, l.path[m], x)
    ensures var i := IdOf(l.links, Dummy(m, j), l.id);
            HasRow(db.entries, i, RowOf(SemverMode, key, l.links, 1, l.id, Dummy(m, j)))
            && Annotate(db, i) == Annotated(key.name, x, NO_KEY)
  {
    RowAtPlace(db.entries, SemverMode, key, l.links, 1, l.id, Extra(m, j));
    RowAtPlace(db.entries, SemverMode, key, l.links, 1, l.id, Dummy(m, j));
    assert LinkFor(c, l.path[m], l.links[m]);
    PathKeys(db, c, l.path, m);
  }

  /** Every entry of the channel is annotated as a row of the walk. */
  lemma EntryIsWalkRow(db: Db, key: ChannelKey, c: ChannelGraph, l: GraphLayout, i: nat)
    requires Laid(db, key, c, l) && i in db.entries && db.entries[i].key == key
    ensures IsWalkRow(c, l.path, Annotate(db, i))
  {
    var place := Locate(l.links, l.id, |l.links|, i);
    var m := place.n;
    if place.Real? {
      RealAnnotation(db, key, c, l, m);
      assert IsRealRow(l.path, Annotate(db, i), m);
    } else {
      var x := SkipKey(c, l.path, l.links, m, place.j);
      ExtraAnnotation(db, key, c, l, m, place.j, x);
      assert IsExtraRow(c, l.path, Annotate(db, i), m) || IsDummyRow(c, l.path, Annotate(db, i), m);
    }
  }

  lemma AnnotatedAsWalk(db: Db, key: ChannelKey, c: ChannelGraph, l: GraphLayout)
    requires Laid(db, key, c, l)
    ensures RowsOfWalk(AnnotatedEntries(db, key.pkg), key.name, c, l.path)
  {
    var rows := AnnotatedEntries(db, key.pkg);
    forall r | r in rows && r.channel == key.name
      ensures IsWalkRow(c, l.path, r)
    {
      var i :| i in db.entries && db.entries[i].key.pkg == key.pkg && r == Annotate(db, i);
      EntryIsWalkRow(db, key, c, l, i);
    }
    forall m | 0 <= m < |l.path|
      ensures Annotated(key.name, l.path[m], NextOf(l.path, m)) in rows
    {
      RealAnnotation(db, key, c, l, m);
      assert Annotate(db, RealAt(l.links, m, l.id)) in rows;
    }
    forall m, x | 0 <= m < |l.path| && x in Synthetic(c, l.path[m])
      ensures Annotated(key.name, l.path[m], x) in rows
    {
      var j := SkipOfKey(c, l.path, l.links, m, x);
      ExtraAnnotation(db, key, c, l, m, j, x);
      assert Annotate(db, IdOf(l.links, Extra(m, j), l.id)) in rows;
    }
  }

  lemma NodeExists(db: Db, key: ChannelKey, c: ChannelGraph, l: GraphLayout, m: nat)
    requires Laid(db, key, c, l) && m < |l.path|
    ensures l.path[m] in ExistingBundles(db, key.pkg)
  {
    RealAnnotation(db, key, c, l, m);
    PathKeys(db, c, l.path, m);
    assert LinkFor(c, l.path[m], l.links[m]);
  }

  lemma NoRowNoBundle(db: Db, pkg: string, x: BundleKey)
    requires x.csvName !in db.bundles
    ensures x !in ExistingBundles(db, pkg)
  {
  }

  /** With such keys a stored single chain is read back with the same head, nodes and replaced keys. */
  lemma LaidReadsBack(db: Db, key: ChannelKey, c: ChannelGraph, l: GraphLayout)
    requires Laid(db, key, c, l) && Walkable(c) && |c.nodes| == |l.path|
    requires forall k | k in c.nodes :: AtMostOne(NextNodes(c, k))
    ensures IsGraphOf(AnnotatedEntries(db, key.pkg), ExistingBundles(db, key.pkg), key.name, c)
    ensures Tracked(AnnotatedEntries(db, key.pkg), ExistingBundles(db, key.pkg), key.name) != {}
  {
    var existing := ExistingBundles(db, key.pkg);
    AnnotatedAsWalk(db, key, c, l);
    WalkDistinct(c, l.path);
    LengthCheck(c, l.path);
    forall k | k in c.nodes
      ensures k in existing && NoBundles(Synthetic(c, k), existing)
    {
      var m :| 0 <= m < |l.path| && l.path[m] == k;
      NodeExists(db, key, c, l, m);
      assert KeysOfNoRow(db, Synthetic(c, k));
      forall x | x in Synthetic(c, k)
        ensures x !in existing
      {
        NoRowNoBundle(db, key.pkg, x);
      }
    }
    assert ChainGraph(c, l.path, existing);
    WalkGivesGraph(AnnotatedEntries(db, key.pkg), key.name, c, l.path, existing);
  }

  /** A replaced key that is read back is the key of the bundle of an entry of the channel. */
  lemma ReplacedEntry(db: Db, key: ChannelKey, c: ChannelGraph, l: GraphLayout, k: BundleKey, x: BundleKey)
    returns (t: nat)
    requires GraphLaid(db.entries, key, c, l) && x in EdgeKeys(AnnotatedEntries(db, key.pkg), key.name, k)
    ensures t in db.entries && db.entries[t].key == key && x == KeyOfName(db, db.entries[t].bundle) && x != NO_KEY
  {
    var r :| r in AnnotatedEntries(db, key.pkg) && r.channel == key.name && r.key == k && r.replacesKey == x
      && x != NO_KEY;
    var i: nat :| i in db.entries && db.entries[i].key.pkg == key.pkg && r == Annotate(db, i);
    assert db.entries[i].key == key;
    StoredLayered(db.entries, SemverMode, key, l.links, 1, l.id, i);
    t := db.entries[i].replacesId.value;
  }

  /** An entry whose bundle has a row makes that bundle a node. */
  lemma EntryIsTracked(db: Db, key: ChannelKey, t: nat)
    requires t in db.entries && db.entries[t].key == key && db.entries[t].bundle in db.bundles
    ensures KeyOfName(db, db.entries[t].bundle) in Tracked(AnnotatedEntries(db, key.pkg), ExistingBundles(db, key.pkg),
              key.name)
  {
    assert Annotate(db, t) in AnnotatedEntries(db, key.pkg);
  }

  /** A graph that is read back has no replaced key off its nodes that belongs to a bundle row. */
  lemma ReadBackIsRowless(db: Db, key: ChannelKey, c: ChannelGraph, l: GraphLayout)
    requires GraphLaid(db.entries, key, c, l)
    requires IsGraphOf(AnnotatedEntries(db, key.pkg), ExistingBundles(db, key.pkg), key.name, c)
    ensures SkipsRowless(db, c)
  {
    forall k, x | k in c.nodes && x in Synthetic(c, k)
      ensures x.csvName !in db.bundles && KeyOfName(db, x.csvName) == x && x != NO_KEY
    {
      assert x in EdgeKeys(AnnotatedEntries(db, key.pkg), key.name, k);
      var t := ReplacedEntry(db, key, c, l, k, x);
      if x.csvName in db.bundles {
        EntryIsTracked(db, key, t);
      }
    }
  }

  /** A channel graph that is a single chain from its head and whose node keys match the bundle rows. */
  ghost predicate IsSingleChain(db: Db, c: ChannelGraph) {
    && Walkable(c) && c.head in c.nodes && NodesMatch(db, c)
    && forall k | k in c.nodes :: AtMostOne(NextNodes(c, k))
  }

  /**
    Round trip: a stored single chain whose walk covers all nodes is read back with the same head, nodes and replaced
    keys if and only if the replaced keys that are no nodes are of names without a row.
  */
  lemma StoredGraphReadsBack(db: Db, key: ChannelKey, c: ChannelGraph, l: GraphLayout)
    requires GraphLaid(db.entries, key, c, l) && IsSingleChain(db, c) && |c.nodes| == |l.path|
    ensures IsGraphOf(AnnotatedEntries(db, key.pkg), ExistingBundles(db, key.pkg), key.name, c) <==> SkipsRowless(db, c)
  {
    if SkipsRowless(db, c) {
      LaidReadsBack(db, key, c, l);
    }
    if IsGraphOf(AnnotatedEntries(db, key.pkg), ExistingBundles(db, key.pkg), key.name, c) {
      ReadBackIsRowless(db, key, c, l);
    }
  }

  /** Generating a stored package graph gives back a single chain that was not reported, under the same condition. */
  lemma StoreThenGenerate(db: Db, g: PackageGraph, db': Db, layouts: map<string, GraphLayout>, report: Report,
                          g': PackageGraph, ch: string)
    requires GraphStored(db, g, db', layouts) && Reports(db, g, db', layouts, report) && Generates(db', g.name, g')
    requires ch in g.channels && ch !in report.invalid && !report.noDefault && IsSingleChain(db, g.channels[ch])
    ensures ch in g'.channels && g'.channels[ch] == g.channels[ch] <==> SkipsRowless(db, g.channels[ch])
  {
    var key, c := KeyOfChannel(g, ch), g.channels[ch];
    var rows, existing := AnnotatedEntries(db', g.name), ExistingBundles(db', g.name);
    assert ChannelDone(db', db'.entries, g, ch, layouts);
    assert key in db'.channels;
    MatchFrame(db, db', c);
    StoredGraphReadsBack(db', key, c, layouts[ch]);
    if SkipsRowless(db, c) {
      LaidReadsBack(db', key, c, layouts[ch]);
      GraphOfUnique(rows, existing, ch, c, g'.channels[ch]);
    }
  }

  lemma MatchFrame(db: Db, db': Db, c: ChannelGraph)
    requires NodesMatch(db, c) && db'.bundles == db.bundles
    ensures NodesMatch(db', c) && (SkipsRowless(db, c) <==> SkipsRowless(db', c))
  {
    forall k | k in c.nodes
      ensures KeysOfNoRow(db', Synthetic(c, k)) <==> KeysOfNoRow(db, Synthetic(c, k))
    {
    }
  }

  /**
    Skippatch leads to graphs that are not read back: version 1.0.1 replaced 1.0.0, whose row is still there. The
    reloaded graph has 1.0.0 as a node again.
  */
  lemma SkippedPatchComesBack() returns (before: ChannelGraph, db: Db, c: ChannelGraph, l: GraphLayout)
    ensures c.head.version.Text? && Inserted(before, c.head, c.head.version.version, true, c)
    ensures var key := ChannelKey("stable", "p");
            && GraphLaid(db.entries, key, c, l) && IsSingleChain(db, c) && |c.nodes| == |l.path|
            && !IsGraphOf(AnnotatedEntries(db, key.pkg), ExistingBundles(db, key.pkg), key.name, c)
  {
    var key := ChannelKey("stable", "p");
    var v0, v1 := Text(Version(1, 0, 0, [], [])), Text(Version(1, 0, 1, [], []));
    var a, b := BundleKey("", v0, "a"), BundleKey("", v1, "b");
    c := ChannelGraph(b, map[b := {a}]);
    db := Db(map["a" := BundleRow("", v0, "", [], ""), "b" := BundleRow("", v1, "", [], "")], map[key := "b"], map[],
             map[1 := Entry(key, "b", None, 1), 2 := Entry(key, "a", None, 2), 3 := Entry(key, "b", Some(2), 2)], {});
    l := GraphLayout([b], [Link("b", ["a"])], 1);
    before := ChannelGraph(a, map[a := {}]);
    PatchInserted(a, b);
    OneNodeChain(c, a, b);
    SkipRowsLaid(db.entries, key, c, a, b, l);
    assert a in Synthetic(c, b);
    assert !KeysOfNoRow(db, Synthetic(c, b));
    StoredGraphReadsBack(db, key, c, l);
  }

  lemma PatchInserted(a: BundleKey, b: BundleKey)
    requires a == BundleKey("", Text(Version(1, 0, 0, [], [])), "a")
    requires b == BundleKey("", Text(Version(1, 0, 1, [], [])), "b")
    ensures Inserted(ChannelGraph(a, map[a := {}]), b, b.version.version, true, ChannelGraph(b, map[b := {a}]))
  {
    var before, v := ChannelGraph(a, map[a := {}]), b.version.version;
    assert Compare(a.version.version, v) == -1;
    assert SkipPatchCandidate(a, v) && !Ahead(a, v);
    assert Candidates({a}, v, true) == {a} && before.nodes.Keys == {a};
    assert IsLowestAhead({a}, v, NO_KEY);
    CompareFlip(a.version.version, a.version.version);
    assert IsGreatestBehind({a}, v, a);
    assert before.nodes - {a} == map[] && {a} + {a} == {a};
    assert Linked(before, b, NO_KEY, a, {a}).nodes == map[b := {a}];
  }

  lemma OneNodeChain(c: ChannelGraph, a: BundleKey, b: BundleKey)
    requires a != b && c == ChannelGraph(b, map[b := {a}])
    ensures Walkable(c) && NextNodes(c, b) == {} && Synthetic(c, b) == {a}
  {
    assert Descends(c, map[b := 0]);
  }

  lemma SkipRowsLaid(entries: map<nat, Entry>, key: ChannelKey, c: ChannelGraph, a: BundleKey, b: BundleKey,
                     l: GraphLayout)
    requires a != b && c == ChannelGraph(b, map[b := {a}]) && l == GraphLayout([b], [Link(b.csvName, [a.csvName])], 1)
    requires entries == map[1 := Entry(key, b.csvName, None, 1), 2 := Entry(key, a.csvName, None, 2),
                            3 := Entry(key, b.csvName, Some(2), 2)]
    ensures GraphLaid(entries, key, c, l)
  {
    OneNodeChain(c, a, b);
    assert Names([a]) == [a.csvName];
    assert LinkKeys(c, b, l.links[0], [a]);
    assert RealAt(l.links, 0, 1) == 1 && RealAt(l.links, 1, 1) == 4 && DepthAt(SemverMode, l.links, 0, 1) == 1;
    assert SkipStored(entries, key, l.links[0], 1, 1, 0);
    assert LinkStored(entries, SemverMode, key, l.links, 1, 1, 0);
  }
}
