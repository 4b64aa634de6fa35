/** Rebuilding the graph of a package from its entries: pkg/sqlite/graphloader.go and the two queries it uses. */
module GraphLoad {
  import opened Common
  import opened Semver
  import opened Tables
  import opened Graph

  /** An entry joined with the bundle rows of itself and of the entry it points at. */
  datatype Annotated = Annotated(channel: string, key: BundleKey, replacesKey: BundleKey)

  // ---- What the rows say about a channel -------------------------------------------------------

  /** The nodes of a channel that are actual bundles. */
  ghost function Tracked(rows: set<Annotated>, existing: set<BundleKey>, ch: string): set<BundleKey> {
    set r | r in rows && r.channel == ch && r.key in existing :: r.key
  }

  ghost function Replacing(rows: set<Annotated>, ch: string): set<BundleKey> {
    set r | r in rows && r.channel == ch && r.replacesKey != NO_KEY :: r.key
  }

  ghost function EdgeKeys(rows: set<Annotated>, ch: string, k: BundleKey): set<BundleKey> {
    set r | r in rows && r.channel == ch && r.key == k && r.replacesKey != NO_KEY :: r.replacesKey
  }

  ghost function ReplacedKeys(rows: set<Annotated>, ch: string): set<BundleKey> {
    set r | r in rows && r.channel == ch :: r.replacesKey
  }

  ghost function HeadKeys(rows: set<Annotated>, existing: set<BundleKey>, ch: string): set<BundleKey> {
    Tracked(rows, existing, ch) - ReplacedKeys(rows, ch)
  }

  /** The graph of a channel: its unique node that nothing replaces, and all nodes with what they replace. */
  ghost predicate IsGraphOf(rows: set<Annotated>, existing: set<BundleKey>, ch: string, c: ChannelGraph) {
    && HeadKeys(rows, existing, ch) == {c.head}
    && c.nodes.Keys == Tracked(rows, existing, ch) + Replacing(rows, ch)
    && forall k | k in c.nodes :: c.nodes[k] == EdgeKeys(rows, ch, k)
  }

  lemma GraphOfUnique(rows: set<Annotated>, existing: set<BundleKey>, ch: string, a: ChannelGraph, b: ChannelGraph)
    requires IsGraphOf(rows, existing, ch, a) && IsGraphOf(rows, existing, ch, b)
    ensures a == b
  {
    assert a.head in {b.head};
    assert a.nodes == b.nodes;
  }

  // ---- The two passes --------------------------------------------------------------------------

  type Replaces = map<BundleKey, set<BundleKey>>

  ghost predicate BareNodes(rows: set<Annotated>, existing: set<BundleKey>, ch: string, nodes: Replaces) {
    nodes.Keys == Tracked(rows, existing, ch) && forall k | k in nodes :: nodes[k] == {}
  }

  ghost predicate HeadsTracked(rows: set<Annotated>, existing: set<BundleKey>, heads: map<string, set<BundleKey>>) {
    && (forall ch :: ch in heads <==> Tracked(rows, existing, ch) != {})
    && (forall ch | ch in heads :: heads[ch] == Tracked(rows, existing, ch))
  }

  /** After the first pass over some rows: the nodes, without edges, are also the head candidates. */
  ghost predicate FirstPass(rows: set<Annotated>, existing: set<BundleKey>, graph: map<string, Replaces>,
                            heads: map<string, set<BundleKey>>) {
    && (forall r | r in rows :: r.channel in graph)
    && (forall ch | ch in graph :: BareNodes(rows, existing, ch, graph[ch]))
    && HeadsTracked(rows, existing, heads)
  }

  lemma TrackedStep(rows: set<Annotated>, existing: set<BundleKey>, r: Annotated, ch: string)
    ensures Tracked(rows + {r}, existing, ch)
            == Tracked(rows, existing, ch) + if r.channel == ch && r.key in existing then {r.key} else {}
  {
  }

  lemma EdgeKeysStep(rows: set<Annotated>, r: Annotated, ch: string, k: BundleKey)
    ensures EdgeKeys(rows + {r}, ch, k)
            == EdgeKeys(rows, ch, k) + if r.channel == ch && r.key == k && r.replacesKey != NO_KEY
                                       then {r.replacesKey}
                                       else {}
  {
  }

  lemma ReplacingStep(rows: set<Annotated>, r: Annotated, ch: string)
    ensures Replacing(rows + {r}, ch) == Replacing(rows, ch) + if r.channel == ch && r.replacesKey != NO_KEY
                                                               then {r.key}
                                                               else {}
  {
  }

  lemma ReplacedKeysStep(rows: set<Annotated>, r: Annotated, ch: string)
    ensures ReplacedKeys(rows + {r}, ch) == ReplacedKeys(rows, ch) + if r.channel == ch then {r.replacesKey} else {}
  {
  }

  function Open(graph: map<string, Replaces>, ch: string): map<string, Replaces> {
    if ch in graph then graph else graph[ch := map[]]
  }

  function TrackNode(graph: map<string, Replaces>, r: Annotated, existing: set<BundleKey>): map<string, Replaces> {
    var open := Open(graph, r.channel);
    if r.key in existing then open[r.channel := open[r.channel][r.key := {}]] else open
  }

  function TrackHead(heads: map<string, set<BundleKey>>, r: Annotated, existing: set<BundleKey>)
    : map<string, set<BundleKey>>
  {
    if r.key !in existing then heads
    else if r.channel in heads then heads[r.channel := heads[r.channel] + {r.key}]
    else heads[r.channel := {r.key}]
  }

  lemma HeadsTrackedStep(rows: set<Annotated>, existing: set<BundleKey>, heads: map<string, set<BundleKey>>,
                         r: Annotated)
    requires HeadsTracked(rows, existing, heads)
    ensures HeadsTracked(rows + {r}, existing, TrackHead(heads, r, existing))
  {
    var heads' := TrackHead(heads, r, existing);
    forall ch
      ensures ch in heads' <==> Tracked(rows + {r}, existing, ch) != {}
      ensures ch in heads' ==> heads'[ch] == Tracked(rows + {r}, existing, ch)
    {
      TrackedStep(rows, existing, r, ch);
    }
  }

  lemma BareNodesStep(rows: set<Annotated>, existing: set<BundleKey>, ch: string, nodes: Replaces, r: Annotated)
    requires BareNodes(rows, existing, ch, nodes)
    ensures BareNodes(rows + {r}, existing, ch, if r.channel == ch && r.key in existing
                                                then nodes[r.key := {}]
                                                else nodes)
  {
    TrackedStep(rows, existing, r, ch);
  }

  lemma FirstPassStep(rows: set<Annotated>, existing: set<BundleKey>, graph: map<string, Replaces>,
                      heads: map<string, set<BundleKey>>, r: Annotated)
    requires FirstPass(rows, existing, graph, heads)
    ensures FirstPass(rows + {r}, existing, TrackNode(graph, r, existing), TrackHead(heads, r, existing))
  {
    HeadsTrackedStep(rows, existing, heads, r);
    var open, graph' := Open(graph, r.channel), TrackNode(graph, r, existing);
    forall ch | ch in graph'
      ensures BareNodes(rows + {r}, existing, ch, graph'[ch])
    {
      assert BareNodes(rows, existing, ch, open[ch]) by {
        if ch !in graph {
          assert forall x | x in rows :: x.channel != ch;
        }
      }
      BareNodesStep(rows, existing, ch, open[ch], r);
    }
  }

  /** A channel's nodes after the second pass over some of the rows: their edges are in. */
  ghost predicate NodesLinked(all: set<Annotated>, rows: set<Annotated>, existing: set<BundleKey>, ch: string,
                              nodes: Replaces) {
    && nodes.Keys == Tracked(all, existing, ch) + Replacing(rows, ch)
    && forall k | k in nodes :: nodes[k] == EdgeKeys(rows, ch, k)
  }

  /** After the second pass over some of the rows, what they replace is no head. */
  ghost predicate SecondPass(all: set<Annotated>, rows: set<Annotated>, existing: set<BundleKey>,
                             graph: map<string, Replaces>, heads: map<string, set<BundleKey>>)
  {
    && (forall r | r in all :: r.channel in graph)
    && (forall ch | ch in graph :: NodesLinked(all, rows, existing, ch, graph[ch]))
    && (forall ch :: ch in heads <==> Tracked(all, existing, ch) != {})
    && (forall ch | ch in heads :: heads[ch] == Tracked(all, existing, ch) - ReplacedKeys(rows, ch))
  }

  function LinkNode(graph: map<string, Replaces>, r: Annotated): map<string, Replaces> {
    if r.replacesKey == NO_KEY then graph
    else
      var open := Open(graph, r.channel);
      var nodes := open[r.channel];
      var old_ := if r.key in nodes then nodes[r.key] else {};
      open[r.channel := nodes[r.key := old_ + {r.replacesKey}]]
  }

  function DropHead(heads: map<string, set<BundleKey>>, r: Annotated): map<string, set<BundleKey>> {
    if r.channel in heads then heads[r.channel := heads[r.channel] - {r.replacesKey}] else heads
  }

  lemma NoEdgesYet(rows: set<Annotated>, ch: string, k: BundleKey)
    requires k !in Replacing(rows, ch)
    ensures EdgeKeys(rows, ch, k) == {}
  {
    assert forall r | r in rows && r.channel == ch && r.replacesKey != NO_KEY :: r.key in Replacing(rows, ch);
  }

  lemma NodesLinkedStep(all: set<Annotated>, rows: set<Annotated>, existing: set<BundleKey>, ch: string,
                        nodes: Replaces, r: Annotated)
    requires NodesLinked(all, rows, existing, ch, nodes)
    ensures NodesLinked(all, rows + {r}, existing, ch,
                        if r.channel == ch && r.replacesKey != NO_KEY
                        then nodes[r.key := (if r.key in nodes then nodes[r.key] else {}) + {r.replacesKey}] else nodes)
  {
    ReplacingStep(rows, r, ch);
    if r.channel == ch && r.replacesKey != NO_KEY && r.key !in nodes {
      NoEdgesYet(rows, ch, r.key);
    }
    EdgeKeysStep(rows, r, ch, r.key);
    forall k | k in nodes && k != r.key
      ensures EdgeKeys(rows + {r}, ch, k) == EdgeKeys(rows, ch, k)
    {
      EdgeKeysStep(rows, r, ch, k);
    }
  }

  lemma SecondPassStep(all: set<Annotated>, rows: set<Annotated>, existing: set<BundleKey>,
                       graph: map<string, Replaces>, heads: map<string, set<BundleKey>>, r: Annotated)
    requires SecondPass(all, rows, existing, graph, heads) && r in all
    ensures SecondPass(all, rows + {r}, existing, LinkNode(graph, r), DropHead(heads, r))
  {
    var graph', heads' := LinkNode(graph, r), DropHead(heads, r);
    forall ch | ch in graph'
      ensures NodesLinked(all, rows + {r}, existing, ch, graph'[ch])
    {
      NodesLinkedStep(all, rows, existing, ch, graph[ch], r);
    }
    forall ch | ch in heads'
      ensures heads'[ch] == Tracked(all, existing, ch) - ReplacedKeys(rows + {r}, ch)
    {
      ReplacedKeysStep(rows, r, ch);
    }
  }

  ghost function RowSet(rows: seq<Annotated>): set<Annotated> {
    set r | r in rows
  }

  lemma RowSetStep(rows: seq<Annotated>, n: nat)
    requires n < |rows|
    ensures RowSet(rows[..n + 1]) == RowSet(rows[..n]) + {rows[n]}
  {
    assert rows[..n + 1] == rows[..n] + [rows[n]];
  }

  method Passes(rows: seq<Annotated>, existing: set<BundleKey>)
    returns (graph: map<string, Replaces>, heads: map<string, set<BundleKey>>)
    ensures SecondPass(RowSet(rows), RowSet(rows), existing, graph, heads)
  {
    graph, heads := map[], map[];
    for n := 0 to |rows|
      invariant FirstPass(RowSet(rows[..n]), existing, graph, heads)
    {
      FirstPassStep(RowSet(rows[..n]), existing, graph, heads, rows[n]);
      RowSetStep(rows, n);
      graph, heads := TrackNode(graph, rows[n], existing), TrackHead(heads, rows[n], existing);
    }
    assert rows[..|rows|] == rows;
    FirstToSecond(RowSet(rows), existing, graph, heads);
    assert RowSet(rows[..0]) == {};
    for n := 0 to |rows|
      invariant SecondPass(RowSet(rows), RowSet(rows[..n]), existing, graph, heads)
    {
      SecondPassStep(RowSet(rows), RowSet(rows[..n]), existing, graph, heads, rows[n]);
      RowSetStep(rows, n);
      graph, heads := LinkNode(graph, rows[n]), DropHead(heads, rows[n]);
    }
  }

  lemma FirstToSecond(all: set<Annotated>, existing: set<BundleKey>, graph: map<string, Replaces>,
                      heads: map<string, set<BundleKey>>)
    requires FirstPass(all, existing, graph, heads)
    ensures SecondPass(all, {}, existing, graph, heads)
  {
    forall ch | ch in graph
      ensures NodesLinked(all, {}, existing, ch, graph[ch])
    {
      NothingLinked(all, existing, ch, graph[ch]);
    }
    forall ch | ch in heads
      ensures heads[ch] == Tracked(all, existing, ch) - ReplacedKeys({}, ch)
    {
      assert ReplacedKeys({}, ch) == {};
    }
  }

  lemma NothingLinked(all: set<Annotated>, existing: set<BundleKey>, ch: string, nodes: Replaces)
    requires nodes.Keys == Tracked(all, existing, ch) && forall k | k in nodes :: nodes[k] == {}
    ensures NodesLinked(all, {}, existing, ch, nodes)
  {
    assert Replacing({}, ch) == {};
    forall k | k in nodes
      ensures EdgeKeys({}, ch, k) == {}
    {
    }
  }

  /** Every channel with an actual bundle has exactly one head candidate. */
  ghost predicate HeadsUnique(rows: set<Annotated>, existing: set<BundleKey>) {
    forall ch | Tracked(rows, existing, ch) != {} :: |HeadKeys(rows, existing, ch)| == 1
  }

  ghost predicate AreGraphsOf(rows: set<Annotated>, existing: set<BundleKey>, channels: map<string, ChannelGraph>) {
    && (forall ch :: ch in channels <==> Tracked(rows, existing, ch) != {})
    && (forall ch | ch in channels :: IsGraphOf(rows, existing, ch, channels[ch]))
  }

  /** One candidate per channel becomes its head. */
  method PickHeads(graph: map<string, Replaces>, heads: map<string, set<BundleKey>>)
    returns (r: Option<map<string, ChannelGraph>>)
    requires heads.Keys <= graph.Keys
    ensures r.Some? <==> forall ch | ch in heads :: |heads[ch]| == 1
    ensures r.Some? ==> r.value.Keys == heads.Keys
    ensures r.Some? ==> forall ch | ch in heads :: heads[ch] == {r.value[ch].head} && r.value[ch].nodes == graph[ch]
  {
    var channels: map<string, ChannelGraph> := map[];
    var rest := heads.Keys;
    while rest != {}
      invariant rest <= heads.Keys && channels.Keys == heads.Keys - rest
      invariant forall ch | ch in channels ::
                  |heads[ch]| == 1 && heads[ch] == {channels[ch].head} && channels[ch].nodes == graph[ch]
      decreases |rest|
    {
      var ch :| ch in rest;
      if |heads[ch]| != 1 {
        return None;
      }
      var head :| head in heads[ch];
      SingleElement(heads[ch], head);
      rest := rest - {ch};
      channels := channels[ch := ChannelGraph(head, graph[ch])];
    }
    r := Some(channels);
  }

  method GraphFromEntries(rows: seq<Annotated>, existing: set<BundleKey>) returns (r: Option<map<string, ChannelGraph>>)
    ensures r.Some? <==> HeadsUnique(RowSet(rows), existing)
    ensures r.Some? ==> AreGraphsOf(RowSet(rows), existing, r.value)
  {
    var graph, heads := Passes(rows, existing);
    forall ch | ch in heads
      ensures ch in graph && heads[ch] == HeadKeys(RowSet(rows), existing, ch)
    {
      HeadChannel(RowSet(rows), existing, graph, heads, ch);
    }
    r := PickHeads(graph, heads);
    if r.Some? {
      forall ch | ch in r.value
        ensures IsGraphOf(RowSet(rows), existing, ch, r.value[ch])
      {
        HeadChannel(RowSet(rows), existing, graph, heads, ch);
      }
    }
  }

  lemma HeadChannel(all: set<Annotated>, existing: set<BundleKey>, graph: map<string, Replaces>,
                    heads: map<string, set<BundleKey>>, ch: string)
    requires SecondPass(all, all, existing, graph, heads) && ch in heads
    ensures ch in graph && heads[ch] == HeadKeys(all, existing, ch) && Tracked(all, existing, ch) != {}
    ensures forall head | heads[ch] == {head} :: IsGraphOf(all, existing, ch, ChannelGraph(head, graph[ch]))
  {
    var k :| k in Tracked(all, existing, ch);
    var r :| r in all && r.channel == ch && r.key == k;
    assert NodesLinked(all, all, existing, ch, graph[ch]);
  }

  lemma SingleElement<T>(s: set<T>, x: T)
    requires |s| == 1 && x in s
    ensures s == {x}
  {
    assert |s - {x}| == 0;
  }

  // ---- Generate --------------------------------------------------------------------------------

  /** The key of a bundle name; without a bundle row the joined columns are empty. */
  function KeyOfName(db: Db, name: string): BundleKey {
    if name in db.bundles then BundleKey(db.bundles[name].path, db.bundles[name].version, name)
    else BundleKey("", NoVersion, name)
  }

  /** A key tells its bundle, with a row or without. */
  lemma KeyNamesBundle(db: Db, name: string, other: string)
    ensures KeyOfName(db, name).csvName == name
    ensures KeyOfName(db, name) == KeyOfName(db, other) <==> name == other
  {
  }

  function Annotate(db: Db, i: nat): Annotated
    requires i in db.entries
  {
    var e := db.entries[i];
    Annotated(e.key.name, KeyOfName(db, e.bundle),
              if e.replacesId.Some? && e.replacesId.value in db.entries
              then KeyOfName(db, db.entries[e.replacesId.value].bundle)
              else NO_KEY)
  }

  /** GetChannelEntriesFromPackage. */
  function AnnotatedEntries(db: Db, pkg: string): set<Annotated> {
    set i | i in db.entries && db.entries[i].key.pkg == pkg :: Annotate(db, i)
  }

  /** GetBundlesForPackage. */
  function ExistingBundles(db: Db, pkg: string): set<BundleKey> {
    set i | i in db.entries && db.entries[i].key.pkg == pkg && db.entries[i].bundle in db.bundles ::
      KeyOfName(db, db.entries[i].bundle)
  }

  /** What Generate returns for the package's channels: no package row or default gives no channels. */
  ghost predicate Generates(db: Db, pkg: string, graph: PackageGraph) {
    && graph.name == pkg
    && if pkg in db.packages && db.packages[pkg].Some?
       then graph.defaultChannel == db.packages[pkg].value
            && AreGraphsOf(AnnotatedEntries(db, pkg), ExistingBundles(db, pkg), graph.channels)
       else graph == PackageGraph(pkg, "", map[])
  }

  /** Generate, given the package's entries in any order; None is an error other than a missing package. */
  method Generate(db: Db, pkg: string, rows: seq<Annotated>) returns (r: Option<PackageGraph>)
    requires RowSet(rows) == AnnotatedEntries(db, pkg)
    ensures r.Some? ==> Generates(db, pkg, r.value)
    ensures r.None? <==> pkg in db.packages && db.packages[pkg].Some? &&
                         (NO_KEY in ExistingBundles(db, pkg)
                           || !HeadsUnique(AnnotatedEntries(db, pkg), ExistingBundles(db, pkg)))
  {
    if pkg !in db.packages || db.packages[pkg].None? {
      return Some(PackageGraph(pkg, "", map[]));
    }
    if NO_KEY in ExistingBundles(db, pkg) {
      return None;
    }
    var channels := GraphFromEntries(rows, ExistingBundles(db, pkg));
    if channels.None? {
      return None;
    }
    return Some(PackageGraph(pkg, db.packages[pkg].value, channels.value));
  }
}
