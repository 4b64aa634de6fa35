/** Both loaders keep the index sound. */
module Upkeep {
  import opened Common
  import opened Tables
  import opened ChannelRows
  import opened Soundness
  import opened ReplacesLoader
  import opened Graph
  import opened GraphWalk
  import opened GraphStore
  import opened GraphLoad
  import opened GraphInsert
  import opened Registry
  import Semver

  // ---- A channel that was just written ---------------------------------------------------------

  /** The channel's rows are exactly those of the given links. */
  ghost predicate ExactRows(entries: map<nat, Entry>, mode: Mode, key: ChannelKey, links: seq<Link>, depth: nat,
                            id: nat) {
    && |links| > 0 && Stored(entries, mode, key, links, depth, id)
    && forall i | i in entries :: entries[i].key == key <==> id <= i < RealAt(links, |links|, id)
  }

  lemma RowsPointerSound(entries: map<nat, Entry>, mode: Mode, key: ChannelKey, links: seq<Link>, depth: nat, id: nat,
                         i: nat)
    requires ExactRows(entries, mode, key, links, depth, id) && i in entries && entries[i].key == key
    ensures PointerSound(entries, i)
  {
    StoredLayered(entries, mode, key, links, depth, id, i);
  }

  /** The head's row is on top, so the channel's recorded head is right exactly if it is the first link. */
  lemma RowsHeadOnTop(db: Db, mode: Mode, key: ChannelKey, links: seq<Link>, depth: nat, id: nat)
    requires ExactRows(db.entries, mode, key, links, depth, id) && key in db.channels
    ensures HeadOnTop(db, key) <==> db.channels[key] == links[0].name
  {
    RealAtIncreases(mode, links, 0, |links|, depth, id);
    StoredLayered(db.entries, mode, key, links, depth, id, id);
    forall j | j in db.entries && db.entries[j].key == key && j != id
      ensures db.entries[j].depth > db.entries[id].depth
    {
      StoredLayered(db.entries, mode, key, links, depth, id, j);
    }
    if db.channels[key] == links[0].name {
      assert IsTop(db, key, id);
    }
    if HeadOnTop(db, key) {
      var i: nat :| IsTop(db, key, i);
      assert i == id;
    }
  }

  // ---- A channel that was left alone -----------------------------------------------------------

  lemma HeadStaysOnTop(db: Db, db': Db, key: ChannelKey)
    requires key in db.channels && key in db'.channels && db'.channels[key] == db.channels[key]
    requires SameRows(db.entries, db'.entries, key) && HeadOnTop(db, key)
    ensures HeadOnTop(db', key)
  {
    var i: nat :| IsTop(db, key, i);
    assert HasRow(db'.entries, i, db.entries[i]);
    forall j | j in db'.entries && db'.entries[j].key == key && j != i
      ensures db'.entries[j].depth > db'.entries[i].depth
    {
      assert HasRow(db.entries, j, db'.entries[j]);
    }
    assert IsTop(db', key, i);
  }

  lemma PointerStaysSound(entries: map<nat, Entry>, entries': map<nat, Entry>, i: nat)
    requires i in entries' && SameRows(entries, entries', entries'[i].key) && i in entries && PointerSound(entries, i)
    ensures PointerSound(entries', i)
  {
    assert HasRow(entries, i, entries'[i]);
    if entries[i].replacesId.Some? {
      var t := entries[i].replacesId.value;
      assert HasRow(entries', t, entries[t]);
    }
  }

  // ---- Replaces mode ---------------------------------------------------------------------------

  lemma WrittenRows(db: Db, key: ChannelKey) returns (links: seq<Link>, id: nat)
    requires Written(db, key)
    ensures ExactRows(db.entries, ReplacesMode, key, links, 0, id) && links[0].name == db.channels[key]
  {
    var head := db.channels[key];
    id :| WrittenAt(db, key, head, id);
    ChainFacts(db.bundles, db.deprecated, head, {head});
    links := Links(db.bundles, HeadChain(db, head).value);
  }

  lemma LoadedOthers(db: Db, m: Manifest, db': Db, key: ChannelKey)
    requires Loaded(db, m, db') && key.pkg != m.pkg && Loadable(db, m)
    ensures SameRows(db.entries, db'.entries, key)
    ensures key in db.channels <==> key in db'.channels
    ensures key in db.channels ==> db'.channels[key] == db.channels[key]
  {
    ChannelTableRows(m.pkg, Kept(m.channels, db.deprecated));
  }

  /** A channel of the loaded package is one that was kept, with its head. */
  lemma LoadedChannel(db: Db, m: Manifest, db': Db, key: ChannelKey)
    requires Loaded(db, m, db') && Loadable(db, m) && key in db'.channels && key.pkg == m.pkg
    ensures Written(db', key) && db'.channels[key] in db.bundles && db'.channels[key] !in db.deprecated
  {
    var kept := Kept(m.channels, db.deprecated);
    ChannelTableRows(m.pkg, kept);
    assert key in ChannelTable(m.pkg, kept);
    var c :| c in kept && key == ChannelRow(m.pkg, c);
    KeptMembers(m.channels, db.deprecated, c);
  }

  lemma LoadedForeignKeys(db: Db, m: Manifest, db': Db)
    requires ForeignKeys(db) && Loaded(db, m, db') && Loadable(db, m)
    ensures ForeignKeys(db')
  {
    var kept := Kept(m.channels, db.deprecated);
    forall key | key in db'.channels
      ensures db'.channels[key] in db'.bundles
    {
      if key.pkg == m.pkg {
        LoadedChannel(db, m, db', key);
      } else {
        LoadedOthers(db, m, db', key);
      }
    }
    forall p | p in db'.packages && db'.packages[p].Some?
      ensures ChannelKey(db'.packages[p].value, p) in db'.channels
    {
      if p == m.pkg {
        DefaultHasRow(m, kept);
      } else {
        LoadedOthers(db, m, db', ChannelKey(db.packages[p].value, p));
      }
    }
  }

  lemma DefaultHasRow(m: Manifest, kept: seq<PackageChannel>)
    requires DistinctNames(kept) && DefaultOf(m, kept).Some?
    ensures ChannelKey(DefaultOf(m, kept).value, m.pkg) in ChannelTable(m.pkg, kept)
  {
    DefaultIsKept(m, kept);
    ChannelTableRows(m.pkg, kept);
    var c :| c in kept && c.name == DefaultOf(m, kept).value;
    assert ChannelRow(m.pkg, c) in ChannelTable(m.pkg, kept);
  }

  lemma LoadedPointers(db: Db, m: Manifest, db': Db, i: nat)
    requires PointersSound(db) && Loaded(db, m, db') && Loadable(db, m) && ForeignKeys(db') && i in db'.entries
    ensures PointerSound(db'.entries, i)
  {
    var key := db'.entries[i].key;
    if key.pkg == m.pkg {
      LoadedChannel(db, m, db', key);
      var links, id := WrittenRows(db', key);
      RowsPointerSound(db'.entries, ReplacesMode, key, links, 0, id, i);
    } else {
      LoadedOthers(db, m, db', key);
      assert HasRow(db.entries, i, db'.entries[i]);
      PointerStaysSound(db.entries, db'.entries, i);
    }
  }

  lemma LoadedHeads(db: Db, m: Manifest, db': Db, key: ChannelKey)
    requires Sound(db) && Loaded(db, m, db') && Loadable(db, m) && key in db'.channels
    ensures HeadOnTop(db', key)
  {
    if key.pkg == m.pkg {
      LoadedChannel(db, m, db', key);
      var links, id := WrittenRows(db', key);
      RowsHeadOnTop(db', ReplacesMode, key, links, 0, id);
    } else {
      LoadedOthers(db, m, db', key);
      HeadStaysOnTop(db, db', key);
    }
  }

  /** The pointers stay sound, whatever the heads. */
  lemma LoadKeepsPointers(db: Db, m: Manifest, db': Db)
    requires PointersSound(db) && Loaded(db, m, db') && Loadable(db, m)
    ensures PointersSound(db')
  {
    LoadedForeignKeys(db, m, db');
    forall i | i in db'.entries
      ensures PointerSound(db'.entries, i)
    {
      LoadedPointers(db, m, db', i);
    }
  }

  /** A successful replaces-mode load keeps the index sound and heads no channel with a deprecated bundle. */
  lemma LoadKeepsSound(db: Db, m: Manifest, db': Db)
    requires Sound(db) && Loaded(db, m, db') && Loadable(db, m)
    ensures Sound(db')
    ensures NoDeprecatedHead(db) ==> NoDeprecatedHead(db')
  {
    LoadKeepsPointers(db, m, db');
    forall key | key in db'.channels
      ensures HeadOnTop(db', key)
      ensures NoDeprecatedHead(db) ==> db'.channels[key] !in db'.deprecated
    {
      LoadedHeads(db, m, db', key);
      if key.pkg == m.pkg {
        LoadedChannel(db, m, db', key);
      } else {
        LoadedOthers(db, m, db', key);
      }
    }
  }

  // ---- Semver mode -----------------------------------------------------------------------------

  lemma StoredRows(db: Db, g: PackageGraph, db': Db, layouts: map<string, GraphLayout>, name: string)
    requires GraphStored(db, g, db', layouts) && name in g.channels && KeyOfChannel(g, name) in db'.channels
    ensures name in layouts
    ensures ExactRows(db'.entries, SemverMode, KeyOfChannel(g, name), layouts[name].links, 1, layouts[name].id)
    ensures layouts[name].links[0].name == g.channels[name].head.csvName
  {
    assert ChannelDone(db', db'.entries, g, name, layouts);
    var l := layouts[name];
    assert LinkFor(g.channels[name], l.path[0], l.links[0]);
  }

  lemma StoredOthers(db: Db, g: PackageGraph, db': Db, layouts: map<string, GraphLayout>, key: ChannelKey)
    requires GraphStored(db, g, db', layouts) && !KeyIn(g, key)
    ensures SameRows(db.entries, db'.entries, key)
    ensures key in db.channels <==> key in db'.channels
    ensures key in db.channels ==> db'.channels[key] == db.channels[key]
  {
  }

  /** The graph can be stored soundly: no channel keeps its row while its new head is not a bundle row. */
  ghost predicate HeadsFit(db: Db, g: PackageGraph) {
    forall name | name in g.channels :: HeadExists(db, g, name) || KeyOfChannel(g, name) !in db.channels
  }

  lemma StoredHead(db: Db, g: PackageGraph, db': Db, layouts: map<string, GraphLayout>, name: string)
    requires ForeignKeys(db) && GraphStored(db, g, db', layouts) && name in g.channels
    requires KeyOfChannel(g, name) in db'.channels
    ensures HeadOnTop(db', KeyOfChannel(g, name)) <==> HeadExists(db, g, name)
  {
    StoredRows(db, g, db', layouts, name);
    RowsHeadOnTop(db', SemverMode, KeyOfChannel(g, name), layouts[name].links, 1, layouts[name].id);
    assert KeyIn(g, KeyOfChannel(g, name));
  }

  lemma StoredHeads(db: Db, g: PackageGraph, db': Db, layouts: map<string, GraphLayout>, key: ChannelKey)
    requires Sound(db) && GraphStored(db, g, db', layouts) && HeadsFit(db, g) && key in db'.channels
    ensures HeadOnTop(db', key)
  {
    if KeyIn(g, key) {
      assert key == KeyOfChannel(g, key.name);
      StoredHead(db, g, db', layouts, key.name);
    } else {
      StoredOthers(db, g, db', layouts, key);
      HeadStaysOnTop(db, db', key);
    }
  }

  lemma StoredForeignKeys(db: Db, g: PackageGraph, db': Db, layouts: map<string, GraphLayout>)
    requires ForeignKeys(db) && GraphStored(db, g, db', layouts)
    ensures ForeignKeys(db')
  {
    forall i | i in db'.entries
      ensures db'.entries[i].key in db'.channels
    {
      var key := db'.entries[i].key;
      if KeyIn(g, key) {
        assert key == KeyOfChannel(g, key.name);
        assert ChannelDone(db', db'.entries, g, key.name, layouts);
      } else {
        assert HasRow(db.entries, i, db'.entries[i]);
      }
    }
  }

  lemma StoredPointers(db: Db, g: PackageGraph, db': Db, layouts: map<string, GraphLayout>, i: nat)
    requires PointersSound(db) && GraphStored(db, g, db', layouts) && ForeignKeys(db') && i in db'.entries
    ensures PointerSound(db'.entries, i)
  {
    var key := db'.entries[i].key;
    if KeyIn(g, key) {
      assert key == KeyOfChannel(g, key.name);
      StoredRows(db, g, db', layouts, key.name);
      RowsPointerSound(db'.entries, SemverMode, key, layouts[key.name].links, 1, layouts[key.name].id, i);
    } else {
      StoredOthers(db, g, db', layouts, key);
      assert HasRow(db.entries, i, db'.entries[i]);
      PointerStaysSound(db.entries, db'.entries, i);
    }
  }

  lemma StoredPointersAll(db: Db, g: PackageGraph, db': Db, layouts: map<string, GraphLayout>)
    requires PointersSound(db) && GraphStored(db, g, db', layouts) && ForeignKeys(db')
    ensures forall i | i in db'.entries :: PointerSound(db'.entries, i)
    ensures PointersResolve(db')
  {
    forall i | i in db'.entries
      ensures PointerSound(db'.entries, i)
    {
      StoredPointers(db, g, db', layouts, i);
    }
  }

  /** Storing a graph keeps the pointers sound, whether its heads fit or not. */
  lemma StoreKeepsPointers(db: Db, g: PackageGraph, db': Db, layouts: map<string, GraphLayout>)
    requires PointersSound(db) && GraphStored(db, g, db', layouts)
    ensures PointersSound(db') && PointersResolve(db')
  {
    StoredForeignKeys(db, g, db', layouts);
    StoredPointersAll(db, g, db', layouts);
  }

  lemma MisfitBreaks(db: Db, g: PackageGraph, db': Db, layouts: map<string, GraphLayout>)
    requires Sound(db) && GraphStored(db, g, db', layouts) && !HeadsFit(db, g)
    ensures !Sound(db')
  {
    var name :| name in g.channels && !HeadExists(db, g, name) && KeyOfChannel(g, name) in db.channels;
    assert KeyIn(g, KeyOfChannel(g, name)) && KeyOfChannel(g, name) in db'.channels;
    StoredHead(db, g, db', layouts, name);
  }

  lemma FitKeeps(db: Db, g: PackageGraph, db': Db, layouts: map<string, GraphLayout>)
    requires Sound(db) && GraphStored(db, g, db', layouts) && HeadsFit(db, g)
    ensures Sound(db')
  {
    StoreKeepsPointers(db, g, db', layouts);
    forall key | key in db'.channels
      ensures HeadOnTop(db', key)
    {
      StoredHeads(db, g, db', layouts, key);
    }
  }

  /** Storing a graph keeps the index sound if and only if its heads fit. */
  lemma StoreKeepsSound(db: Db, g: PackageGraph, db': Db, layouts: map<string, GraphLayout>)
    requires Sound(db) && GraphStored(db, g, db', layouts)
    ensures Sound(db') <==> HeadsFit(db, g)
    ensures PointersResolve(db')
  {
    StoreKeepsPointers(db, g, db', layouts);
    if HeadsFit(db, g) {
      FitKeeps(db, g, db', layouts);
    } else {
      MisfitBreaks(db, g, db', layouts);
    }
  }

  /** A channel whose stored head is "a" and whose new graph starts at "z", a name without a row, ends up unsound. */
  lemma MissingHeadUnsound() returns (db: Db, g: PackageGraph, db': Db, layouts: map<string, GraphLayout>)
    ensures Sound(db) && GraphStored(db, g, db', layouts) && !Sound(db')
  {
    var key, z := ChannelKey("stable", "p"), BundleKey("", Semver.NoVersion, "z");
    var c := ChannelGraph(z, map[z := {}]);
    db := Db(map["a" := BundleRow("", Semver.NoVersion, "", [], "")], map[key := "a"], map["p" := Some("stable")],
             map[1 := Entry(key, "a", None, 0)], {});
    g := PackageGraph("p", "stable", map["stable" := c]);
    db' := db.(entries := map[1 := Entry(key, "z", None, 1)]);
    var l := GraphLayout([z], [Link("z", [])], 1);
    layouts := map["stable" := l];
    assert IsTop(db, key, 1);
    assert LinkKeys(c, z, l.links[0], []);
    assert LinkStored(db'.entries, SemverMode, key, l.links, 1, 1, 0);
    assert GraphLaid(db'.entries, key, c, l);
    MisfitBreaks(db, g, db', layouts);
  }

  /** Graphs generated from the index and extended by the bundle just added always fit. */
  lemma GeneratedHeadsFit(db: Db, b: RegistryBundle, g: PackageGraph, skippatch: bool, g': PackageGraph, db1: Db)
    requires Generates(db, b.pkg, g) && Addable(b, g) && AddedTo(b, g, skippatch, g')
    requires db.bundles.Keys + {b.name} <= db1.bundles.Keys
    ensures HeadsFit(db1, g')
  {
    forall name | name in g'.channels
      ensures HeadExists(db1, g', name)
    {
      GeneratedHead(db, b, g, skippatch, g', name);
    }
  }

  lemma HeadIsBundle(db: Db, pkg: string, ch: string, c: ChannelGraph)
    requires IsGraphOf(AnnotatedEntries(db, pkg), ExistingBundles(db, pkg), ch, c)
    ensures c.head.csvName in db.bundles
  {
    assert c.head in HeadKeys(AnnotatedEntries(db, pkg), ExistingBundles(db, pkg), ch);
    assert c.head in ExistingBundles(db, pkg);
  }

  lemma HeadAfterInsert(c: ChannelGraph, key: BundleKey, v: Semver.Version, skippatch: bool, c': ChannelGraph)
    requires Inserted(c, key, v, skippatch, c')
    ensures c'.head == c.head || c'.head == key
  {
  }

  lemma GeneratedHead(db: Db, b: RegistryBundle, g: PackageGraph, skippatch: bool, g': PackageGraph, name: string)
    requires Generates(db, b.pkg, g) && Addable(b, g) && AddedTo(b, g, skippatch, g') && name in g'.channels
    ensures g'.channels[name].head.csvName in db.bundles || g'.channels[name].head.csvName == b.name
  {
    if name in g.channels {
      HeadIsBundle(db, b.pkg, name, g.channels[name]);
    }
    if name in b.channels {
      assert ChannelHasNew(g.channels, name, NewKey(b), b.version.version, skippatch, g'.channels);
      if name in g.channels {
        HeadAfterInsert(g.channels[name], NewKey(b), b.version.version, skippatch, g'.channels[name]);
      }
    }
  }
}
