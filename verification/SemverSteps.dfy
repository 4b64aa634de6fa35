// Every acceptable bundle can be added: the graph the step generates, the graph with the bundle and the stored rows
// exist. The executable counterpart is SemverRuns.LoadManifestsSemver.
module SemverSteps {
  import opened Common
  import opened Semver
  import opened Tables
  import opened ChannelRows
  import opened Graph
  import opened Registry
  import opened GraphInsert
  import opened GraphWalk
  import opened GraphStore
  import opened GraphLoad
  import opened SemverRuns

  // ---- Generating ------------------------------------------------------------------------------

  ghost function GraphOf(rows: set<Annotated>, existing: set<BundleKey>, ch: string): (c: ChannelGraph)
    requires exists c :: IsGraphOf(rows, existing, ch, c)
    ensures IsGraphOf(rows, existing, ch, c)
  {
    var c :| IsGraphOf(rows, existing, ch, c);
    c
  }

  /** The channels with an actual bundle. */
  ghost function TrackedNames(rows: set<Annotated>, existing: set<BundleKey>): set<string> {
    set r | r in rows && r.key in existing :: r.channel
  }

  lemma TrackedName(rows: set<Annotated>, existing: set<BundleKey>, ch: string)
    ensures ch in TrackedNames(rows, existing) <==> Tracked(rows, existing, ch) != {}
  {
    if ch in TrackedNames(rows, existing) {
      var r :| r in rows && r.key in existing && r.channel == ch;
      assert r.key in Tracked(rows, existing, ch);
    }
    if Tracked(rows, existing, ch) != {} {
      var k :| k in Tracked(rows, existing, ch);
      var r :| r in rows && r.channel == ch && r.key in existing && r.key == k;
    }
  }

  lemma GraphsExist(db: Db, added: set<RegistryBundle>, pkg: string) returns (channels: map<string, ChannelGraph>)
    requires Chains(db, added)
    ensures AreGraphsOf(AnnotatedEntries(db, pkg), ExistingBundles(db, pkg), channels)
  {
    var rows, existing := AnnotatedEntries(db, pkg), ExistingBundles(db, pkg);
    var names := TrackedNames(rows, existing);
    forall ch
      ensures ch in names <==> Tracked(rows, existing, ch) != {}
      ensures ch in names ==> exists c :: IsGraphOf(rows, existing, ch, c)
    {
      TrackedName(rows, existing, ch);
      ChannelGenerated(db, added, ChannelKey(ch, pkg));
    }
    channels := map ch | ch in names :: GraphOf(rows, existing, ch);
  }

  lemma GenerateExists(db: Db, added: set<RegistryBundle>, pkg: string) returns (g: PackageGraph)
    requires Chains(db, added)
    ensures Generates(db, pkg, g)
  {
    if pkg in db.packages && db.packages[pkg].Some? {
      var channels := GraphsExist(db, added, pkg);
      g := PackageGraph(pkg, db.packages[pkg].value, channels);
    } else {
      g := PackageGraph(pkg, "", map[]);
    }
  }

  // ---- Adding ----------------------------------------------------------------------------------

  lemma NeighboursExist(keys: set<BundleKey>, v: Version) returns (ahead: BundleKey, behind: BundleKey)
    ensures IsLowestAhead(keys, v, ahead) && IsGreatestBehind(keys, v, behind)
  {
    ahead, behind := NO_KEY, NO_KEY;
    var rest, seen: set<BundleKey> := keys, {};
    while rest != {}
      invariant rest <= keys && seen == keys - rest
      invariant IsLowestAhead(seen, v, ahead) && IsGreatestBehind(seen, v, behind)
      decreases |rest|
    {
      var node :| node in rest;
      AheadStep(seen, v, ahead, node);
      BehindStep(seen, v, behind, node);
      ahead, behind := NewAhead(node, v, ahead), NewBehind(node, v, behind);
      rest, seen := rest - {node}, seen + {node};
    }
    assert seen == keys;
  }

  lemma InsertExists(c: ChannelGraph, key: BundleKey, v: Version) returns (c': ChannelGraph)
    ensures Inserted(c, key, v, false, c')
  {
    var ahead, behind := NeighboursExist(c.nodes.Keys, v);
    c' := Linked(c, key, ahead, behind, Candidates(c.nodes.Keys, v, false));
  }

  lemma AddExists(b: RegistryBundle, g: PackageGraph) returns (g': PackageGraph)
    requires Addable(b, g)
    ensures AddedTo(b, g, false, g')
  {
    var key, v, names, after := NewKey(b), b.version.version, b.channels, g.channels;
    for n := 0 to |names|
      invariant ChannelsHaveNew(g.channels, names[..n], key, v, false, after)
    {
      assert names[..n + 1] == names[..n] + [names[n]];
      var c := ChannelGraph(key, map[key := {}]);
      if names[n] in g.channels {
        c := InsertExists(g.channels[names[n]], key, v);
      }
      OneMoreChannel(g.channels, names[..n], names[n], key, v, false, after, c);
      after := after[names[n] := c];
    }
    assert names[..|names|] == names;
    g' := PackageGraph(if g.name == "" then b.pkg else g.name, DefaultFor(b, g), after);
  }

  // ---- Storing ---------------------------------------------------------------------------------

  lemma WalkExists(keys: set<BundleKey>, c: ChannelGraph) returns (path: seq<BundleKey>)
    requires SortedChain(keys, c)
    ensures IsWalk(c, path)
  {
    SortedWalkable(keys, c);
    path := [c.head];
    WalkDistinct(c, path);
    while NextNodes(c, path[|path| - 1]) != {}
      invariant IsPartialWalk(c, path) && |path| <= |c.nodes|
      decreases |c.nodes| - |path|
    {
      var next :| next in NextNodes(c, path[|path| - 1]);
      NodesHaveVersions(keys, c, next);
      WalkFurther(c, path, next);
      path := path + [next];
      WalkDistinct(c, path);
    }
  }

  lemma NodesHaveVersions(keys: set<BundleKey>, c: ChannelGraph, k: BundleKey)
    requires SortedChain(keys, c) && k in c.nodes
    ensures k != NO_KEY
  {
    assert k in keys;
  }

  lemma WalkFurther(c: ChannelGraph, path: seq<BundleKey>, next: BundleKey)
    requires IsPartialWalk(c, path) && next in NextNodes(c, path[|path| - 1]) && next != NO_KEY
    ensures IsPartialWalk(c, path + [next])
  {
    var longer := path + [next];
    forall i | 0 < i < |longer|
      ensures StepTaken(c, longer, i)
    {
      if i < |path| {
        assert StepTaken(c, path, i);
      }
    }
  }

  ghost function PlainLinks(path: seq<BundleKey>): (links: seq<Link>)
    ensures |links| == |path| && forall i | 0 <= i < |path| :: links[i] == Link(path[i].csvName, [])
  {
    seq(|path|, i requires 0 <= i < |path| => Link(path[i].csvName, []))
  }

  lemma {:induction false} PlainPositions(path: seq<BundleKey>, n: nat, id: nat)
    requires n <= |path|
    ensures RealAt(PlainLinks(path), n, id) == id + n && DepthAt(SemverMode, PlainLinks(path), n, 1) == 1 + n
  {
    if n > 0 {
      PlainPositions(path, n - 1, id);
    }
  }

  lemma WalkIsNodes(keys: set<BundleKey>, c: ChannelGraph, path: seq<BundleKey>, i: nat)
    requires SortedChain(keys, c) && IsPartialWalk(c, path) && i < |path|
    ensures path[i] in keys
  {
    if i > 0 {
      StepDown(keys, c, path, i);
    }
  }

  lemma PlainLinksFor(keys: set<BundleKey>, c: ChannelGraph, path: seq<BundleKey>)
    requires SortedChain(keys, c) && IsWalk(c, path)
    ensures LinksFor(c, path, PlainLinks(path))
  {
    forall i | 0 <= i < |path|
      ensures LinkFor(c, path[i], PlainLinks(path)[i])
    {
      WalkIsNodes(keys, c, path, i);
      SortedNext(keys, c, path[i]);
      assert Names([]) == [];
      assert LinkKeys(c, path[i], PlainLinks(path)[i], []);
    }
  }

  ghost function PlainRows(key: ChannelKey, path: seq<BundleKey>, id: nat): map<nat, Entry> {
    var ids := Range(id, id + |path|);
    map i | i in ids ::
      Entry(key, path[i - id].csvName, if i + 1 < id + |path| then Some(i + 1) else None, 1 + i - id)
  }

  lemma PlainRowsStored(entries: map<nat, Entry>, key: ChannelKey, path: seq<BundleKey>, id: nat)
    requires forall i | id <= i < id + |path| :: HasRow(entries, i, PlainRows(key, path, id)[i])
    ensures Stored(entries, SemverMode, key, PlainLinks(path), 1, id)
  {
    var links := PlainLinks(path);
    forall n | 0 <= n < |links|
      ensures LinkStored(entries, SemverMode, key, links, 1, id, n)
    {
      PlainPositions(path, n, id);
      PlainPositions(path, n + 1, id);
      assert HasRow(entries, id + n, PlainRows(key, path, id)[id + n]);
    }
  }

  /** The rows of a channel can be cleared and those of its sorted chain written. */
  lemma ChainRowsExist(entries: map<nat, Entry>, key: ChannelKey, keys: set<BundleKey>, c: ChannelGraph)
    returns (more: map<nat, Entry>, l: GraphLayout)
    requires SortedChain(keys, c)
    ensures SameExcept(entries, more, key) && GraphLaid(more, key, c, l)
  {
    var path := WalkExists(keys, c);
    var old_ := Truncated(entries, key);
    var id := FreshId(old_);
    more := old_ + PlainRows(key, path, id);
    l := GraphLayout(path, PlainLinks(path), id);
    PlainLinksFor(keys, c, path);
    PlainPositions(path, |path|, id);
    RowsAppended(entries, key, path, id);
    PlainRowsStored(more, key, path, id);
  }

  lemma RowsAppended(entries: map<nat, Entry>, key: ChannelKey, path: seq<BundleKey>, id: nat)
    requires id == FreshId(Truncated(entries, key))
    ensures var more := Truncated(entries, key) + PlainRows(key, path, id);
            && SameExcept(entries, more, key)
            && (forall i | id <= i < id + |path| :: HasRow(more, i, PlainRows(key, path, id)[i]))
            && (forall i | i in more :: more[i].key == key <==> id <= i < id + |path|)
  {
    assert forall i | i in Truncated(entries, key) :: i < id;
  }

  lemma UpsertExists(db: Db, g: PackageGraph) returns (tx: Db, missing: set<string>)
    ensures Upserted(db, g, g.channels.Keys, tx, missing)
  {
    tx, missing := db.(packages := db.packages[g.name := None]), {};
    var rest, done: set<string> := g.channels.Keys, {};
    while rest != {}
      invariant rest <= g.channels.Keys && done == g.channels.Keys - rest
      invariant Upserted(db, g, done, tx, missing)
      decreases |rest|
    {
      var name :| name in rest;
      UpsertedStep(db, g, done, tx, missing, name);
      rest, done := rest - {name}, done + {name};
      if g.channels[name].head.csvName in tx.bundles {
        tx := Upsert(tx, KeyOfChannel(g, name), g.channels[name].head.csvName);
      } else {
        missing := missing + {name};
      }
    }
    assert done == g.channels.Keys;
  }

  /** Every channel has a row and a sorted chain. */
  ghost predicate Storable(tx: Db, g: PackageGraph) {
    forall name | name in g.channels ::
      KeyOfChannel(g, name) in tx.channels && SortedChain(g.channels[name].nodes.Keys, g.channels[name])
  }

  lemma WriteOne(tx: Db, g: PackageGraph, entries: map<nat, Entry>, done: set<string>,
                 layouts: map<string, GraphLayout>, invalid: set<string>, name: string)
    returns (more: map<nat, Entry>, invalid': set<string>, layouts': map<string, GraphLayout>)
    requires Storable(tx, g) && Rewritten(tx, entries, g, done, layouts, invalid) && name in g.channels && name !in done
    ensures Rewritten(tx, more, g, done + {name}, layouts', invalid')
  {
    var c, l := g.channels[name], GraphLayout([], [], 0);
    assert KeyOfChannel(g, name) in tx.channels;
    more, l := ChainRowsExist(entries, KeyOfChannel(g, name), c.nodes.Keys, c);
    var bad := |c.nodes| != |l.path|;
    RewrittenStep(tx, entries, g, done, layouts, invalid, name, more, bad, l);
    layouts', invalid' := layouts[name := l], if bad then invalid + {name} else invalid;
  }

  lemma MoveOver(done: set<string>, rest: set<string>, name: string)
    requires name in rest
    ensures done + {name} + (rest - {name}) == done + rest
    ensures rest !! done ==> (rest - {name}) !! (done + {name})
    ensures |rest - {name}| < |rest|
  {
  }

  lemma {:induction false} WriteRest(tx: Db, g: PackageGraph, rest: set<string>, entries: map<nat, Entry>,
                                     done: set<string>, layouts: map<string, GraphLayout>, invalid: set<string>)
    returns (more: map<nat, Entry>, invalid': set<string>, layouts': map<string, GraphLayout>)
    requires Storable(tx, g) && Rewritten(tx, entries, g, done, layouts, invalid) && rest <= g.channels.Keys
    requires rest !! done
    ensures Rewritten(tx, more, g, done + rest, layouts', invalid')
    decreases |rest|
  {
    more, invalid', layouts' := entries, invalid, layouts;
    if rest == {} {
      assert done + rest == done;
    } else {
      var name :| name in rest;
      more, invalid', layouts' := WriteOne(tx, g, entries, done, layouts, invalid, name);
      MoveOver(done, rest, name);
      more, invalid', layouts' := WriteRest(tx, g, rest - {name}, more, done + {name}, layouts', invalid');
    }
  }

  lemma WriteExists(tx: Db, g: PackageGraph)
    returns (entries: map<nat, Entry>, invalid: set<string>, layouts: map<string, GraphLayout>)
    requires Storable(tx, g)
    ensures Rewritten(tx, entries, g, g.channels.Keys, layouts, invalid)
  {
    assert Rewritten(tx, tx.entries, g, {}, map[], {});
    entries, invalid, layouts := WriteRest(tx, g, g.channels.Keys, tx.entries, {}, map[], {});
    assert {} + g.channels.Keys == g.channels.Keys;
  }

  /** A graph of sorted chains whose heads have rows can be stored. */
  lemma StoreExists(db: Db, g: PackageGraph) returns (db': Db, report: Report, layouts: map<string, GraphLayout>)
    requires forall name | name in g.channels ::
               HeadExists(db, g, name) && SortedChain(g.channels[name].nodes.Keys, g.channels[name])
    ensures GraphStored(db, g, db', layouts) && Reports(db, g, db', layouts, report)
  {
    var tx, missing := UpsertExists(db, g);
    var noDefault := KeyOfChannel(g, g.defaultChannel) !in tx.channels;
    if !noDefault {
      tx := tx.(packages := tx.packages[g.name := Some(g.defaultChannel)]);
    }
    forall name | name in g.channels
      ensures KeyOfChannel(g, name) in tx.channels
    {
      assert KeyIn(g, KeyOfChannel(g, name));
    }
    var entries, invalid;
    entries, invalid, layouts := WriteExists(tx, g);
    StoredFromParts(db, g, tx, entries, layouts, invalid);
    db' := tx.(entries := entries);
    report := Report(missing, invalid, noDefault);
  }

  // ---- The step --------------------------------------------------------------------------------

  lemma ChainsStorable(db: Db, added: set<RegistryBundle>, g: PackageGraph)
    requires HasRows(db, added) && AreChains(g.channels, added, g.name)
    ensures forall name | name in g.channels ::
              HeadExists(db, g, name) && SortedChain(g.channels[name].nodes.Keys, g.channels[name])
  {
    forall name | name in g.channels
      ensures HeadExists(db, g, name) && SortedChain(g.channels[name].nodes.Keys, g.channels[name])
    {
      var keys := Members(added, KeyOfChannel(g, name));
      assert g.channels[name].nodes.Keys == keys;
      MembersHaveRows(db, added, KeyOfChannel(g, name), g.channels[name].head);
    }
  }

  /** A bundle is added by some step if and only if it is accepted. */
  lemma StepExists(db: Db, added: set<RegistryBundle>, b: RegistryBundle) returns (db': Db)
    requires Chains(db, added) && Accepted(db, added, b)
    ensures PlainStep(db, b, db') && Chains(db', added + {b})
  {
    var g := GenerateExists(db, added, b.pkg);
    AddableIff(db, added, b, g);
    var g' := AddExists(b, g);
    ReadyToStore(db, added, b, g, g');
    var db1 := AddBundleRow(db, b.name, RowFor(b));
    PlainRowAdded(db, b);
    RowsStay(db, b, db1, added);
    ChainsStorable(db1, added + {b}, g');
    var report, layouts;
    db', report, layouts := StoreExists(db1, g');
    CleanIff(db, added, b, g, g', db1, db', layouts, report);
    StepDone(db, added, b, g, g', db1, db', layouts);
  }

  lemma StepAccepted(db: Db, added: set<RegistryBundle>, b: RegistryBundle, db': Db)
    requires Chains(db, added) && PlainStep(db, b, db')
    ensures Accepted(db, added, b)
  {
    var g, g', db1, layouts :| StepVia(db, b, g, g', db1, layouts, db');
    AddableIff(db, added, b, g);
    CleanIff(db, added, b, g, g', db1, db', layouts, CLEAN);
  }
}
