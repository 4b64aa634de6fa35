// Runs of semver mode: pkg/registry/populator.go, loadManifestsSemver. Each step generates the package's graph
// from the database, adds one bundle to it and stores it again.
module SemverRuns {
  import opened Common
  import opened Semver
  import opened Tables
  import opened ChannelRows
  import opened Graph
  import opened Registry
  import opened GraphInsert
  import opened GraphWalk
  import opened GraphStore
  import opened GraphLoad
  import RoundTrip

  // ---- The walk through a sorted chain ---------------------------------------------------------

  lemma {:induction false} PredecessorExists(keys: set<BundleKey>, lower: set<BundleKey>, x: BundleKey, low: BundleKey)
    returns (p: BundleKey)
    requires DistinctVersions(keys) && lower <= keys && low in lower && (forall k | k in lower :: Lower(k, x))
    requires forall k | k in keys && k !in lower && Lower(k, x) :: Lower(k, low)
    ensures p in Predecessors(keys, x)
    decreases |lower|
  {
    p := low;
    if above :| above in lower && Lower(low, above) {
      forall k | k in keys && k !in lower - {low} && Lower(k, x)
        ensures Lower(k, above)
      {
        if k != low {
          LowerTransitive(k, low, above);
        }
      }
      LowerAsymmetric(low, above);
      p := PredecessorExists(keys, lower - {low}, x, above);
    } else {
      forall m | m in keys
        ensures !(Lower(low, m) && Lower(m, x))
      {
        if Lower(low, m) && Lower(m, x) && m !in lower {
          LowerAsymmetric(low, m);
        }
      }
    }
  }

  lemma SortedNext(keys: set<BundleKey>, c: ChannelGraph, k: BundleKey)
    requires SortedChain(keys, c) && k in keys
    ensures NextNodes(c, k) == Predecessors(keys, k) && Synthetic(c, k) == {}
    ensures RoundTrip.AtMostOne(NextNodes(c, k))
  {
    assert c.nodes[k] == Predecessors(keys, k);
    forall i, j | i in Predecessors(keys, k) && j in Predecessors(keys, k)
      ensures i == j
    {
      OnePredecessor(keys, k, i, j);
    }
  }

  lemma SortedWalkable(keys: set<BundleKey>, c: ChannelGraph)
    requires SortedChain(keys, c)
    ensures Walkable(c) && c.head in c.nodes
  {
    forall k, j | k in c.nodes && j in NextNodes(c, k)
      ensures Lower(j, k)
    {
      SortedNext(keys, c, k);
    }
    VersionsDescend(c);
  }

  lemma NothingBetween(keys: set<BundleKey>, x: BundleKey, p: BundleKey, k: BundleKey)
    requires DistinctVersions(keys) && p in Predecessors(keys, x) && k in keys && k != p && !Lower(k, p)
    ensures !Lower(k, x)
  {
  }

  lemma StepDown(keys: set<BundleKey>, c: ChannelGraph, path: seq<BundleKey>, n: nat)
    requires SortedChain(keys, c) && IsPartialWalk(c, path) && 0 < n < |path|
    ensures path[n - 1] in keys && path[n] in Predecessors(keys, path[n - 1])
  {
    assert StepTaken(c, path, n);
    assert path[n - 1] in c.nodes.Keys;
  }

  /** Everything not below the n-th node of the walk lies on the walk. */
  lemma {:induction false} AbovePrefix(keys: set<BundleKey>, c: ChannelGraph, path: seq<BundleKey>, n: nat,
                                       k: BundleKey)
    requires SortedChain(keys, c) && IsPartialWalk(c, path) && n < |path| && k in keys && !Lower(k, path[n])
    ensures k in path
  {
    if k != path[n] && n > 0 {
      StepDown(keys, c, path, n);
      NothingBetween(keys, path[n - 1], path[n], k);
      AbovePrefix(keys, c, path, n - 1, k);
    }
  }

  lemma NothingBelowLast(keys: set<BundleKey>, c: ChannelGraph, last: BundleKey, k: BundleKey)
    requires SortedChain(keys, c) && last in keys && k in keys
    requires NextNodes(c, last) == {} || NO_KEY in NextNodes(c, last)
    ensures !Lower(k, last)
  {
    if Lower(k, last) {
      var p := PredecessorExists(keys, (set j | j in keys && Lower(j, last)), last, k);
      SortedNext(keys, c, last);
    }
  }

  lemma LastIsNode(keys: set<BundleKey>, c: ChannelGraph, path: seq<BundleKey>)
    requires SortedChain(keys, c) && IsPartialWalk(c, path)
    ensures path[|path| - 1] in keys
  {
    if |path| > 1 {
      StepDown(keys, c, path, |path| - 1);
    }
  }

  lemma OnWalk(keys: set<BundleKey>, c: ChannelGraph, path: seq<BundleKey>, k: BundleKey)
    requires SortedChain(keys, c) && IsWalk(c, path) && k in keys
    ensures k in path
  {
    LastIsNode(keys, c, path);
    NothingBelowLast(keys, c, path[|path| - 1], k);
    AbovePrefix(keys, c, path, |path| - 1, k);
  }

  /** The walk through a sorted chain meets every node, so a sorted chain is never reported as invalid. */
  lemma SortedWalkCovers(keys: set<BundleKey>, c: ChannelGraph, path: seq<BundleKey>)
    requires SortedChain(keys, c) && IsWalk(c, path)
    ensures |c.nodes| == |path|
  {
    SortedWalkable(keys, c);
    forall k | k in c.nodes
      ensures k in path
    {
      OnWalk(keys, c, path, k);
    }
    LengthCheck(c, path);
  }

  // ---- The invariant ---------------------------------------------------------------------------

  /** The keys of the added bundles that belong to a channel. */
  ghost function Members(added: set<RegistryBundle>, key: ChannelKey): set<BundleKey> {
    set b | b in added && b.pkg == key.pkg && key.name in b.channels :: NewKey(b)
  }

  /** The channels are the sorted chains of their members, and there is a channel wherever there is a member. */
  ghost predicate AreChains(channels: map<string, ChannelGraph>, added: set<RegistryBundle>, pkg: string) {
    && (forall ch :: ch in channels <==> Members(added, ChannelKey(ch, pkg)) != {})
    && (forall ch | ch in channels :: SortedChain(Members(added, ChannelKey(ch, pkg)), channels[ch]))
  }

  ghost predicate RowOf(db: Db, b: RegistryBundle) {
    b.name in db.bundles && b.name != "" && b.version.Text? && KeyOfName(db, b.name) == NewKey(b)
  }

  ghost predicate HasRows(db: Db, added: set<RegistryBundle>) {
    "" !in db.bundles && forall b | b in added :: RowOf(db, b)
  }

  ghost predicate HoldsChain(db: Db, key: ChannelKey, keys: set<BundleKey>, c: ChannelGraph, l: GraphLayout) {
    && SortedChain(keys, c) && GraphLaid(db.entries, key, c, l)
    && key in db.channels && db.channels[key] == c.head.csvName
  }

  ghost predicate ChannelHolds(db: Db, key: ChannelKey, keys: set<BundleKey>) {
    if keys == {} then key !in db.channels && forall i | i in db.entries :: db.entries[i].key != key
    else exists c, l :: HoldsChain(db, key, keys, c, l)
  }

  ghost predicate HasPackage(added: set<RegistryBundle>, pkg: string) {
    exists b :: b in added && b.pkg == pkg
  }

  /** The database holds exactly the given bundles, each channel as the sorted chain of its members. */
  ghost predicate Chains(db: Db, added: set<RegistryBundle>) {
    && HasRows(db, added)
    && (forall key :: ChannelHolds(db, key, Members(added, key)))
    && (forall pkg :: HasPackage(added, pkg) <==> pkg in db.packages && db.packages[pkg].Some?)
  }

  lemma NothingAdded()
    ensures Chains(EMPTY_DB, {})
  {
    forall key
      ensures ChannelHolds(EMPTY_DB, key, Members({}, key))
    {
      assert Members({}, key) == {};
    }
  }

  // ---- Generating ------------------------------------------------------------------------------

  lemma MemberKeys(db: Db, added: set<RegistryBundle>, key: ChannelKey, c: ChannelGraph)
    requires HasRows(db, added) && SortedChain(Members(added, key), c)
    ensures RoundTrip.KeysMatch(db, c)
  {
    forall k | k in c.nodes
      ensures k.csvName in db.bundles && KeyOfName(db, k.csvName) == k && k != NO_KEY && Synthetic(c, k) == {}
    {
      SortedNext(Members(added, key), c, k);
    }
  }

  /** A stored sorted chain is read back as it is. */
  lemma ChainReadsBack(db: Db, added: set<RegistryBundle>, key: ChannelKey, c: ChannelGraph, l: GraphLayout)
    requires HasRows(db, added) && HoldsChain(db, key, Members(added, key), c, l)
    ensures IsGraphOf(AnnotatedEntries(db, key.pkg), ExistingBundles(db, key.pkg), key.name, c)
    ensures Tracked(AnnotatedEntries(db, key.pkg), ExistingBundles(db, key.pkg), key.name) != {}
  {
    MemberKeys(db, added, key, c);
    SortedWalkable(Members(added, key), c);
    forall k | k in c.nodes
      ensures RoundTrip.AtMostOne(NextNodes(c, k))
    {
      SortedNext(Members(added, key), c, k);
    }
    SortedWalkCovers(Members(added, key), c, l.path);
    RoundTrip.LaidReadsBack(db, key, c, l);
  }

  lemma NothingTracked(db: Db, key: ChannelKey)
    requires forall i | i in db.entries :: db.entries[i].key != key
    ensures Tracked(AnnotatedEntries(db, key.pkg), ExistingBundles(db, key.pkg), key.name) == {}
  {
    forall r | r in AnnotatedEntries(db, key.pkg)
      ensures r.channel != key.name
    {
      var i: nat :| i in db.entries && db.entries[i].key.pkg == key.pkg && r == Annotate(db, i);
      assert db.entries[i].key == ChannelKey(db.entries[i].key.name, key.pkg);
    }
  }

  lemma ChannelGenerated(db: Db, added: set<RegistryBundle>, key: ChannelKey)
    requires Chains(db, added)
    ensures Members(added, key) != {} <==>
              Tracked(AnnotatedEntries(db, key.pkg), ExistingBundles(db, key.pkg), key.name) != {}
    ensures Members(added, key) != {} ==>
              exists c ::
                SortedChain(Members(added, key), c)
                && IsGraphOf(AnnotatedEntries(db, key.pkg), ExistingBundles(db, key.pkg), key.name, c)
  {
    assert ChannelHolds(db, key, Members(added, key));
    if Members(added, key) == {} {
      NothingTracked(db, key);
    } else {
      var c, l :| HoldsChain(db, key, Members(added, key), c, l);
      ChainReadsBack(db, added, key, c, l);
    }
  }

  lemma NoPackageNoMembers(added: set<RegistryBundle>, key: ChannelKey)
    requires !HasPackage(added, key.pkg)
    ensures Members(added, key) == {}
  {
  }

  /** Generating gives back the sorted chains. */
  lemma GeneratesChains(db: Db, added: set<RegistryBundle>, pkg: string, g: PackageGraph)
    requires Chains(db, added) && Generates(db, pkg, g)
    ensures AreChains(g.channels, added, pkg)
  {
    forall ch
      ensures ch in g.channels <==> Members(added, ChannelKey(ch, pkg)) != {}
      ensures ch in g.channels ==> SortedChain(Members(added, ChannelKey(ch, pkg)), g.channels[ch])
    {
      ChannelGenerated(db, added, ChannelKey(ch, pkg));
      if !HasPackage(added, pkg) {
        NoPackageNoMembers(added, ChannelKey(ch, pkg));
      } else if ch in g.channels {
        var rows, existing := AnnotatedEntries(db, pkg), ExistingBundles(db, pkg);
        var c :| SortedChain(Members(added, ChannelKey(ch, pkg)), c) && IsGraphOf(rows, existing, ch, c);
        GraphOfUnique(rows, existing, ch, c, g.channels[ch]);
      }
    }
  }

  /** Generating does not fail. */
  lemma GenerateSucceeds(db: Db, added: set<RegistryBundle>, pkg: string)
    requires Chains(db, added)
    ensures HeadsUnique(AnnotatedEntries(db, pkg), ExistingBundles(db, pkg))
  {
    forall ch | Tracked(AnnotatedEntries(db, pkg), ExistingBundles(db, pkg), ch) != {}
      ensures |HeadKeys(AnnotatedEntries(db, pkg), ExistingBundles(db, pkg), ch)| == 1
    {
      ChannelGenerated(db, added, ChannelKey(ch, pkg));
      var c :| IsGraphOf(AnnotatedEntries(db, pkg), ExistingBundles(db, pkg), ch, c);
      OneHead(AnnotatedEntries(db, pkg), ExistingBundles(db, pkg), ch, c);
    }
  }

  lemma OneHead(rows: set<Annotated>, existing: set<BundleKey>, ch: string, c: ChannelGraph)
    requires IsGraphOf(rows, existing, ch, c)
    ensures |HeadKeys(rows, existing, ch)| == 1
  {
    assert |{c.head}| == 1;
  }

  // ---- Adding ----------------------------------------------------------------------------------

  lemma MembersAfter(added: set<RegistryBundle>, b: RegistryBundle, key: ChannelKey)
    ensures Members(added + {b}, key)
            == Members(added, key) + if b.pkg == key.pkg && key.name in b.channels then {NewKey(b)} else {}
  {
  }

  lemma ChannelAfterAdd(keys: set<BundleKey>, before: map<string, ChannelGraph>, ch: string, key: BundleKey,
                        after: map<string, ChannelGraph>)
    requires key.version.Text? && ChannelHasNew(before, ch, key, key.version.version, false, after)
    requires Fits(before, ch, key.version.version)
    requires if ch in before then SortedChain(keys, before[ch]) else keys == {}
    ensures SortedChain(keys + {key}, after[ch])
  {
    if ch in before {
      InsertKeepsSorted(keys, before[ch], key, after[ch]);
    } else {
      SingletonSorted(key);
      assert keys + {key} == {key};
    }
  }

  ghost predicate IsChain(channels: map<string, ChannelGraph>, ch: string, keys: set<BundleKey>) {
    if ch in channels then keys != {} && SortedChain(keys, channels[ch]) else keys == {}
  }

  lemma AddedChannel(added: set<RegistryBundle>, b: RegistryBundle, g: PackageGraph, g': PackageGraph, ch: string)
    requires Addable(b, g) && AddedTo(b, g, false, g') && IsChain(g.channels, ch, Members(added, ChannelKey(ch, b.pkg)))
    ensures IsChain(g'.channels, ch, Members(added + {b}, ChannelKey(ch, b.pkg)))
  {
    var key := ChannelKey(ch, b.pkg);
    MembersAfter(added, b, key);
    if ch in b.channels {
      assert Fits(g.channels, ch, b.version.version);
      ChannelAfterAdd(Members(added, key), g.channels, ch, NewKey(b), g'.channels);
    }
  }

  /** Adding a bundle to sorted chains gives the sorted chains with it. */
  lemma AddedToChains(added: set<RegistryBundle>, b: RegistryBundle, g: PackageGraph, g': PackageGraph)
    requires AreChains(g.channels, added, b.pkg) && Addable(b, g) && AddedTo(b, g, false, g')
    ensures AreChains(g'.channels, added + {b}, b.pkg)
  {
    forall ch
      ensures IsChain(g'.channels, ch, Members(added + {b}, ChannelKey(ch, b.pkg)))
    {
      AddedChannel(added, b, g, g', ch);
    }
  }

  // ---- Storing ---------------------------------------------------------------------------------

  /** The bundle is inserted under a new name; of the other rows, path and version stay. */
  ghost predicate BundleAdded(db: Db, b: RegistryBundle, db': Db) {
    && db' == db.(bundles := db'.bundles)
    && b.name != "" && b.name !in db.bundles && db'.bundles.Keys == db.bundles.Keys + {b.name}
    && KeyOfName(db', b.name) == NewKey(b)
    && (forall name | name in db.bundles :: KeyOfName(db', name) == KeyOfName(db, name))
  }

  lemma MembersHaveRows(db: Db, added: set<RegistryBundle>, key: ChannelKey, k: BundleKey)
    requires HasRows(db, added) && k in Members(added, key)
    ensures k.csvName in db.bundles
  {
  }

  lemma ChannelStored(db: Db, added: set<RegistryBundle>, g: PackageGraph, db': Db, layouts: map<string, GraphLayout>,
                      ch: string)
    requires HasRows(db, added) && GraphStored(db, g, db', layouts)
    requires ch in g.channels && SortedChain(Members(added, KeyOfChannel(g, ch)), g.channels[ch])
    ensures KeyOfChannel(g, ch) in db'.channels && HeadExists(db, g, ch)
    ensures ch in layouts
    ensures HoldsChain(db', KeyOfChannel(g, ch), Members(added, KeyOfChannel(g, ch)), g.channels[ch], layouts[ch])
  {
    MembersHaveRows(db, added, KeyOfChannel(g, ch), g.channels[ch].head);
    assert ChannelDone(db', db'.entries, g, ch, layouts);
  }

  lemma OtherChannelHolds(db: Db, g: PackageGraph, db': Db, layouts: map<string, GraphLayout>, key: ChannelKey,
                          keys: set<BundleKey>)
    requires GraphStored(db, g, db', layouts) && !KeyIn(g, key) && ChannelHolds(db, key, keys)
    ensures ChannelHolds(db', key, keys)
  {
    assert SameRows(db.entries, db'.entries, key);
    if keys == {} {
      forall i | i in db'.entries
        ensures db'.entries[i].key != key
      {
        assert db'.entries[i].key == key ==> HasRow(db.entries, i, db'.entries[i]);
      }
    } else {
      var c, l :| HoldsChain(db, key, keys, c, l);
      GraphLaidKept(db.entries, db'.entries, key, c, l);
      assert HoldsChain(db', key, keys, c, l);
    }
  }

  lemma RowsStay(db: Db, b: RegistryBundle, db': Db, added: set<RegistryBundle>)
    requires BundleAdded(db, b, db') && b.version.Text? && HasRows(db, added)
    ensures HasRows(db', added + {b})
  {
  }

  lemma OtherMembers(added: set<RegistryBundle>, b: RegistryBundle, g: PackageGraph, key: ChannelKey)
    requires g.name == b.pkg && AreChains(g.channels, added + {b}, b.pkg) && !KeyIn(g, key)
    ensures Members(added + {b}, key) == Members(added, key)
  {
    MembersAfter(added, b, key);
    if key.pkg == b.pkg {
      assert key == ChannelKey(key.name, b.pkg) && key.name !in g.channels;
    }
  }

  lemma ChannelAfterStore(db: Db, added: set<RegistryBundle>, b: RegistryBundle, g: PackageGraph, db': Db,
                          layouts: map<string, GraphLayout>, key: ChannelKey)
    requires HasRows(db, added + {b}) && ChannelHolds(db, key, Members(added, key))
    requires g.name == b.pkg && AreChains(g.channels, added + {b}, b.pkg) && GraphStored(db, g, db', layouts)
    ensures ChannelHolds(db', key, Members(added + {b}, key))
  {
    if KeyIn(g, key) {
      assert key == KeyOfChannel(g, key.name);
      ChannelStored(db, added + {b}, g, db', layouts, key.name);
    } else {
      OtherMembers(added, b, g, key);
      OtherChannelHolds(db, g, db', layouts, key, Members(added, key));
    }
  }

  /** Storing sorted chains gives a database that holds them. */
  lemma StoredChains(db: Db, added: set<RegistryBundle>, b: RegistryBundle, db1: Db, g: PackageGraph, db': Db,
                     layouts: map<string, GraphLayout>)
    requires Chains(db, added) && BundleAdded(db, b, db1) && b.version.Text?
    requires g.name == b.pkg && AreChains(g.channels, added + {b}, b.pkg)
    requires GraphStored(db1, g, db', layouts) && KeyOfChannel(g, g.defaultChannel) in db'.channels
    ensures Chains(db', added + {b})
  {
    RowsStay(db, b, db1, added);
    forall key
      ensures ChannelHolds(db', key, Members(added + {b}, key))
    {
      ChannelHoldsFrame(db, db1, key, Members(added, key));
      ChannelAfterStore(db1, added, b, g, db', layouts, key);
    }
    PackagesAfter(db, added, b, db', g);
    RowsKept(db1, db', added + {b});
  }

  lemma RowsKept(db: Db, db': Db, added: set<RegistryBundle>)
    requires HasRows(db, added) && db'.bundles == db.bundles
    ensures HasRows(db', added)
  {
  }

  lemma ChannelHoldsFrame(db: Db, db1: Db, key: ChannelKey, keys: set<BundleKey>)
    requires ChannelHolds(db, key, keys) && db1.entries == db.entries && db1.channels == db.channels
    ensures ChannelHolds(db1, key, keys)
  {
    if keys != {} {
      var c, l :| HoldsChain(db, key, keys, c, l);
      assert HoldsChain(db1, key, keys, c, l);
    }
  }

  lemma PackagesAfter(db: Db, added: set<RegistryBundle>, b: RegistryBundle, db': Db, g: PackageGraph)
    requires forall pkg :: HasPackage(added, pkg) <==> pkg in db.packages && db.packages[pkg].Some?
    requires db'.packages == db.packages[b.pkg := Some(g.defaultChannel)]
    ensures forall pkg :: HasPackage(added + {b}, pkg) <==> pkg in db'.packages && db'.packages[pkg].Some?
  {
    forall pkg
      ensures HasPackage(added + {b}, pkg) <==> HasPackage(added, pkg) || pkg == b.pkg
    {
      if HasPackage(added, pkg) {
        var x :| x in added && x.pkg == pkg;
        assert x in added + {b};
      }
      if pkg == b.pkg {
        assert b in added + {b};
      }
    }
  }

  // ---- Runs ------------------------------------------------------------------------------------

  const CLEAN := Report({}, {}, false)

  /** One successful call of loadManifestsSemver, without skippatch. */
  ghost predicate StepVia(db: Db, b: RegistryBundle, g: PackageGraph, g': PackageGraph, db1: Db,
                          layouts: map<string, GraphLayout>, db': Db) {
    && Generates(db, b.pkg, g) && Addable(b, g) && AddedTo(b, g, false, g')
    && BundleAdded(db, b, db1)
    && GraphStored(db1, g', db', layouts) && Reports(db1, g', db', layouts, CLEAN)
  }

  ghost predicate Step(db: Db, b: RegistryBundle, db': Db) {
    exists g, g', db1, layouts :: StepVia(db, b, g, g', db1, layouts, db')
  }

  /** A step of a loader without alpha features, which takes no substitutions. */
  ghost predicate PlainStep(db: Db, b: RegistryBundle, db': Db) {
    b.substitutesFor == "" && Step(db, b, db')
  }

  /** A step keeps the invariant, for whatever bundle it adds. */
  lemma StepKeepsChains(db: Db, added: set<RegistryBundle>, b: RegistryBundle, db': Db)
    requires Chains(db, added) && Step(db, b, db')
    ensures Chains(db', added + {b})
  {
    var g, g', db1, layouts :| StepVia(db, b, g, g', db1, layouts, db');
    GeneratesChains(db, added, b.pkg, g);
    AddedToChains(added, b, g, g');
    StoredChains(db, added, b, db1, g', db', layouts);
  }

  ghost predicate StepOfRun(dbs: seq<Db>, bs: seq<RegistryBundle>, i: nat)
    requires i < |bs| && |dbs| == |bs| + 1
  {
    Step(dbs[i], bs[i], dbs[i + 1])
  }

  /** Adding the bundles one after the other, starting from the empty database. */
  ghost predicate Run(dbs: seq<Db>, bs: seq<RegistryBundle>) {
    && |dbs| == |bs| + 1 && dbs[0] == EMPTY_DB
    && forall i | 0 <= i < |bs| :: StepOfRun(dbs, bs, i)
  }

  ghost function AsSet(bs: seq<RegistryBundle>): set<RegistryBundle> {
    set b | b in bs
  }

  lemma AsSetStep(bs: seq<RegistryBundle>, i: nat)
    requires i < |bs|
    ensures AsSet(bs[..i + 1]) == AsSet(bs[..i]) + {bs[i]}
  {
    assert bs[..i + 1] == bs[..i] + [bs[i]];
  }

  lemma RunKeepsChains(dbs: seq<Db>, bs: seq<RegistryBundle>)
    requires Run(dbs, bs)
    ensures Chains(dbs[|bs|], AsSet(bs))
  {
    NothingAdded();
    for i := 0 to |bs|
      invariant Chains(dbs[i], AsSet(bs[..i]))
    {
      assert StepOfRun(dbs, bs, i);
      StepKeepsChains(dbs[i], AsSet(bs[..i]), bs[i], dbs[i + 1]);
      AsSetStep(bs, i);
    }
    assert bs[..|bs|] == bs;
  }

  /** After a run every channel is the sorted chain of the bundles added to it. */
  lemma RunGivesChains(dbs: seq<Db>, bs: seq<RegistryBundle>, pkg: string, g: PackageGraph)
    requires Run(dbs, bs) && Generates(dbs[|bs|], pkg, g)
    ensures AreChains(g.channels, AsSet(bs), pkg)
  {
    RunKeepsChains(dbs, bs);
    GeneratesChains(dbs[|bs|], AsSet(bs), pkg, g);
  }

  /** Two runs that add the same bundles in any order give the same channel graphs. */
  lemma OrderIndependence(dbs: seq<Db>, bs: seq<RegistryBundle>, dbs': seq<Db>, bs': seq<RegistryBundle>, pkg: string,
                          g: PackageGraph, g': PackageGraph)
    requires Run(dbs, bs) && Run(dbs', bs') && AsSet(bs) == AsSet(bs')
    requires Generates(dbs[|bs|], pkg, g) && Generates(dbs'[|bs'|], pkg, g')
    ensures g.channels == g'.channels
    ensures AreChains(g.channels, AsSet(bs), pkg)
  {
    RunGivesChains(dbs, bs, pkg, g);
    RunGivesChains(dbs', bs', pkg, g');
    ChainsUnique(g.channels, g'.channels, AsSet(bs), pkg);
  }

  lemma ChainsUnique(a: map<string, ChannelGraph>, b: map<string, ChannelGraph>, added: set<RegistryBundle>,
                     pkg: string)
    requires AreChains(a, added, pkg) && AreChains(b, added, pkg)
    ensures a == b
  {
    forall ch | ch in a
      ensures ch in b && a[ch] == b[ch]
    {
      SortedChainUnique(Members(added, ChannelKey(ch, pkg)), a[ch], b[ch]);
    }
    assert a.Keys == b.Keys;
  }

  // ---- The operation itself --------------------------------------------------------------------

  function CurrentDefault(db: Db, b: RegistryBundle): string {
    if b.defaultChannel != "" then b.defaultChannel
    else if b.pkg in db.packages && db.packages[b.pkg].Some? && db.packages[b.pkg].value != ""
    then db.packages[b.pkg].value
    else SelectDefaultChannel(b.channels)
  }

  ghost predicate NewToChannel(added: set<RegistryBundle>, key: ChannelKey, v: Version) {
    forall k | k in Members(added, key) :: !Conflicts(k, v)
  }

  /**
    What the graph and the bundle table ask of a bundle: a version, new to all of its channels; a name that is new; no
    substitution, which is an alpha feature; and some default channel.
  */
  ghost predicate Insertable(db: Db, added: set<RegistryBundle>, b: RegistryBundle) {
    && b.name != "" && b.name !in db.bundles && b.substitutesFor == ""
    && b.version.Text? && NoRepeats(b.channels) && CurrentDefault(db, b) != ""
    && forall ch | ch in b.channels :: NewToChannel(added, ChannelKey(ch, b.pkg), b.version.version)
  }

  /** What a bundle must satisfy to be added; its default channel is one of its own or exists already. */
  ghost predicate Accepted(db: Db, added: set<RegistryBundle>, b: RegistryBundle) {
    && Insertable(db, added, b)
    && (CurrentDefault(db, b) in b.channels || ChannelKey(CurrentDefault(db, b), b.pkg) in db.channels)
  }

  lemma NoneExistingIsEmpty(db: Db, pkg: string)
    requires "" !in db.bundles
    ensures NO_KEY !in ExistingBundles(db, pkg)
  {
  }

  lemma FitsIff(channels: map<string, ChannelGraph>, added: set<RegistryBundle>, pkg: string, ch: string, v: Version)
    requires AreChains(channels, added, pkg)
    ensures Fits(channels, ch, v) <==> NewToChannel(added, ChannelKey(ch, pkg), v)
  {
    if ch in channels {
      assert channels[ch].nodes.Keys == Members(added, ChannelKey(ch, pkg));
    }
  }

  lemma AddableIff(db: Db, added: set<RegistryBundle>, b: RegistryBundle, g: PackageGraph)
    requires Chains(db, added) && Generates(db, b.pkg, g)
    ensures DefaultFor(b, g) == CurrentDefault(db, b)
    ensures Addable(b, g) <==> b.version.Text? && CurrentDefault(db, b) != "" && NoRepeats(b.channels)
                               && forall ch | ch in b.channels ::
                                    NewToChannel(added, ChannelKey(ch, b.pkg), b.version.version)
  {
    GeneratesChains(db, added, b.pkg, g);
    if b.version.Text? {
      forall ch | ch in b.channels
        ensures Fits(g.channels, ch, b.version.version) <==>
                  NewToChannel(added, ChannelKey(ch, b.pkg), b.version.version)
      {
        FitsIff(g.channels, added, b.pkg, ch, b.version.version);
      }
    }
  }

  lemma ChainsWalkable(channels: map<string, ChannelGraph>, added: set<RegistryBundle>, pkg: string)
    requires AreChains(channels, added, pkg)
    ensures forall ch | ch in channels :: Walkable(channels[ch])
  {
    forall ch | ch in channels
      ensures Walkable(channels[ch])
    {
      SortedWalkable(Members(added, ChannelKey(ch, pkg)), channels[ch]);
    }
  }

  /** Sorted chains are stored without any report, but for a default channel that does not exist. */
  lemma StoredClean(db: Db, added: set<RegistryBundle>, g: PackageGraph, db': Db, layouts: map<string, GraphLayout>,
                    report: Report)
    requires HasRows(db, added) && AreChains(g.channels, added, g.name)
    requires GraphStored(db, g, db', layouts) && Reports(db, g, db', layouts, report)
    ensures report == Report({}, {}, KeyOfChannel(g, g.defaultChannel) !in db'.channels)
    ensures KeyOfChannel(g, g.defaultChannel) in db'.channels <==>
              g.defaultChannel in g.channels || KeyOfChannel(g, g.defaultChannel) in db.channels
  {
    forall ch | ch in g.channels
      ensures HeadExists(db, g, ch) && !IsInvalid(db', g, ch, layouts)
    {
      ChannelStored(db, added, g, db', layouts, ch);
      SortedWalkCovers(Members(added, KeyOfChannel(g, ch)), g.channels[ch], layouts[ch].path);
    }
    assert report.headMissing == {} && report.invalid == {};
  }

  lemma ReadyToStore(db: Db, added: set<RegistryBundle>, b: RegistryBundle, g: PackageGraph, g': PackageGraph)
    requires Chains(db, added) && Generates(db, b.pkg, g) && Addable(b, g) && AddedTo(b, g, false, g')
    ensures g'.name == b.pkg && AreChains(g'.channels, added + {b}, b.pkg)
    ensures forall ch | ch in g'.channels :: Walkable(g'.channels[ch])
  {
    GeneratesChains(db, added, b.pkg, g);
    AddedToChains(added, b, g, g');
    ChainsWalkable(g'.channels, added + {b}, b.pkg);
  }

  /** The graph has the default channel if it is one of the bundle's own or already has a row. */
  lemma DefaultInGraph(db: Db, added: set<RegistryBundle>, b: RegistryBundle, g: PackageGraph, g': PackageGraph)
    requires Chains(db, added) && Generates(db, b.pkg, g) && Addable(b, g) && AddedTo(b, g, false, g')
    ensures g'.defaultChannel == CurrentDefault(db, b)
    ensures g'.defaultChannel in g'.channels || ChannelKey(g'.defaultChannel, b.pkg) in db.channels <==>
              g'.defaultChannel in b.channels || ChannelKey(g'.defaultChannel, b.pkg) in db.channels
  {
    AddableIff(db, added, b, g);
    GeneratesChains(db, added, b.pkg, g);
    var key := ChannelKey(g'.defaultChannel, b.pkg);
    assert ChannelHolds(db, key, Members(added, key));
  }

  /** The store reports nothing exactly if the default channel exists. */
  lemma CleanIff(db: Db, added: set<RegistryBundle>, b: RegistryBundle, g: PackageGraph, g': PackageGraph, db1: Db,
                 db': Db, layouts: map<string, GraphLayout>, report: Report)
    requires Chains(db, added) && Generates(db, b.pkg, g) && Addable(b, g) && AddedTo(b, g, false, g')
    requires BundleAdded(db, b, db1)
    requires GraphStored(db1, g', db', layouts) && Reports(db1, g', db', layouts, report)
    ensures report.Clean() <==>
              CurrentDefault(db, b) in b.channels || ChannelKey(CurrentDefault(db, b), b.pkg) in db.channels
    ensures report.Clean() ==> report == CLEAN
  {
    ReadyToStore(db, added, b, g, g');
    RowsStay(db, b, db1, added);
    StoredClean(db1, added + {b}, g', db', layouts, report);
    DefaultInGraph(db, added, b, g, g');
  }

  method InOrder(entries: set<Annotated>) returns (rows: seq<Annotated>)
    ensures RowSet(rows) == entries
  {
    rows := [];
    var rest := entries;
    while rest != {}
      invariant rest <= entries && RowSet(rows) == entries - rest
      decreases |rest|
    {
      var r :| r in rest;
      assert RowSet(rows + [r]) == RowSet(rows) + {r};
      rest, rows := rest - {r}, rows + [r];
    }
  }

  /** Generating the package's graph and adding the bundle to it. */
  method UpdatedGraph(db: Db, b: RegistryBundle, ghost added: set<RegistryBundle>)
    returns (r: Option<PackageGraph>, ghost g: PackageGraph)
    requires Chains(db, added)
    ensures r.Some? <==> b.version.Text? && CurrentDefault(db, b) != "" && NoRepeats(b.channels)
                         && forall ch | ch in b.channels ::
                              NewToChannel(added, ChannelKey(ch, b.pkg), b.version.version)
    ensures r.Some? ==> Generates(db, b.pkg, g) && Addable(b, g) && AddedTo(b, g, false, r.value)
  {
    var rows := InOrder(AnnotatedEntries(db, b.pkg));
    var generated := Generate(db, b.pkg, rows);
    GenerateSucceeds(db, added, b.pkg);
    NoneExistingIsEmpty(db, b.pkg);
    g := generated.value;
    AddableIff(db, added, b, g);
    r := AddBundleToGraph(b, generated.value, false);
  }

  /** The bundle's row is inserted and the graph with it stored, but the package is left without a default channel. */
  ghost predicate LeftWithoutDefault(db: Db, b: RegistryBundle, g': PackageGraph, layouts: map<string, GraphLayout>,
                                     db': Db) {
    && g'.name == b.pkg && g'.defaultChannel == CurrentDefault(db, b)
    && GraphStored(AddBundleRow(db, b.name, RowFor(b)), g', db', layouts)
    && db'.packages == db.packages[b.pkg := None]
  }

  method LoadManifestsSemver(db: Db, b: RegistryBundle, ghost added: set<RegistryBundle>) returns (db': Db, ok: bool)
    requires Chains(db, added)
    ensures ok <==> Accepted(db, added, b)
    ensures ok ==> Step(db, b, db') && Chains(db', added + {b})
    ensures !Insertable(db, added, b) ==> db' == db
    ensures Insertable(db, added, b) ==>
              var row := BundleRow(b.image, b.version, b.replacesName, b.skips, b.substitutesFor);
              db'.bundles == db.bundles[b.name := row]
    ensures !ok && Insertable(db, added, b) ==>
              exists g': PackageGraph, layouts ::
                AreChains(g'.channels, added + {b}, b.pkg) && LeftWithoutDefault(db, b, g', layouts, db')
  {
    var updated;
    ghost var g, layouts;
    updated, g := UpdatedGraph(db, b, added);
    if updated.None? || b.name == "" || b.name in db.bundles || b.substitutesFor != "" {
      return db, false;
    }
    ReadyToStore(db, added, b, g, updated.value);
    var db1 := AddBundleRow(db, b.name, RowFor(b));
    PlainRowAdded(db, b);
    var report;
    db', report, layouts := StoreGraph(db1, updated.value);
    CleanIff(db, added, b, g, updated.value, db1, db', layouts, report);
    ok := report.Clean();
    if ok {
      StepDone(db, added, b, g, updated.value, db1, db', layouts);
    } else {
      NoDefaultLeft(db, added, b, g, updated.value, db', layouts, report);
    }
  }

  lemma NoDefaultLeft(db: Db, added: set<RegistryBundle>, b: RegistryBundle, g: PackageGraph, g': PackageGraph, db': Db,
                      layouts: map<string, GraphLayout>, report: Report)
    requires Chains(db, added) && Generates(db, b.pkg, g) && Addable(b, g) && AddedTo(b, g, false, g')
    requires b.name != "" && b.name !in db.bundles
    requires GraphStored(AddBundleRow(db, b.name, RowFor(b)), g', db', layouts)
    requires Reports(AddBundleRow(db, b.name, RowFor(b)), g', db', layouts, report) && !report.Clean()
    ensures AreChains(g'.channels, added + {b}, b.pkg) && LeftWithoutDefault(db, b, g', layouts, db')
  {
    var db1 := AddBundleRow(db, b.name, RowFor(b));
    PlainRowAdded(db, b);
    ReadyToStore(db, added, b, g, g');
    RowsStay(db, b, db1, added);
    StoredClean(db1, added + {b}, g', db', layouts, report);
    DefaultInGraph(db, added, b, g, g');
  }

  lemma PlainRowAdded(db: Db, b: RegistryBundle)
    requires b.name != "" && b.name !in db.bundles
    ensures BundleAdded(db, b, AddBundleRow(db, b.name, RowFor(b)))
  {
  }

  lemma StepDone(db: Db, added: set<RegistryBundle>, b: RegistryBundle, g: PackageGraph, g': PackageGraph, db1: Db,
                 db': Db, layouts: map<string, GraphLayout>)
    requires Chains(db, added) && StepVia(db, b, g, g', db1, layouts, db')
    ensures Step(db, b, db') && Chains(db', added + {b})
  {
    StepKeepsChains(db, added, b, db');
  }
}
