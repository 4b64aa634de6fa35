/** Indexes that replaces-mode calls lead to and in which the model does not find the recorded head. */
module HeadExamples {
  import opened Common
  import opened Semver
  import opened Tables
  import opened ChannelRows
  import opened ReplacesLoader
  import opened ListQuery
  import opened ReadBack
  import opened Conversion
  import opened HeadAgreement

  function Row(replacesName: string, skips: seq<string>): BundleRow {
    BundleRow("", NoVersion, replacesName, skips, "")
  }

  function OneChannel(pkg: string): Manifest {
    Manifest(pkg, [PackageChannel("stable", "a")], "stable")
  }

  function Stable(pkg: string): ChannelKey {
    ChannelKey("stable", pkg)
  }

  /** The tables after loading a package with the one channel "stable", headed by "a", whose rows are given. */
  function WithPackage(db: Db, pkg: string, rows: map<nat, Entry>): Db {
    db.(packages := db.packages[pkg := Some("stable")], channels := db.channels[Stable(pkg) := "a"],
      entries := db.entries + rows)
  }

  lemma KeptOne(pkg: string)
    ensures Kept(OneChannel(pkg).channels, {}) == OneChannel(pkg).channels
    ensures ChannelTable(pkg, OneChannel(pkg).channels) == map[Stable(pkg) := "a"]
    ensures DefaultOf(OneChannel(pkg), OneChannel(pkg).channels) == Some("stable")
  {
    var channels := OneChannel(pkg).channels;
    assert channels[..0] == [];
    assert Kept(channels, {}) == Kept([], {}) + [channels[0]];
    assert ChannelTable(pkg, channels) == ChannelTable(pkg, [])[Stable(pkg) := "a"];
  }

  lemma OneLoadable(db: Db, pkg: string)
    requires "a" in db.bundles && db.deprecated == {} && HeadChain(db, "a").Some?
    ensures Loadable(db, OneChannel(pkg))
  {
    KeptOne(pkg);
    var channels := OneChannel(pkg).channels;
    assert forall c | c in channels :: c == channels[0];
    assert Insertable(db.bundles, channels);
  }

  /** Loading a package that is not there yet, given that its rows are those of the head's chain. */
  lemma LoadsOneChannel(db: Db, pkg: string, rows: map<nat, Entry>)
    requires "a" in db.bundles && db.deprecated == {} && HeadChain(db, "a").Some?
    requires forall key | key in db.channels :: key.pkg != pkg
    requires forall i | i in db.entries :: db.entries[i].key.pkg != pkg
    requires forall i | i in rows :: i !in db.entries && rows[i].key == Stable(pkg)
    requires Written(WithPackage(db, pkg, rows), Stable(pkg))
    ensures Loadable(db, OneChannel(pkg)) && Loaded(db, OneChannel(pkg), WithPackage(db, pkg, rows))
  {
    var m, db' := OneChannel(pkg), WithPackage(db, pkg, rows);
    KeptOne(pkg);
    assert ChannelsOf(db, pkg) == {};
    assert db'.channels == db.channels - ChannelsOf(db, pkg) + ChannelTable(pkg, m.channels);
    OneLoadable(db, pkg);
    RowsLoaded(db, pkg, rows);
  }

  lemma RowsLoaded(db: Db, pkg: string, rows: map<nat, Entry>)
    requires forall i | i in db.entries :: db.entries[i].key.pkg != pkg
    requires (forall i | i in rows :: i !in db.entries && rows[i].key == Stable(pkg))
    ensures var entries := WithPackage(db, pkg, rows).entries;
            && (forall i | i in db.entries :: HasRow(entries, i, db.entries[i]))
            && (forall i | i in entries ::
                  (HasRow(db.entries, i, entries[i]) && entries[i].key.pkg != pkg) || entries[i].key == Stable(pkg))
  {
  }

  // ---- A shared head ---------------------------------------------------------------------------

  const ONE_BUNDLE := AddBundleRow(EMPTY_DB, "a", Row("", []))

  ghost function LoneRow(pkg: string, id: nat): map<nat, Entry> {
    map[id := Entry(Stable(pkg), "a", None, 0)]
  }

  /** The channel of a bundle that neither replaces nor skips anything is a single row. */
  lemma LoneRowWritten(db: Db, pkg: string, id: nat)
    requires db.bundles == ONE_BUNDLE.bundles && db.deprecated == {}
    requires Stable(pkg) in db.channels && db.channels[Stable(pkg)] == "a"
    requires HasRow(db.entries, id, Entry(Stable(pkg), "a", None, 0))
    requires forall i | i in db.entries && i != id :: db.entries[i].key != Stable(pkg)
    ensures HeadChain(db, "a") == Some(["a"]) && Written(db, Stable(pkg))
  {
    assert HeadChain(db, "a") == Some(["a"]);
    var links := Links(db.bundles, ["a"]);
    assert links == [Link("a", [])];
    assert RealAt(links, 0, id) == id && RealAt(links, 1, id) == id + 1;
    assert LinkStored(db.entries, ReplacesMode, Stable(pkg), links, 0, id, 0);
    assert WrittenAt(db, Stable(pkg), "a", id);
  }

  ghost function FirstPackage(): Db {
    WithPackage(ONE_BUNDLE, "p", LoneRow("p", 1))
  }

  ghost function BothPackages(): Db {
    WithPackage(FirstPackage(), "q", LoneRow("q", 2))
  }

  lemma FirstLoads()
    ensures Reachable(FirstPackage())
  {
    LoneRowWritten(FirstPackage(), "p", 1);
    assert HeadChain(ONE_BUNDLE, "a") == Some(["a"]);
    LoadsOneChannel(ONE_BUNDLE, "p", LoneRow("p", 1));
    EmptyReachable();
    ReachableStep(EMPTY_DB, ONE_BUNDLE);
    ReachableStep(ONE_BUNDLE, FirstPackage());
  }

  lemma SecondLoads()
    ensures ReplacesStep(FirstPackage(), BothPackages())
  {
    LoneRowWritten(FirstPackage(), "p", 1);
    LoneRowWritten(BothPackages(), "q", 2);
    LoadsOneChannel(FirstPackage(), "q", LoneRow("q", 2));
  }

  lemma BothWritten()
    ensures AllChannelsWritten(BothPackages())
  {
    var db := BothPackages();
    LoneRowWritten(db, "p", 1);
    LoneRowWritten(db, "q", 2);
    assert forall key | key in db.channels :: key == Stable("p") || key == Stable("q");
  }

  lemma HeadNotSkipped()
    requires Written(BothPackages(), Stable("p"))
    ensures !HeadSkipped(BothPackages(), Stable("p"))
  {
    LoneRowWritten(BothPackages(), "p", 1);
  }

  lemma BothReachable()
    ensures Reachable(BothPackages())
  {
    FirstLoads();
    SecondLoads();
    ReachableStep(FirstPackage(), BothPackages());
  }

  lemma BothHold()
    ensures HasEntry(BothPackages(), Stable("p"), "a") && HasEntry(BothPackages(), Stable("q"), "a")
  {
    var entries := BothPackages().entries;
    assert InGroup(entries, Stable("p"), "a", 1) && InGroup(entries, Stable("q"), "a", 2);
  }

  /** Packages p and q whose channel "stable" has the same head: either may lose it in the model. */
  lemma SharedHead()
    ensures Reachable(BothPackages()) && AllChannelsWritten(BothPackages())
    ensures !HeadSkipped(BothPackages(), Stable("p"))
    ensures !AlwaysFound(BothPackages(), Stable("p")) && !AlwaysFound(BothPackages(), Stable("q"))
  {
    BothReachable();
    BothWritten();
    HeadNotSkipped();
    BothHold();
    SharedHeadMissed(BothPackages(), Stable("p"));
    SharedHeadMissed(BothPackages(), Stable("q"));
  }

  // ---- A skipped head --------------------------------------------------------------------------

  /** a replaces b, and b skips a. */
  ghost function TwoBundles(): Db {
    AddBundleRow(AddBundleRow(EMPTY_DB, "a", Row("b", [])), "b", Row("", ["a"]))
  }

  ghost function TwoBundleRows(): map<nat, Entry> {
    map[1 := Entry(Stable("p"), "a", Some(2), 0), 2 := Entry(Stable("p"), "b", None, 1),
        3 := Entry(Stable("p"), "a", None, 2), 4 := Entry(Stable("p"), "b", Some(3), 2)]
  }

  ghost function Circular(): Db {
    WithPackage(TwoBundles(), "p", TwoBundleRows())
  }

  lemma TwoBundleChain(db: Db)
    requires db.bundles == TwoBundles().bundles && db.deprecated == {}
    ensures HeadChain(db, "a") == Some(["a", "b"])
  {
    assert Chain(db.bundles, {}, "b", {"a"} + {"b"}) == Some(["b"]);
    assert ["a"] + ["b"] == ["a", "b"];
  }

  lemma TwoBundlesWritten()
    ensures Written(Circular(), Stable("p"))
  {
    var db, key := Circular(), Stable("p");
    TwoBundleChain(db);
    var links := Links(db.bundles, ["a", "b"]);
    assert links == [Link("a", []), Link("b", ["a"])];
    assert RealAt(links, 0, 1) == 1 && RealAt(links, 1, 1) == 2 && RealAt(links, 2, 1) == 5;
    assert DepthAt(ReplacesMode, links, 0, 0) == 0 && DepthAt(ReplacesMode, links, 1, 0) == 1;
    assert LinkStored(db.entries, ReplacesMode, key, links, 0, 1, 0);
    assert SkipStored(db.entries, key, links[1], 2, 1, 0);
    assert LinkStored(db.entries, ReplacesMode, key, links, 0, 1, 1);
    assert WrittenAt(db, key, "a", 1);
  }

  lemma CircularReachable()
    ensures Reachable(Circular())
  {
    var one := AddBundleRow(EMPTY_DB, "a", Row("b", []));
    TwoBundlesWritten();
    TwoBundleChain(TwoBundles());
    LoadsOneChannel(TwoBundles(), "p", TwoBundleRows());
    EmptyReachable();
    ReachableStep(EMPTY_DB, one);
    ReachableStep(one, TwoBundles());
    ReachableStep(TwoBundles(), Circular());
  }

  /** The older bundle skips the newer one: the model misses the head although nothing is shared. */
  lemma SkippedHead()
    ensures Reachable(Circular()) && AllChannelsWritten(Circular())
    ensures HeadSkipped(Circular(), Stable("p")) && !AlwaysFound(Circular(), Stable("p"))
  {
    CircularReachable();
    TwoBundlesWritten();
    assert forall key | key in Circular().channels :: key == Stable("p");
    TwoBundleChain(Circular());
    assert "b" in ChainOf(Circular(), Stable("p"));
    SkippedHeadMissed(Circular(), Stable("p"));
  }
}
