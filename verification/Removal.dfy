/** Removing a package and then the bundles that are in no channel: pkg/sqlite/load.go, RemovePackage. */
module Removal {
  import opened Common
  import opened Tables
  import opened Soundness

  /** The bundles that have an entry in the package. */
  function BundlesOf(db: Db, pkg: string): set<string> {
    set i | i in db.entries && db.entries[i].key.pkg == pkg :: db.entries[i].bundle
  }

  ghost predicate EntriesWithout(db: Db, names: set<string>, channels: set<ChannelKey>, entries: map<nat, Entry>) {
    && (forall i ::
          i in entries <==> i in db.entries && db.entries[i].bundle !in names && db.entries[i].key !in channels)
    && (forall i | i in entries :: entries[i] == db.entries[i])
  }

  ghost predicate PackagesWithout(db: Db, channels: set<ChannelKey>, packages: map<string, Option<string>>) {
    && (forall p :: p in packages <==> p in db.packages && !DefaultIn(db, p, channels))
    && (forall p | p in packages :: packages[p] == db.packages[p])
  }

  /** The tables after the given bundles have been deleted, with the channels they head. */
  ghost predicate Without(db: Db, names: set<string>, tx: Db) {
    && tx.bundles == db.bundles - names && tx.deprecated == db.deprecated
    && tx.channels == db.channels - HeadedBy(db, names)
    && PackagesWithout(db, HeadedBy(db, names), tx.packages)
    && EntriesWithout(db, names, HeadedBy(db, names), tx.entries)
  }

  /** The effect of the first transaction: the package's bundles disappear from every channel of the index. */
  ghost predicate PackageRemoved(db: Db, pkg: string, db': Db) {
    var names := BundlesOf(db, pkg);
    var channels := HeadedBy(db, names) + ChannelsOf(db, pkg);
    && db'.bundles == db.bundles - names && db'.deprecated == db.deprecated
    && db'.channels == db.channels - channels
    && PackagesWithout(db.(packages := db.packages - {pkg}), channels, db'.packages)
    && EntriesWithout(db, names, channels, db'.entries)
  }

  lemma DeleteBundleEffect(tx: Db, b: string)
    requires b !in tx.bundles ==> HeadedBy(tx, {b}) == {}
    ensures var tx' := RmBundle(tx, b);
            && tx'.bundles == tx.bundles - {b} && tx'.deprecated == tx.deprecated
            && tx'.channels == tx.channels - HeadedBy(tx, {b})
            && PackagesWithout(tx, HeadedBy(tx, {b}), tx'.packages)
            && EntriesWithout(tx, {b}, HeadedBy(tx, {b}), tx'.entries)
  {
  }

  lemma HeadsGrow(db: Db, done: set<string>, tx: Db, b: string)
    requires tx.channels == db.channels - HeadedBy(db, done)
    ensures HeadedBy(db, done + {b}) == HeadedBy(db, done) + HeadedBy(tx, {b})
    ensures tx.channels - HeadedBy(tx, {b}) == db.channels - HeadedBy(db, done + {b})
  {
  }

  lemma PackagesTwice(db: Db, a: set<ChannelKey>, tx: Db, b: set<ChannelKey>, packages: map<string, Option<string>>)
    requires PackagesWithout(db, a, tx.packages) && PackagesWithout(tx, b, packages)
    ensures PackagesWithout(db, a + b, packages)
  {
  }

  lemma EntriesTwice(db: Db, names: set<string>, a: set<ChannelKey>, tx: Db, n: string, b: set<ChannelKey>,
                     entries: map<nat, Entry>)
    requires EntriesWithout(db, names, a, tx.entries) && EntriesWithout(tx, {n}, b, entries)
    ensures EntriesWithout(db, names + {n}, a + b, entries)
  {
  }

  lemma WithoutStep(db: Db, done: set<string>, tx: Db, b: string)
    requires ForeignKeys(db) && Without(db, done, tx) && b !in done
    ensures Without(db, done + {b}, RmBundle(tx, b))
  {
    DeleteBundleEffect(tx, b);
    HeadsGrow(db, done, tx, b);
    PackagesTwice(db, HeadedBy(db, done), tx, HeadedBy(tx, {b}), RmBundle(tx, b).packages);
    EntriesTwice(db, done, HeadedBy(db, done), tx, b, HeadedBy(tx, {b}), RmBundle(tx, b).entries);
  }

  method RmBundles(db: Db, names: set<string>) returns (tx: Db)
    requires ForeignKeys(db)
    ensures Without(db, names, tx)
  {
    tx := db;
    assert HeadedBy(db, {}) == {};
    var rest := names;
    ghost var done: set<string> := {};
    while rest != {}
      invariant rest <= names && done == names - rest
      invariant Without(db, done, tx)
      decreases |rest|
    {
      var b :| b in rest;
      WithoutStep(db, done, tx, b);
      tx := RmBundle(tx, b);
      rest, done := rest - {b}, done + {b};
    }
    assert done == names;
  }

  /** Deleting the package's row and channels. */
  function RmRows(tx: Db, pkg: string): Db {
    var noPackage := tx.(packages := tx.packages - {pkg});
    DropChannels(noPackage, ChannelsOf(noPackage, pkg))
  }

  lemma RowsRemoved(db: Db, pkg: string, tx: Db)
    requires Without(db, BundlesOf(db, pkg), tx)
    ensures PackageRemoved(db, pkg, RmRows(tx, pkg))
  {
    var names, db' := BundlesOf(db, pkg), RmRows(tx, pkg);
    var gone := HeadedBy(db, names);
    assert db'.channels == db.channels - (gone + ChannelsOf(db, pkg));
    assert PackagesWithout(db.(packages := db.packages - {pkg}), gone + ChannelsOf(db, pkg), db'.packages);
  }

  /** The bundle has an entry in the package. */
  ghost predicate Owned(db: Db, pkg: string, name: string) {
    exists i :: i in db.entries && db.entries[i].key.pkg == pkg && db.entries[i].bundle == name
  }

  /** A channel of the package, or one that a bundle of the package heads. */
  ghost predicate Goes(db: Db, pkg: string, key: ChannelKey) {
    key in db.channels && (key.pkg == pkg || Owned(db, pkg, db.channels[key]))
  }

  /** The package's bundles and channels are gone, with the rows that hang on them; all other rows are the same. */
  ghost predicate Cleared(db: Db, pkg: string, db': Db) {
    && db'.deprecated == db.deprecated
    && (forall n :: n in db'.bundles <==> n in db.bundles && !Owned(db, pkg, n))
    && (forall n | n in db'.bundles :: db'.bundles[n] == db.bundles[n])
    && (forall key :: key in db'.channels <==> key in db.channels && !Goes(db, pkg, key))
    && (forall key | key in db'.channels :: db'.channels[key] == db.channels[key])
    && (forall i ::
          i in db'.entries <==>
          i in db.entries && !Owned(db, pkg, db.entries[i].bundle) && !Goes(db, pkg, db.entries[i].key))
    && (forall i | i in db'.entries :: db'.entries[i] == db.entries[i])
    && (forall p ::
          p in db'.packages <==>
          && p in db.packages && p != pkg
          && (db.packages[p].Some? ==> !Goes(db, pkg, ChannelKey(db.packages[p].value, p))))
    && (forall p | p in db'.packages :: db'.packages[p] == db.packages[p])
  }

  lemma RemovedIsCleared(db: Db, pkg: string, db': Db)
    requires PackageRemoved(db, pkg, db')
    ensures Cleared(db, pkg, db')
  {
    OwnedIff(db, pkg);
  }

  lemma OwnedIff(db: Db, pkg: string)
    ensures forall n :: n in BundlesOf(db, pkg) <==> Owned(db, pkg, n)
    ensures forall key :: key in HeadedBy(db, BundlesOf(db, pkg)) + ChannelsOf(db, pkg) <==> Goes(db, pkg, key)
  {
  }

  /** An entry that stays: neither its bundle nor its channel goes with the package. */
  ghost predicate Stays(db: Db, pkg: string, e: Entry) {
    !Owned(db, pkg, e.bundle) && !Goes(db, pkg, e.key)
  }

  /** No entry that stays points at one of a bundle that the package has. */
  ghost predicate Detached(db: Db, pkg: string) {
    forall i | i in db.entries && Stays(db, pkg, db.entries[i]) && db.entries[i].replacesId.Some? ::
      db.entries[i].replacesId.value in db.entries ==>
        !Owned(db, pkg, db.entries[db.entries[i].replacesId.value].bundle)
  }

  lemma ResolvesIff(db: Db, pkg: string, db': Db)
    requires PointersSound(db) && PackageRemoved(db, pkg, db')
    ensures PointersResolve(db') <==> Detached(db, pkg)
  {
    OwnedIff(db, pkg);
    forall i | i in db.entries && Stays(db, pkg, db.entries[i]) && db.entries[i].replacesId.Some?
      ensures i in db'.entries && db'.entries[i] == db.entries[i]
      ensures var t := db.entries[i].replacesId.value;
              t in db.entries && (t in db'.entries <==> !Owned(db, pkg, db.entries[t].bundle))
    {
      assert PointerSound(db.entries, i);
    }
  }

  /** Succeeds exactly when no entry that stays points at one that goes. */
  method RemovePackage(db: Db, pkg: string) returns (db': Db, ok: bool, ghost cleared: Db)
    requires PointersSound(db)
    ensures PackageRemoved(db, pkg, cleared) && Cleared(db, pkg, cleared)
    ensures ok <==> PointersResolve(cleared)
    ensures ok <==> Detached(db, pkg)
    ensures db' == if ok then RmStrandedBundles(cleared) else db
  {
    var tx := RmBundles(db, BundlesOf(db, pkg));
    RowsRemoved(db, pkg, tx);
    RemovedIsCleared(db, pkg, RmRows(tx, pkg));
    tx := RmRows(tx, pkg);
    cleared := tx;
    ResolvesIff(db, pkg, cleared);
    if !PointersResolve(tx) {
      return db, false, tx;
    }
    return RmStrandedBundles(tx), true, tx;
  }

  // ---- The invariant is kept -------------------------------------------------------------------

  lemma RemovedForeignKeys(db: Db, pkg: string, db': Db)
    requires ForeignKeys(db) && PackageRemoved(db, pkg, db')
    ensures ForeignKeys(db')
  {
  }

  lemma RemovedHeadOnTop(db: Db, pkg: string, db': Db, key: ChannelKey)
    requires PackageRemoved(db, pkg, db') && key in db'.channels && HeadOnTop(db, key)
    ensures HeadOnTop(db', key)
  {
    var i: nat :| IsTop(db, key, i);
    assert i in db'.entries;
    assert IsTop(db', key, i);
  }

  /** The pointers stay sound, whatever the heads. */
  lemma RemovalKeepsPointers(db: Db, pkg: string, db': Db)
    requires PointersSound(db) && PackageRemoved(db, pkg, db') && PointersResolve(db')
    ensures PointersSound(db')
  {
    RemovedForeignKeys(db, pkg, db');
    forall i | i in db'.entries
      ensures PointerSound(db'.entries, i)
    {
      assert PointerSound(db.entries, i);
    }
  }

  lemma RemovalKeepsSound(db: Db, pkg: string, db': Db)
    requires Sound(db) && PackageRemoved(db, pkg, db') && PointersResolve(db')
    ensures Sound(db') && (NoDeprecatedHead(db) ==> NoDeprecatedHead(db'))
  {
    RemovalKeepsPointers(db, pkg, db');
    forall key | key in db'.channels
      ensures HeadOnTop(db', key)
    {
      RemovedHeadOnTop(db, pkg, db', key);
    }
  }

  lemma HeadsInUse(db: Db)
    requires Sound(db)
    ensures forall key | key in db.channels :: db.channels[key] in BundlesInUse(db)
  {
    forall key | key in db.channels
      ensures db.channels[key] in BundlesInUse(db)
    {
      assert HeadOnTop(db, key);
      var i: nat :| IsTop(db, key, i);
    }
  }

  /** Only bundle rows are gone, those without an entry. */
  ghost predicate Unstranded(db: Db, db': Db) {
    && db' == db.(bundles := db'.bundles)
    && (forall n ::
          n in db'.bundles <==> n in db.bundles && exists i :: i in db.entries && db.entries[i].bundle == n)
    && (forall n | n in db'.bundles :: db'.bundles[n] == db.bundles[n])
  }

  /** In a sound index only bundle rows are stranded: every head has an entry. */
  lemma StrandedRows(db: Db)
    requires Sound(db)
    ensures RmStrandedBundles(db) == db.(bundles := db.bundles - (db.bundles.Keys - BundlesInUse(db)))
  {
    HeadsInUse(db);
    var stranded := db.bundles.Keys - BundlesInUse(db);
    assert HeadedBy(db, stranded) == {};
    NothingDropped(db.(bundles := db.bundles - stranded));
  }

  lemma StrandedEffect(db: Db)
    requires Sound(db)
    ensures Unstranded(db, RmStrandedBundles(db))
  {
    StrandedRows(db);
  }

  lemma NothingDropped(db: Db)
    ensures DropChannels(db, {}) == db
  {
    var db' := DropChannels(db, {});
    assert db'.packages == db.packages && db'.entries == db.entries && db'.channels == db.channels;
  }

  /** Stranded bundles may head channels of an index whose heads are wrong; those go with their entries. */
  lemma StrandedKeepsPointers(db: Db)
    requires PointersSound(db)
    ensures PointersSound(RmStrandedBundles(db))
  {
    var db' := RmStrandedBundles(db);
    forall i | i in db'.entries
      ensures PointerSound(db'.entries, i)
    {
      assert PointerSound(db.entries, i);
    }
  }

  lemma StrandedKeepsSound(db: Db)
    requires Sound(db)
    ensures Sound(RmStrandedBundles(db)) && (NoDeprecatedHead(db) ==> NoDeprecatedHead(RmStrandedBundles(db)))
  {
    StrandedRows(db);
    HeadsInUse(db);
    SoundForBundles(db, db.bundles - (db.bundles.Keys - BundlesInUse(db)));
  }
}
