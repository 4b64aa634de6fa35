// The registry database: one map per table, the SQL statements the loader issues as functions on the
// whole database, and the foreign keys declared in pkg/sqlite/migrations/004_cascade_delete.go.
module Tables {
  import opened Common
  import opened Semver

  /** A row of operatorbundle; the table is keyed by name. Empty strings stand for "none". */
  datatype BundleRow = BundleRow(path: string, version: VersionText, replacesName: string, skips: seq<string>,
                                 substitutesFor: string)

  /** The primary key of the channel table. */
  datatype ChannelKey = ChannelKey(name: string, pkg: string)

  /** A row of channel_entry; the table is keyed by entry id. */
  datatype Entry = Entry(key: ChannelKey, bundle: string, replacesId: Option<nat>, depth: nat)

  datatype Db = Db(
    bundles: map<string, BundleRow>,
    channels: map<ChannelKey, string>,        // head_operatorbundle_name
    packages: map<string, Option<string>>,    // default_channel
    entries: map<nat, Entry>,
    deprecated: set<string>)

  const EMPTY_DB := Db(map[], map[], map[], map[], {})

  // ---- Statements ------------------------------------------------------------------------------

  function AddBundleRow(db: Db, name: string, row: BundleRow): Db {
    db.(bundles := db.bundles[name := row])
  }

  function HeadedBy(db: Db, names: set<string>): set<ChannelKey> {
    set k | k in db.channels && db.channels[k] in names
  }

  function ChannelsOf(db: Db, pkg: string): set<ChannelKey> {
    set k | k in db.channels && k.pkg == pkg
  }

  predicate DefaultIn(db: Db, pkg: string, doomed: set<ChannelKey>)
    requires pkg in db.packages
  {
    db.packages[pkg].Some? && ChannelKey(db.packages[pkg].value, pkg) in doomed
  }

  /** Deleting channel rows cascades to their entries and to packages defaulting to one of them. */
  function DropChannels(db: Db, doomed: set<ChannelKey>): Db {
    db.(channels := db.channels - doomed,
        packages := map p | p in db.packages && !DefaultIn(db, p, doomed) :: db.packages[p],
        entries := map i | i in db.entries && db.entries[i].key !in doomed :: db.entries[i])
  }

  /** Deleting a bundle row cascades to the channels it heads. */
  function DeleteBundle(db: Db, name: string): Db {
    if name in db.bundles then DropChannels(db.(bundles := db.bundles - {name}), HeadedBy(db, {name})) else db
  }

  function DeleteEntriesOf(db: Db, name: string): Db {
    db.(entries := map i | i in db.entries && db.entries[i].bundle != name :: db.entries[i])
  }

  function RmBundle(db: Db, name: string): Db {
    DeleteEntriesOf(DeleteBundle(db, name), name)
  }

  predicate PointsAt(db: Db, e: Entry, name: string) {
    e.replacesId.Some? && e.replacesId.value in db.entries && db.entries[e.replacesId.value].bundle == name
  }

  /** Clears the pointers to the bundle's entries and deletes the channels it heads. */
  function RmChannelEntry(db: Db, name: string): Db {
    DropChannels(
      db.(entries := map i | i in db.entries ::
            if PointsAt(db, db.entries[i], name) then db.entries[i].(replacesId := None) else db.entries[i]),
      HeadedBy(db, {name}))
  }

  function RmPackage(db: Db, pkg: string): Db {
    var noChannels := DropChannels(db.(packages := db.packages - {pkg}), ChannelsOf(db, pkg));
    noChannels.(entries := map i | i in noChannels.entries && noChannels.entries[i].key.pkg != pkg ::
                  noChannels.entries[i])
  }

  /** Removing a package takes its own rows only. */
  lemma RmPackageEffect(db: Db, pkg: string)
    ensures RmPackage(db, pkg)
            == db.(packages := db.packages - {pkg},
                   channels := db.channels - ChannelsOf(db, pkg),
                   entries := map i | i in db.entries && db.entries[i].key.pkg != pkg :: db.entries[i])
  {
    assert RmPackage(db, pkg).packages == db.packages - {pkg};
    assert RmPackage(db, pkg).entries == map i | i in db.entries && db.entries[i].key.pkg != pkg :: db.entries[i];
  }

  function BundlesInUse(db: Db): set<string> {
    set i | i in db.entries :: db.entries[i].bundle
  }

  function RmStrandedBundles(db: Db): Db {
    var stranded := db.bundles.Keys - BundlesInUse(db);
    DropChannels(db.(bundles := db.bundles - stranded), HeadedBy(db, stranded))
  }

  // ---- Entry ids -------------------------------------------------------------------------------

  ghost predicate IsFresh(entries: map<nat, Entry>, id: nat) {
    && id >= 1
    && (forall i | i in entries :: i < id)
    && (id == 1 || id - 1 in entries)
  }

  lemma {:induction false} FreshExists(keys: set<nat>) returns (id: nat)
    ensures id >= 1 && (forall i | i in keys :: i < id) && (id == 1 || id - 1 in keys)
  {
    id := 1;
    if keys != {} {
      var k :| k in keys;
      var rest := FreshExists(keys - {k});
      id := if rest > k + 1 then rest else k + 1;
      assert forall i | i in keys :: i == k || i in keys - {k};
    }
  }

  /** The id SQLite gives the next row of an INTEGER PRIMARY KEY table: one more than the largest. */
  ghost function FreshId(entries: map<nat, Entry>): (id: nat)
    ensures IsFresh(entries, id)
  {
    assert exists id: nat :: IsFresh(entries, id) by {
      var id := FreshExists(entries.Keys);
      assert IsFresh(entries, id);
    }
    var id: nat :| IsFresh(entries, id);
    id
  }

  lemma FreshIdUnique(entries: map<nat, Entry>, id: nat)
    requires IsFresh(entries, id)
    ensures id == FreshId(entries)
  {
  }

  method NextId(entries: map<nat, Entry>) returns (id: nat)
    ensures id == FreshId(entries)
  {
    id := 1;
    var rest := entries.Keys;
    while rest != {}
      invariant rest <= entries.Keys
      invariant id >= 1 && (id == 1 || id - 1 in entries)
      invariant forall i | i in entries && i !in rest :: i < id
      decreases |rest|
    {
      var k :| k in rest;
      rest := rest - {k};
      if id <= k {
        id := k + 1;
      }
    }
    FreshIdUnique(entries, id);
  }

  // ---- Foreign keys ----------------------------------------------------------------------------

  /** The constraints checked after every statement. */
  ghost predicate ForeignKeys(db: Db) {
    && (forall i | i in db.entries :: db.entries[i].key in db.channels)
    && (forall k | k in db.channels :: db.channels[k] in db.bundles)
    && (forall p | p in db.packages :: db.packages[p].Some? ==> ChannelKey(db.packages[p].value, p) in db.channels)
  }

  /** The deferred constraint on channel_entry.replaces, checked when a transaction commits. */
  predicate PointersResolve(db: Db) {
    forall i | i in db.entries && db.entries[i].replacesId.Some? :: db.entries[i].replacesId.value in db.entries
  }
}
