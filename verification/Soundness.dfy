/** The invariant of the index: what every committed database satisfies besides the rows' own contents. */
module Soundness {
  import opened Tables
  import opened ChannelRows
  import opened Reachability

  /** A pointer resolves inside its own channel and leads deeper or to an entry without a pointer. */
  ghost predicate PointerSound(entries: map<nat, Entry>, i: nat)
    requires i in entries
  {
    entries[i].replacesId.Some? ==>
      && entries[i].replacesId.value in entries
      && entries[entries[i].replacesId.value].key == entries[i].key
      && Deeper(entries, i)
  }

  ghost predicate IsTop(db: Db, key: ChannelKey, i: nat)
    requires key in db.channels
  {
    && i in db.entries && db.entries[i].key == key && db.entries[i].bundle == db.channels[key]
    && forall j | j in db.entries && db.entries[j].key == key && j != i :: db.entries[j].depth > db.entries[i].depth
  }

  /** The recorded head is the bundle of the channel's unique entry of minimal depth. */
  ghost predicate HeadOnTop(db: Db, key: ChannelKey)
    requires key in db.channels
  {
    exists i :: IsTop(db, key, i)
  }

  ghost predicate PointersSound(db: Db) {
    ForeignKeys(db) && forall i | i in db.entries :: PointerSound(db.entries, i)
  }

  ghost predicate Sound(db: Db) {
    && PointersSound(db)
    && (forall key | key in db.channels :: HeadOnTop(db, key))
  }

  ghost predicate NoDeprecatedHead(db: Db) {
    forall key | key in db.channels :: db.channels[key] !in db.deprecated
  }

  lemma EmptyIsSound()
    ensures Sound(EMPTY_DB) && NoDeprecatedHead(EMPTY_DB)
  {
  }

  /** Soundness depends on the bundle rows through the channel heads only. */
  lemma SoundForBundles(db: Db, bundles: map<string, BundleRow>)
    requires Sound(db) && forall key | key in db.channels :: db.channels[key] in bundles
    ensures Sound(db.(bundles := bundles))
  {
    var db' := db.(bundles := bundles);
    forall key | key in db'.channels
      ensures HeadOnTop(db', key)
    {
      assert HeadOnTop(db, key);
      var i: nat :| IsTop(db, key, i);
      assert IsTop(db', key, i);
    }
  }

  // ---- Pointer chains end ----------------------------------------------------------------------

  ghost function Pointer(db: Db): nat -> set<nat> {
    i => if i in db.entries && db.entries[i].replacesId.Some? then {db.entries[i].replacesId.value} else {}
  }

  /** Pointer chains never come back: along them the depth rises until an entry without a pointer. */
  lemma PointersAcyclic(db: Db, i: nat, j: nat)
    requires PointersSound(db) && Reaches(Pointer(db), i, j)
    ensures i != j
    ensures i in db.entries && j in db.entries && db.entries[i].key == db.entries[j].key
    ensures db.entries[i].depth < db.entries[j].depth || db.entries[j].replacesId.None?
  {
    var p :| IsPath(Pointer(db), p) && |p| >= 2 && p[0] == i && p[|p| - 1] == j;
    assert p[1] in Pointer(db)(p[0]);
    assert PointerSound(db.entries, p[0]);
    for n := 1 to |p| - 1
      invariant p[n] in db.entries && db.entries[p[n]].key == db.entries[i].key
      invariant db.entries[i].depth < db.entries[p[n]].depth || db.entries[p[n]].replacesId.None?
    {
      assert p[n + 1] in Pointer(db)(p[n]);
      assert PointerSound(db.entries, p[n]);
    }
  }
}
