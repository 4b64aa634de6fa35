/** Deprecating a bundle: pkg/sqlite/load.go, DeprecateBundle. */
module Deprecation {
  import opened Common
  import opened Semver
  import opened Tables
  import opened Soundness
  import opened Tail
  import Reachability

  // ---- Exact effect ----------------------------------------------------------------------------

  ghost predicate PointsInto(entries: map<nat, Entry>, e: Entry, names: set<string>) {
    e.replacesId.Some? && e.replacesId.value in entries && entries[e.replacesId.value].bundle in names
  }

  ghost function Unpointed(entries: map<nat, Entry>, e: Entry, names: set<string>): Entry {
    if PointsInto(entries, e, names) then e.(replacesId := None) else e
  }

  /** The entry stays: its bundle is not removed and its channel is not headed by one of the given names. */
  ghost predicate Survives(db: Db, e: Entry, removed: set<string>, heads: set<string>) {
    e.bundle !in removed && (e.key in db.channels ==> db.channels[e.key] !in heads)
  }

  ghost predicate EntriesCut(db: Db, removed: set<string>, heads: set<string>, entries: map<nat, Entry>) {
    && (forall i :: i in entries <==> i in db.entries && Survives(db, db.entries[i], removed, heads))
    && (forall i | i in entries :: entries[i] == Unpointed(db.entries, db.entries[i], removed))
  }

  /** The tables after the given bundles and all channels headed by the given names are gone. */
  ghost predicate Cut(db: Db, removed: set<string>, heads: set<string>, db': Db) {
    && db'.bundles == db.bundles - removed
    && db'.channels == db.channels - HeadedBy(db, heads)
    && db'.packages == db.packages
    && EntriesCut(db, removed, heads, db'.entries)
  }

  /** The effect of deprecating a bundle whose tail is given. */
  ghost predicate Deprecated(db: Db, name: string, tail: set<string>, db': Db) {
    && Cut(db, tail, tail + {name}, db')
    && db'.deprecated == db.deprecated + {name}
  }

  // ---- One bundle of the tail ------------------------------------------------------------------

  function RmTailBundle(tx: Db, b: string): Db {
    RmBundle(RmChannelEntry(tx, b), b)
  }

  ghost predicate NoDefault(db: Db, names: set<string>) {
    forall n | n in names :: !IsDefaultHead(db, n)
  }

  lemma PackagesStay(db: Db, tx: Db, names: set<string>)
    requires NoDefault(db, names) && tx.packages == db.packages
    requires forall k | k in tx.channels :: k in db.channels && tx.channels[k] == db.channels[k]
    ensures forall p | p in tx.packages :: !DefaultIn(tx, p, HeadedBy(tx, names))
  {
    forall p | p in tx.packages && tx.packages[p].Some?
      ensures Some(tx.packages[p].value) in db.packages.Values
    {
      assert db.packages[p] in db.packages.Values;
    }
  }

  /** Both deletions together, pointwise. */
  lemma RmTailBundleEffect(tx: Db, b: string)
    requires forall p | p in tx.packages :: !DefaultIn(tx, p, HeadedBy(tx, {b}))
    ensures var tx' := RmTailBundle(tx, b);
            && tx'.bundles == tx.bundles - {b} && tx'.deprecated == tx.deprecated && tx'.packages == tx.packages
            && tx'.channels == tx.channels - HeadedBy(tx, {b})
            && (forall i ::
                  i in tx'.entries <==>
                  i in tx.entries && tx.entries[i].bundle != b && tx.entries[i].key !in HeadedBy(tx, {b}))
            && (forall i | i in tx'.entries ::
                  tx'.entries[i] == if PointsAt(tx, tx.entries[i], b)
                                    then tx.entries[i].(replacesId := None)
                                    else tx.entries[i])
  {
    var mid := RmChannelEntry(tx, b);
    assert mid.packages == tx.packages;
    assert HeadedBy(mid, {b}) == {};
    var del := DeleteBundle(mid, b);
    assert del.packages == mid.packages && del.channels == mid.channels && del.entries == mid.entries;
  }

  ghost predicate Removing(db: Db, done: set<string>, tx: Db) {
    Cut(db, done, done, tx) && tx.deprecated == db.deprecated
  }

  lemma HeadedByStep(db: Db, done: set<string>, tx: Db, b: string)
    requires tx.channels == db.channels - HeadedBy(db, done)
    ensures HeadedBy(tx, {b}) == HeadedBy(db, {b}) - HeadedBy(db, done)
    ensures tx.channels - HeadedBy(tx, {b}) == db.channels - HeadedBy(db, done + {b})
  {
  }

  /** A pointer at the next bundle's entries is still there when that bundle's turn comes. */
  lemma PointerStep(db: Db, done: set<string>, tx: Db, b: string, i: nat)
    requires PointersSound(db) && Removing(db, done, tx) && b !in done && i in tx.entries
    requires tx.entries[i].key !in HeadedBy(tx, {b})
    ensures (if PointsAt(tx, tx.entries[i], b) then tx.entries[i].(replacesId := None) else tx.entries[i])
            == Unpointed(db.entries, db.entries[i], done + {b})
  {
    var e := db.entries[i];
    assert PointerSound(db.entries, i);
    if e.replacesId.Some? && db.entries[e.replacesId.value].bundle == b {
      assert e.replacesId.value in tx.entries;
    }
  }

  lemma SurvivalStep(db: Db, done: set<string>, tx: Db, b: string, i: nat)
    requires ForeignKeys(db) && Removing(db, done, tx)
    ensures i in tx.entries && tx.entries[i].bundle != b && tx.entries[i].key !in HeadedBy(tx, {b})
            <==> i in db.entries && Survives(db, db.entries[i], done + {b}, done + {b})
  {
    if i in tx.entries {
      assert tx.entries[i].key == db.entries[i].key && tx.entries[i].bundle == db.entries[i].bundle;
    }
  }

  lemma RemovingStep(db: Db, done: set<string>, tx: Db, b: string)
    requires PointersSound(db) && Removing(db, done, tx) && b !in done && NoDefault(db, {b})
    ensures Removing(db, done + {b}, RmTailBundle(tx, b))
  {
    PackagesStay(db, tx, {b});
    RmTailBundleEffect(tx, b);
    HeadedByStep(db, done, tx, b);
    var tx' := RmTailBundle(tx, b);
    forall i: nat
      ensures i in tx'.entries <==> i in db.entries && Survives(db, db.entries[i], done + {b}, done + {b})
      ensures i in tx'.entries ==> tx'.entries[i] == Unpointed(db.entries, db.entries[i], done + {b})
    {
      SurvivalStep(db, done, tx, b, i);
      if i in tx'.entries {
        PointerStep(db, done, tx, b, i);
      }
    }
  }

  /** The loop over the tail, in any order. */
  method RmTail(db: Db, tail: set<string>) returns (tx: Db)
    requires PointersSound(db) && NoDefault(db, tail)
    ensures Removing(db, tail, tx)
  {
    tx := db;
    assert HeadedBy(db, {}) == {};
    var rest := tail;
    ghost var done: set<string> := {};
    while rest != {}
      invariant rest <= tail && done == tail - rest
      invariant Removing(db, done, tx)
      decreases |rest|
    {
      var b :| b in rest;
      RemovingStep(db, done, tx, b);
      tx := RmTailBundle(tx, b);
      rest, done := rest - {b}, done + {b};
    }
    assert done == tail;
  }

  // ---- The whole operation ---------------------------------------------------------------------

  predicate HasPath(db: Db, name: string, path: string) {
    name in db.bundles && db.bundles[name].path == path
  }

  /** The new property row refers to the bundle row, unless its version or path is empty. */
  predicate PropertyFits(db: Db, tx: Db, name: string)
    requires name in db.bundles
  {
    name in tx.bundles || db.bundles[name].version == NoVersion || db.bundles[name].path == ""
  }

  /** Nothing from the bundle downwards heads a default channel, and the bundle is not below itself. */
  ghost predicate Deprecatable(db: Db, name: string, tail: set<string>)
    requires name in db.bundles
  {
    && !MeetsDefaultHead(db, name)
    && (name !in tail || db.bundles[name].version == NoVersion || db.bundles[name].path == "")
  }

  lemma NothingDefault(db: Db, name: string, tail: set<string>)
    requires IsTail(db.bundles, name, tail) && !MeetsDefaultHead(db, name)
    ensures NoDefault(db, tail) && NoDefault(db, {name}) && NoDefault(db, tail + {name})
  {
    MeetsIff(db, name);
  }

  lemma LastHeads(db: Db, tail: set<string>, tx: Db, name: string)
    requires PointersSound(db) && Removing(db, tail, tx) && NoDefault(db, {name})
    ensures Cut(db, tail, tail + {name}, DropChannels(tx, HeadedBy(tx, {name})))
  {
    PackagesStay(db, tx, {name});
    HeadedByStep(db, tail, tx, name);
    var tx' := DropChannels(tx, HeadedBy(tx, {name}));
    assert tx'.packages == tx.packages;
    forall i: nat
      ensures i in tx'.entries <==> i in db.entries && Survives(db, db.entries[i], tail, tail + {name})
    {
      if i in tx.entries {
        assert tx.entries[i].key == db.entries[i].key;
      }
    }
  }

  /** No surviving entry points to a deleted one. */
  lemma CutResolves(db: Db, removed: set<string>, heads: set<string>, db': Db)
    requires PointersSound(db) && Cut(db, removed, heads, db')
    ensures PointersResolve(db')
  {
    forall i | i in db'.entries && db'.entries[i].replacesId.Some?
      ensures db'.entries[i].replacesId.value in db'.entries
    {
      assert PointerSound(db.entries, i);
    }
  }

  /** The image's bundle is any one with that path; without one, or on an error, nothing changes. */
  method DeprecateBundle(db: Db, path: string) returns (db': Db, ok: bool, name: string, ghost tail: set<string>)
    requires PointersSound(db)
    ensures (exists n :: n in db.bundles && db.bundles[n].path == path) ==>
              name in db.bundles && db.bundles[name].path == path && IsTail(db.bundles, name, tail)
    ensures ok <==> name in db.bundles && db.bundles[name].path == path && Deprecatable(db, name, tail)
    ensures ok ==> Deprecated(db, name, tail, db')
    ensures !ok ==> db' == db
  {
    if !(exists n :: n in db.bundles && HasPath(db, n, path)) {
      return db, false, "", {};
    }
    name :| name in db.bundles && HasPath(db, name, path);
    var found := GetTail(db, name);
    if found.None? {
      tail := TailExists(db, name);
      return db, false, name, tail;
    }
    tail := found.value;
    NothingDefault(db, name, tail);
    var tx := RmTail(db, found.value);
    LastHeads(db, found.value, tx, name);
    tx := DropChannels(tx, HeadedBy(tx, {name}));
    if !PropertyFits(db, tx, name) {
      return db, false, name, tail;
    }
    tx := tx.(deprecated := tx.deprecated + {name});
    CutResolves(db, tail, tail + {name}, tx);
    if !PointersResolve(tx) {
      return db, false, name, tail;
    }
    return tx, true, name, tail;
  }

  lemma TailExists(db: Db, name: string) returns (tail: set<string>)
    ensures IsTail(db.bundles, name, tail)
  {
    tail := set n | n in Mentioned(db.bundles) && Reachability.Reaches(Downward(db.bundles), name, n);
    forall n | Reachability.Reaches(Downward(db.bundles), name, n)
      ensures n in Mentioned(db.bundles)
    {
      var p :| Reachability.IsPath(Downward(db.bundles), p) && |p| >= 2 && p[0] == name && p[|p| - 1] == n;
      assert p[|p| - 2 + 1] in Supersedes(db.bundles, p[|p| - 2]);
    }
  }

  const STABLE := ChannelKey("stable", "p")
  const ALPHA := ChannelKey("alpha", "p")

  /** A package with the default channel "stable", headed by "a", and a channel "alpha", headed by "b". */
  const TWO_HEADS := Db(
    map["a" := BundleRow("img/a", NoVersion, "", [], ""), "b" := BundleRow("img/b", NoVersion, "", [], "")],
    map[STABLE := "a", ALPHA := "b"], map["p" := Some("stable")],
    map[1 := Entry(STABLE, "a", None, 0), 2 := Entry(ALPHA, "b", None, 0)], {})

  /** The head of a channel that is no default can be deprecated, and the channel goes with it. */
  lemma OtherHeadGoes(db': Db)
    ensures TWO_HEADS.bundles["b"].path == "img/b" && IsTail(TWO_HEADS.bundles, "b", {})
    ensures Deprecatable(TWO_HEADS, "b", {})
    ensures Deprecated(TWO_HEADS, "b", {}, db') ==>
              db'.channels == map[STABLE := "a"] && db'.deprecated == {"b"} && db'.entries.Keys == {1}
  {
    assert STABLE.name[0] != ALPHA.name[0] && "a"[0] != "b"[0];
    forall n
      ensures !Reachability.Reaches(Downward(TWO_HEADS.bundles), "b", n)
    {
      NothingBelow(TWO_HEADS.bundles, "b", n);
    }
    if Deprecated(TWO_HEADS, "b", {}, db') {
      OnlyStable(db');
    }
  }

  lemma OnlyStable(db': Db)
    requires Deprecated(TWO_HEADS, "b", {}, db')
    ensures db'.channels == map[STABLE := "a"] && db'.deprecated == {"b"} && db'.entries.Keys == {1}
  {
    assert STABLE.name[0] != ALPHA.name[0] && "a"[0] != "b"[0];
    assert HeadedBy(TWO_HEADS, {} + {"b"}) == {ALPHA};
    assert Survives(TWO_HEADS, TWO_HEADS.entries[1], {}, {} + {"b"});
    assert !Survives(TWO_HEADS, TWO_HEADS.entries[2], {}, {} + {"b"});
    assert forall i :: i in db'.entries <==> i == 1;
  }

  lemma FirstEdge(bundles: map<string, BundleRow>, p: seq<string>)
    requires Reachability.IsPath(Downward(bundles), p) && |p| >= 2
    ensures p[1] in Supersedes(bundles, p[0])
  {
    assert p[0 + 1] in Downward(bundles)(p[0]);
  }

  lemma NothingBelow(bundles: map<string, BundleRow>, name: string, n: string)
    requires Supersedes(bundles, name) == {}
    ensures !Reachability.Reaches(Downward(bundles), name, n)
  {
    if Reachability.Reaches(Downward(bundles), name, n) {
      var p :| Reachability.IsPath(Downward(bundles), p) && |p| >= 2 && p[0] == name && p[|p| - 1] == n;
      FirstEdge(bundles, p);
    }
  }

  // ---- The invariant is kept -------------------------------------------------------------------

  lemma CutHeadOnTop(db: Db, removed: set<string>, heads: set<string>, db': Db, key: ChannelKey)
    requires Cut(db, removed, heads, db') && removed <= heads && key in db'.channels && HeadOnTop(db, key)
    ensures HeadOnTop(db', key)
  {
    var i: nat :| IsTop(db, key, i);
    assert Survives(db, db.entries[i], removed, heads);
    forall j | j in db'.entries && db'.entries[j].key == key && j != i
      ensures db'.entries[j].depth > db'.entries[i].depth
    {
      assert db.entries[j].key == key;
    }
    assert IsTop(db', key, i);
  }

  lemma CutPointerSound(db: Db, removed: set<string>, heads: set<string>, db': Db, i: nat)
    requires PointersSound(db) && Cut(db, removed, heads, db') && i in db'.entries
    ensures PointerSound(db'.entries, i)
  {
    assert PointerSound(db.entries, i);
    if db'.entries[i].replacesId.Some? {
      var t := db.entries[i].replacesId.value;
      assert t in db'.entries;
    }
  }

  lemma CutForeignKeys(db: Db, removed: set<string>, heads: set<string>, db': Db)
    requires ForeignKeys(db) && Cut(db, removed, heads, db') && removed <= heads && NoDefault(db, heads)
    ensures ForeignKeys(db')
  {
    forall p | p in db'.packages && db'.packages[p].Some?
      ensures ChannelKey(db'.packages[p].value, p) in db'.channels
    {
      var key := ChannelKey(db.packages[p].value, p);
      assert key in db.channels && db.packages[p] in db.packages.Values;
      assert IsDefaultHead(db, db.channels[key]);
    }
  }

  /** The pointers stay sound, whatever the heads. */
  lemma DeprecationKeepsPointers(db: Db, name: string, tail: set<string>, db': Db)
    requires PointersSound(db) && Deprecated(db, name, tail, db') && IsTail(db.bundles, name, tail)
    requires !MeetsDefaultHead(db, name)
    ensures PointersSound(db')
  {
    var heads := tail + {name};
    NothingDefault(db, name, tail);
    CutForeignKeys(db, tail, heads, db');
    forall i | i in db'.entries
      ensures PointerSound(db'.entries, i)
    {
      CutPointerSound(db, tail, heads, db', i);
    }
  }

  /** Deprecation keeps the index sound and heads no channel with a deprecated bundle. */
  lemma DeprecationKeepsSound(db: Db, name: string, tail: set<string>, db': Db)
    requires Sound(db) && Deprecated(db, name, tail, db') && IsTail(db.bundles, name, tail)
    requires !MeetsDefaultHead(db, name)
    ensures Sound(db')
    ensures NoDeprecatedHead(db) ==> NoDeprecatedHead(db')
  {
    var heads := tail + {name};
    DeprecationKeepsPointers(db, name, tail, db');
    forall key | key in db'.channels
      ensures HeadOnTop(db', key)
    {
      CutHeadOnTop(db, tail, heads, db', key);
    }
  }
}
