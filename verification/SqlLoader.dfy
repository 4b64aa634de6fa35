/** The loader object: pkg/sqlite/load.go, sqlLoader. Each method is a transaction on the database it holds. */
module SqlLoader {
  import Common
  import opened Tables
  import opened Soundness
  import opened Registry
  import opened ReplacesLoader
  import opened Graph
  import opened GraphWalk
  import opened GraphStore
  import opened Upkeep
  import opened Tail
  import opened Substitutes
  import SubstitutionChains
  import Deprecation
  import Removal
  import Runs
  import SemverRuns
  import GraphLoad

  /** The rows right after the insert, before substitutions are sorted out. */
  function WithBundle(db: Db, b: RegistryBundle): (rows: map<string, BundleRow>)
    ensures rows.Keys == db.bundles.Keys + {b.name}
    ensures forall x | x in db.bundles && x != b.name :: rows[x] == db.bundles[x]
    ensures var row := rows[b.name];
            && row.path == b.image && row.version == b.version && row.replacesName == b.replacesName
            && row.skips == b.skips && row.substitutesFor == b.substitutesFor
  {
    AddBundleRow(db, b.name, RowFor(b)).bundles
  }

  /** The insert goes through: a new nonempty name, and no substitution unless alpha features are on. */
  predicate Accepts(db: Db, b: RegistryBundle, enableAlpha: bool) {
    b.name != "" && b.name !in db.bundles && (b.substitutesFor != "" ==> enableAlpha)
  }

  lemma NoLinksSound(rows: map<string, BundleRow>)
    requires "" !in rows && LinksOf(rows) == map[]
    ensures SubstitutionsSound(rows)
  {
    forall x, y
      ensures !SubstitutionChains.Over(LinksOf(rows), x, y)
    {
      if SubstitutionChains.Over(LinksOf(rows), x, y) {
        SubstitutionChains.FirstStep(LinksOf(rows), x, y);
      }
    }
  }

  lemma PlainInsert(db: Db, b: RegistryBundle)
    requires Accepts(db, b, false) && "" !in db.bundles && LinksOf(db.bundles) == map[]
    ensures LinksOf(WithBundle(db, b)) == map[] && SubstitutionsSound(WithBundle(db, b))
  {
    assert forall x | x in LinksOf(WithBundle(db, b)) :: x in LinksOf(db.bundles);
    NoLinksSound(WithBundle(db, b));
  }

  /** Whatever happens to the other columns, no bundle changes its path or version. */
  lemma AddedBundleKeys(db: Db, b: RegistryBundle, db': Db)
    requires Accepts(db, b, true) && db' == db.(bundles := db'.bundles)
    requires SubstitutionAdded(WithBundle(db, b), b.name, db'.bundles)
    ensures SemverRuns.BundleAdded(db, b, db')
  {
    var rows, rows' := WithBundle(db, b), db'.bundles;
    forall name | name in db.bundles
      ensures GraphLoad.KeyOfName(db', name) == GraphLoad.KeyOfName(db, name)
    {
      assert OtherAfter(rows, b.name, LinksOf(rows'), name, rows'[name]);
    }
    assert NewAfter(rows, b.name, LinksOf(rows'), rows'[b.name]);
  }

  lemma LoadCommits(db: Db, m: Manifest, tx: Db)
    requires Sound(db) && Loadable(db, m) && Loaded(db, m, tx)
    ensures Sound(tx) && PointersResolve(tx) && Runs.ReplacesModeStep(db, tx) && tx.bundles == db.bundles
  {
    LoadKeepsSound(db, m, tx);
    assert Runs.LoadStep(db, tx);
  }

  class Loader {
    var db: Db
    const enableAlpha: bool

    /** The index is sound and the substitution chains are in order; without alpha features there are none. */
    ghost predicate Valid()
      reads this
    {
      Sound(db) && SubstitutionsSound(db.bundles) && (!enableAlpha ==> LinksOf(db.bundles) == map[])
    }

    constructor (enableAlpha: bool)
      ensures Valid() && db == EMPTY_DB && this.enableAlpha == enableAlpha
    {
      db := EMPTY_DB;
      this.enableAlpha := enableAlpha;
      new;
      EmptyIsSound();
      NoLinksSound(EMPTY_DB.bundles);
    }

    method AddOperatorBundle(b: RegistryBundle) returns (ok: bool)
      requires Valid()
      requires enableAlpha && Accepts(db, b, enableAlpha) ==> Admissible(WithBundle(db, b), b.name)
      modifies this
      ensures Valid() && Runs.BundleStep(old(db), db)
      ensures ok <==>
                Accepts(old(db), b, enableAlpha) && (b.substitutesFor == "" || NoRival(WithBundle(old(db), b), b.name))
      ensures ok ==> SemverRuns.BundleAdded(old(db), b, db)
      ensures ok && enableAlpha ==> SubstitutionAdded(WithBundle(old(db), b), b.name, db.bundles)
      ensures ok && !enableAlpha ==> db.bundles == WithBundle(old(db), b)
      ensures !ok ==> db == old(db)
    {
      if !Accepts(db, b, enableAlpha) {
        return false;
      }
      var rows := WithBundle(db, b);
      if enableAlpha {
        var inserted := rows;
        rows, ok := AddSubstitutesFor(inserted, b.name);
        if !ok {
          return false;
        }
        AddedBundleKeys(db, b, db.(bundles := rows));
      } else {
        PlainInsert(db, b);
      }
      Runs.StepKeepsSound(db, db.(bundles := rows));
      db := db.(bundles := rows);
      ok := true;
    }

    method AddPackageChannels(m: Manifest) returns (ok: bool)
      requires Valid()
      modifies this
      ensures Valid() && Runs.ReplacesModeStep(old(db), db)
      ensures ok <==> Loadable(old(db), m)
      ensures ok ==> Loaded(old(db), m, db) && db.packages[m.pkg] == Common.Some(DeclaredDefault(m))
      ensures !ok ==> db == old(db)
    {
      var tx;
      tx, ok := LoadPackage(db, m);
      if ok {
        LoadCommits(db, m, tx);
        db := tx;
      }
    }

    /** Commits whatever it could write. The index stays sound exactly if the heads fit. */
    method AddPackageChannelsFromGraph(g: PackageGraph)
      returns (report: Report, ghost layouts: map<string, GraphLayout>)
      requires Valid() && forall name | name in g.channels :: Walkable(g.channels[name])
      modifies this
      ensures GraphStored(old(db), g, db, layouts) && Reports(old(db), g, db, layouts, report)
      ensures Valid() <==> HeadsFit(old(db), g)
    {
      var tx;
      tx, report, layouts := StoreGraph(db, g);
      StoreKeepsSound(db, g, tx, layouts);
      db := tx;
    }

    /** Two transactions: a failure of the second leaves the bundle row and what could be written of the graph. */
    method AddBundleSemver(g: PackageGraph, b: RegistryBundle)
      returns (added: bool, report: Report, ghost mid: Db, ghost layouts: map<string, GraphLayout>)
      requires Valid() && forall name | name in g.channels :: Walkable(g.channels[name])
      requires enableAlpha && Accepts(db, b, enableAlpha) ==> Admissible(WithBundle(db, b), b.name)
      modifies this
      ensures added <==>
                Accepts(old(db), b, enableAlpha) && (b.substitutesFor == "" || NoRival(WithBundle(old(db), b), b.name))
      ensures !added ==> Valid() && db == old(db)
      ensures added ==> SemverRuns.BundleAdded(old(db), b, mid)
      ensures added ==> GraphStored(mid, g, db, layouts) && Reports(mid, g, db, layouts, report)
      ensures added ==> (Valid() <==> HeadsFit(mid, g))
    {
      report, layouts := Report({}, {}, false), map[];
      added := AddOperatorBundle(b);
      mid := db;
      if added {
        report, layouts := AddPackageChannelsFromGraph(g);
      }
    }

    /** The image's bundle is any one with that path. */
    method DeprecateBundle(path: string) returns (ok: bool, name: string, ghost tail: set<string>)
      requires Valid()
      modifies this
      ensures Valid() && Runs.ReplacesModeStep(old(db), db)
      ensures (exists n :: n in old(db).bundles && old(db).bundles[n].path == path) ==>
                name in old(db).bundles && old(db).bundles[name].path == path && IsTail(old(db).bundles, name, tail)
      ensures ok <==> name in old(db).bundles && old(db).bundles[name].path == path &&
                      Deprecation.Deprecatable(old(db), name, tail)
      ensures ok ==> Deprecation.Deprecated(old(db), name, tail, db)
      ensures !ok ==> db == old(db)
    {
      var tx;
      tx, ok, name, tail := Deprecation.DeprecateBundle(db, path);
      if ok {
        Deprecation.DeprecationKeepsSound(db, name, tail, tx);
        FewerBundles(db, tx);
        assert Runs.DeprecateStep(db, tx);
        db := tx;
      }
    }

    lemma FewerBundles(before: Db, after: Db)
      requires SubstitutionsSound(before.bundles) && (!enableAlpha ==> LinksOf(before.bundles) == map[])
      requires after.bundles.Keys <= before.bundles.Keys
      requires forall x | x in after.bundles :: after.bundles[x] == before.bundles[x]
      ensures SubstitutionsSound(after.bundles) && (!enableAlpha ==> LinksOf(after.bundles) == map[])
    {
      DeletionKeepsSound(before.bundles, after.bundles);
      if !enableAlpha {
        assert forall x | x in LinksOf(after.bundles) :: x in LinksOf(before.bundles);
      }
    }

    /** Two transactions: the package first, then what no channel refers to any more. */
    method RemovePackage(pkg: string) returns (ok: bool, ghost cleared: Db)
      requires Valid()
      modifies this
      ensures Valid()
      ensures Removal.PackageRemoved(old(db), pkg, cleared) && Removal.Cleared(old(db), pkg, cleared)
      ensures ok <==> Removal.Detached(old(db), pkg)
      ensures ok ==> Runs.RemoveStep(old(db), cleared) && Runs.StrandStep(cleared, db)
      ensures !ok ==> db == old(db)
    {
      var tx;
      tx, ok, cleared := Removal.RemovePackage(db, pkg);
      if ok {
        Removal.RemovalKeepsSound(db, pkg, cleared);
        Removal.StrandedKeepsSound(cleared);
        Removal.StrandedRows(cleared);
        FewerBundles(db, tx);
        db := tx;
      }
    }

    method RemoveStrandedBundles()
      requires Valid()
      modifies this
      ensures Valid() && Runs.StrandStep(old(db), db)
    {
      Removal.StrandedKeepsSound(db);
      Removal.StrandedRows(db);
      FewerBundles(db, RmStrandedBundles(db));
      db := RmStrandedBundles(db);
    }
  }
}
