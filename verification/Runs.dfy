/** Runs of the loader: whatever operations are issued, in whatever order, the index stays sound. */
module Runs {
  import opened Tables
  import opened Soundness
  import opened ReplacesLoader
  import opened GraphStore
  import opened Upkeep
  import opened Tail
  import opened Deprecation
  import opened Removal
  import Reachability

  // ---- The effects of single operations --------------------------------------------------------

  /** AddOperatorBundle: bundle rows are added or changed, none is deleted. */
  ghost predicate BundleStep(db: Db, db': Db) {
    db' == db.(bundles := db'.bundles) && db.bundles.Keys <= db'.bundles.Keys
  }

  /** AddPackageChannels. */
  ghost predicate LoadStep(db: Db, db': Db) {
    exists m :: Loadable(db, m) && Loaded(db, m, db')
  }

  /** AddPackageChannelsFromGraph, also when it reports errors. */
  ghost predicate StoreStep(db: Db, db': Db) {
    exists g, layouts :: HeadsFit(db, g) && GraphStored(db, g, db', layouts)
  }

  /** DeprecateBundle. */
  ghost predicate DeprecateStep(db: Db, db': Db) {
    exists name, tail ::
      IsTail(db.bundles, name, tail) && !MeetsDefaultHead(db, name) && Deprecated(db, name, tail, db')
  }

  /** The first transaction of RemovePackage. */
  ghost predicate RemoveStep(db: Db, db': Db) {
    exists pkg :: PackageRemoved(db, pkg, db') && PointersResolve(db')
  }

  /** RemoveStrandedBundles. */
  ghost predicate StrandStep(db: Db, db': Db) {
    db' == RmStrandedBundles(db)
  }

  /** Any operation without the graph writer; a failed one changes nothing. */
  ghost predicate ReplacesModeStep(db: Db, db': Db) {
    || db' == db || BundleStep(db, db') || LoadStep(db, db') || DeprecateStep(db, db') || RemoveStep(db, db')
      || StrandStep(db, db')
  }

  ghost predicate Step(db: Db, db': Db) {
    ReplacesModeStep(db, db') || StoreStep(db, db')
  }

  lemma ReplacesModeStepKeeps(db: Db, db': Db)
    requires Sound(db) && ReplacesModeStep(db, db')
    ensures Sound(db')
    ensures NoDeprecatedHead(db) ==> NoDeprecatedHead(db')
  {
    if BundleStep(db, db') {
      SoundForBundles(db, db'.bundles);
    } else if LoadStep(db, db') {
      var m :| Loadable(db, m) && Loaded(db, m, db');
      LoadKeepsSound(db, m, db');
    } else if DeprecateStep(db, db') {
      var name, tail :| IsTail(db.bundles, name, tail) && !MeetsDefaultHead(db, name)
        && Deprecated(db, name, tail, db');
      DeprecationKeepsSound(db, name, tail, db');
    } else if RemoveStep(db, db') {
      var pkg :| PackageRemoved(db, pkg, db') && PointersResolve(db');
      RemovalKeepsSound(db, pkg, db');
    } else if StrandStep(db, db') {
      StrandedKeepsSound(db);
    }
  }

  lemma StepKeepsSound(db: Db, db': Db)
    requires Sound(db) && Step(db, db')
    ensures Sound(db')
  {
    if ReplacesModeStep(db, db') {
      ReplacesModeStepKeeps(db, db');
    } else {
      var g, layouts :| HeadsFit(db, g) && GraphStored(db, g, db', layouts);
      StoreKeepsSound(db, g, db', layouts);
    }
  }

  // ---- Runs ------------------------------------------------------------------------------------

  ghost predicate StepAt(dbs: seq<Db>, i: nat)
    requires i + 1 < |dbs|
  {
    Step(dbs[i], dbs[i + 1])
  }

  ghost predicate IsRun(dbs: seq<Db>) {
    |dbs| > 0 && dbs[0] == EMPTY_DB && forall i | 0 <= i < |dbs| - 1 :: StepAt(dbs, i)
  }

  /** Every database of a run is sound: heads on top, pointers inside their channel and leading deeper. */
  lemma RunIsSound(dbs: seq<Db>, n: nat)
    requires IsRun(dbs) && n < |dbs|
    ensures Sound(dbs[n])
  {
    EmptyIsSound();
    for i := 0 to n
      invariant Sound(dbs[i])
    {
      assert StepAt(dbs, i);
      StepKeepsSound(dbs[i], dbs[i + 1]);
    }
  }

  // ---- Pointers, over all stores ---------------------------------------------------------------

  /** Any operation, also the store of a graph whose heads have no bundle row. */
  ghost predicate AnyStep(db: Db, db': Db) {
    ReplacesModeStep(db, db') || exists g, layouts :: GraphStored(db, g, db', layouts)
  }

  lemma AnyStepKeepsPointers(db: Db, db': Db)
    requires PointersSound(db) && AnyStep(db, db')
    ensures PointersSound(db')
  {
    if LoadStep(db, db') {
      var m :| Loadable(db, m) && Loaded(db, m, db');
      LoadKeepsPointers(db, m, db');
    } else if DeprecateStep(db, db') {
      var name, tail :| IsTail(db.bundles, name, tail) && !MeetsDefaultHead(db, name)
        && Deprecated(db, name, tail, db');
      DeprecationKeepsPointers(db, name, tail, db');
    } else if RemoveStep(db, db') {
      var pkg :| PackageRemoved(db, pkg, db') && PointersResolve(db');
      RemovalKeepsPointers(db, pkg, db');
    } else if StrandStep(db, db') {
      StrandedKeepsPointers(db);
    } else if g, layouts :| GraphStored(db, g, db', layouts) {
      StoreKeepsPointers(db, g, db', layouts);
    }
  }

  ghost predicate AnyStepAt(dbs: seq<Db>, i: nat)
    requires i + 1 < |dbs|
  {
    AnyStep(dbs[i], dbs[i + 1])
  }

  ghost predicate IsAnyRun(dbs: seq<Db>) {
    |dbs| > 0 && dbs[0] == EMPTY_DB && forall i | 0 <= i < |dbs| - 1 :: AnyStepAt(dbs, i)
  }

  /** Whatever is stored, pointers stay inside their channel and lead deeper or to an entry without a pointer. */
  lemma RunPointersSound(dbs: seq<Db>, n: nat)
    requires IsAnyRun(dbs) && n < |dbs|
    ensures PointersSound(dbs[n])
  {
    EmptyIsSound();
    for i := 0 to n
      invariant PointersSound(dbs[i])
    {
      assert AnyStepAt(dbs, i);
      AnyStepKeepsPointers(dbs[i], dbs[i + 1]);
    }
  }

  /** Whatever is stored, no entry reaches itself along the pointers. */
  lemma RunPointersEnd(dbs: seq<Db>, n: nat, i: nat)
    requires IsAnyRun(dbs) && n < |dbs|
    ensures !Reachability.Reaches(Pointer(dbs[n]), i, i)
  {
    RunPointersSound(dbs, n);
    if Reachability.Reaches(Pointer(dbs[n]), i, i) {
      PointersAcyclic(dbs[n], i, i);
    }
  }

  // ---- Deprecated heads ------------------------------------------------------------------------

  ghost predicate ReplacesStepAt(dbs: seq<Db>, i: nat)
    requires i + 1 < |dbs|
  {
    ReplacesModeStep(dbs[i], dbs[i + 1])
  }

  /** Without the graph writer, no database of a run has a channel with a deprecated head. */
  lemma RunHeadsNotDeprecated(dbs: seq<Db>, n: nat)
    requires |dbs| > 0 && dbs[0] == EMPTY_DB && n < |dbs| && forall i | 0 <= i < |dbs| - 1 :: ReplacesStepAt(dbs, i)
    ensures Sound(dbs[n]) && NoDeprecatedHead(dbs[n])
  {
    EmptyIsSound();
    for i := 0 to n
      invariant Sound(dbs[i]) && NoDeprecatedHead(dbs[i])
    {
      assert ReplacesStepAt(dbs, i);
      ReplacesModeStepKeeps(dbs[i], dbs[i + 1]);
    }
  }
}
