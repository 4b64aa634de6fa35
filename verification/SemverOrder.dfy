// When a list of bundles can be added in any order, and that all orders then give the same channel graphs. The
// default channel recorded in the package row is not part of this: the last bundle to name one decides it.
module SemverOrder {
  import opened Common
  import opened Semver
  import opened Tables
  import opened Graph
  import opened Registry
  import opened GraphInsert
  import opened GraphStore
  import opened GraphLoad
  import opened SemverRuns
  import SemverSteps

  // ---- The condition ---------------------------------------------------------------------------

  /** The bundle can be added to the empty database. */
  ghost predicate Alone(b: RegistryBundle) {
    && b.name != "" && b.substitutesFor == "" && b.version.Text? && NoRepeats(b.channels)
    && if b.defaultChannel != "" then b.defaultChannel in b.channels else SelectDefaultChannel(b.channels) != ""
  }

  /** Neither bundle keeps the other out: they have different names, and different versions in a shared channel. */
  ghost predicate Together(a: RegistryBundle, b: RegistryBundle) {
    && a.name != b.name
    && forall ch | ch in a.channels && ch in b.channels && a.pkg == b.pkg && a.version.Text? && b.version.Text? ::
         Compare(a.version.version, b.version.version) != 0
  }

  ghost predicate Orderly(bs: seq<RegistryBundle>) {
    (forall b | b in bs :: Alone(b)) && forall i, j | 0 <= i < j < |bs| :: Together(bs[i], bs[j])
  }

  lemma TogetherFlip(a: RegistryBundle, b: RegistryBundle)
    requires Together(a, b)
    ensures Together(b, a)
  {
    if a.version.Text? && b.version.Text? {
      CompareFlip(a.version.version, b.version.version);
    }
  }

  /** The order of the list does not matter to the condition. */
  lemma OrderlyPermuted(bs: seq<RegistryBundle>, bs': seq<RegistryBundle>)
    requires Orderly(bs) && multiset(bs) == multiset(bs')
    ensures Orderly(bs')
  {
    forall b | b in bs'
      ensures b in bs
    {
      PermutedElements(bs, bs', b);
    }
    assert NoRepeats(bs);
    PermutedNoRepeats(bs, bs');
    forall i, j | 0 <= i < j < |bs'|
      ensures Together(bs'[i], bs'[j])
    {
      assert bs'[i] in bs && bs'[j] in bs;
      var m :| 0 <= m < |bs| && bs[m] == bs'[i];
      var n :| 0 <= n < |bs| && bs[n] == bs'[j];
      if n < m {
        TogetherFlip(bs[n], bs[m]);
      }
    }
  }

  // ---- Runs ------------------------------------------------------------------------------------

  /** A run of a loader without alpha features. */
  ghost predicate PlainRun(dbs: seq<Db>, bs: seq<RegistryBundle>) {
    Run(dbs, bs) && forall b | b in bs :: b.substitutesFor == ""
  }

  ghost predicate HasRun(bs: seq<RegistryBundle>) {
    exists dbs :: PlainRun(dbs, bs)
  }

  /** The bundle rows are those of the added bundles, and a recorded default channel exists. */
  ghost predicate Tidy(db: Db, added: set<RegistryBundle>) {
    && (forall name | name in db.bundles :: exists b :: b in added && b.name == name)
    && (forall p | p in db.packages && db.packages[p].Some? && db.packages[p].value != "" ::
          ChannelKey(db.packages[p].value, p) in db.channels)
  }

  lemma NamesKnown(db: Db, added: set<RegistryBundle>, b: RegistryBundle, db': Db)
    requires Tidy(db, added) && db'.bundles.Keys == db.bundles.Keys + {b.name}
    ensures forall name | name in db'.bundles :: exists x :: x in added + {b} && x.name == name
  {
    forall name | name in db'.bundles
      ensures exists x :: x in added + {b} && x.name == name
    {
      if name in db.bundles {
        var x :| x in added && x.name == name;
        assert x in added + {b};
      } else {
        assert b in added + {b};
      }
    }
  }

  lemma DefaultsKnown(db: Db, g: PackageGraph, db': Db, layouts: map<string, GraphLayout>)
    requires GraphStored(db, g, db', layouts)
    requires forall p | p in db.packages && db.packages[p].Some? && db.packages[p].value != "" ::
               ChannelKey(db.packages[p].value, p) in db.channels
    ensures forall p | p in db'.packages && db'.packages[p].Some? && db'.packages[p].value != "" ::
              ChannelKey(db'.packages[p].value, p) in db'.channels
  {
  }

  lemma StepKeepsTidy(db: Db, added: set<RegistryBundle>, b: RegistryBundle, db': Db)
    requires Tidy(db, added) && Step(db, b, db')
    ensures Tidy(db', added + {b})
  {
    var g, g', db1, layouts :| StepVia(db, b, g, g', db1, layouts, db');
    NamesKnown(db, added, b, db');
    DefaultsKnown(db1, g', db', layouts);
  }

  lemma AcceptedNext(db: Db, added: set<RegistryBundle>, b: RegistryBundle)
    requires Tidy(db, added) && Alone(b) && forall a | a in added :: Alone(a) && Together(a, b)
    ensures Accepted(db, added, b)
  {
    forall ch, k | ch in b.channels && k in Members(added, ChannelKey(ch, b.pkg))
      ensures !Conflicts(k, b.version.version)
    {
      var a :| a in added && a.pkg == b.pkg && ch in a.channels && NewKey(a) == k;
      assert Together(a, b);
    }
    if b.channels != [] {
      SelectsLeast(b.channels);
    }
  }

  lemma RunFurther(dbs: seq<Db>, bs: seq<RegistryBundle>, b: RegistryBundle, db': Db)
    requires PlainRun(dbs, bs) && PlainStep(dbs[|bs|], b, db')
    ensures PlainRun(dbs + [db'], bs + [b])
  {
    var longer, all := dbs + [db'], bs + [b];
    forall i | 0 <= i < |all|
      ensures StepOfRun(longer, all, i)
    {
      if i < |bs| {
        assert StepOfRun(dbs, bs, i);
      }
    }
  }

  lemma AsSetMore(bs: seq<RegistryBundle>, b: RegistryBundle)
    ensures AsSet(bs + [b]) == AsSet(bs) + {b}
  {
  }

  /** A run goes on with any bundle that is accepted. */
  lemma RunGoesOn(dbs: seq<Db>, bs: seq<RegistryBundle>, b: RegistryBundle) returns (db': Db)
    requires PlainRun(dbs, bs) && Chains(dbs[|bs|], AsSet(bs)) && Tidy(dbs[|bs|], AsSet(bs))
    requires Accepted(dbs[|bs|], AsSet(bs), b)
    ensures PlainRun(dbs + [db'], bs + [b]) && Chains(db', AsSet(bs + [b])) && Tidy(db', AsSet(bs + [b]))
  {
    db' := SemverSteps.StepExists(dbs[|bs|], AsSet(bs), b);
    StepKeepsTidy(dbs[|bs|], AsSet(bs), b, db');
    AsSetMore(bs, b);
    RunFurther(dbs, bs, b, db');
  }

  lemma OrderlyPrefix(bs: seq<RegistryBundle>, b: RegistryBundle)
    requires Orderly(bs + [b])
    ensures Orderly(bs) && Alone(b) && forall a | a in AsSet(bs) :: Alone(a) && Together(a, b)
  {
    var all := bs + [b];
    forall i, j | 0 <= i < j < |bs|
      ensures Together(bs[i], bs[j])
    {
      assert Together(all[i], all[j]);
    }
    assert forall a | a in bs :: a in all;
    assert b in all;
    forall a | a in AsSet(bs)
      ensures Alone(a) && Together(a, b)
    {
      var i :| 0 <= i < |bs| && bs[i] == a;
      assert Together(all[i], all[|bs|]);
    }
  }

  lemma {:induction false} OrderlyRuns(bs: seq<RegistryBundle>) returns (dbs: seq<Db>)
    requires Orderly(bs)
    ensures PlainRun(dbs, bs) && Chains(dbs[|bs|], AsSet(bs)) && Tidy(dbs[|bs|], AsSet(bs))
  {
    if bs == [] {
      dbs := [EMPTY_DB];
      NothingAdded();
      assert AsSet(bs) == {};
    } else {
      var n := |bs| - 1;
      assert bs == bs[..n] + [bs[n]];
      OrderlyPrefix(bs[..n], bs[n]);
      dbs := OrderlyRuns(bs[..n]);
      AcceptedNext(dbs[n], AsSet(bs[..n]), bs[n]);
      var db' := RunGoesOn(dbs, bs[..n], bs[n]);
      dbs := dbs + [db'];
    }
  }

  // ---- Necessity -------------------------------------------------------------------------------

  lemma RunPrefix(dbs: seq<Db>, bs: seq<RegistryBundle>, n: nat)
    requires PlainRun(dbs, bs) && n <= |bs|
    ensures PlainRun(dbs[..n + 1], bs[..n]) && Chains(dbs[n], AsSet(bs[..n]))
  {
    var first, some := dbs[..n + 1], bs[..n];
    forall i | 0 <= i < n
      ensures StepOfRun(first, some, i)
    {
      assert StepOfRun(dbs, bs, i);
    }
    RunKeepsChains(first, some);
  }

  lemma RunAccepts(dbs: seq<Db>, bs: seq<RegistryBundle>, n: nat)
    requires PlainRun(dbs, bs) && n < |bs|
    ensures Chains(dbs[n], AsSet(bs[..n])) && Accepted(dbs[n], AsSet(bs[..n]), bs[n])
  {
    RunPrefix(dbs, bs, n);
    assert StepOfRun(dbs, bs, n);
    SemverSteps.StepAccepted(dbs[n], AsSet(bs[..n]), bs[n], dbs[n + 1]);
  }

  lemma FirstIsAlone(bs: seq<RegistryBundle>)
    requires bs != [] && HasRun(bs)
    ensures Alone(bs[0])
  {
    var dbs :| PlainRun(dbs, bs);
    RunAccepts(dbs, bs, 0);
  }

  lemma FirstTwoTogether(bs: seq<RegistryBundle>)
    requires |bs| >= 2 && HasRun(bs)
    ensures Together(bs[0], bs[1])
  {
    var dbs :| PlainRun(dbs, bs);
    RunAccepts(dbs, bs, 1);
    var a, b, added := bs[0], bs[1], AsSet(bs[..1]);
    assert a in added && RowOf(dbs[1], a);
    forall ch | ch in a.channels && ch in b.channels && a.pkg == b.pkg && a.version.Text? && b.version.Text?
      ensures Compare(a.version.version, b.version.version) != 0
    {
      assert NewKey(a) in Members(added, ChannelKey(ch, b.pkg));
      assert NewToChannel(added, ChannelKey(ch, b.pkg), b.version.version);
    }
  }

  lemma MovedFront(bs: seq<RegistryBundle>, i: nat) returns (moved: seq<RegistryBundle>)
    requires i < |bs|
    ensures multiset(moved) == multiset(bs) && moved != [] && moved[0] == bs[i]
    ensures moved[1..] == bs[..i] + bs[i + 1..]
  {
    moved := [bs[i]] + (bs[..i] + bs[i + 1..]);
    assert bs == bs[..i] + [bs[i]] + bs[i + 1..];
  }

  lemma PairMovedFront(bs: seq<RegistryBundle>, i: nat, j: nat) returns (moved: seq<RegistryBundle>)
    requires i < j < |bs|
    ensures multiset(moved) == multiset(bs) && |moved| >= 2 && moved[0] == bs[i] && moved[1] == bs[j]
  {
    var once := MovedFront(bs, j);
    assert once[1..][i] == bs[i];
    moved := MovedFront(once, i + 1);
    assert moved[1] == moved[1..][0];
  }

  /** A list of bundles can be added in every order if and only if each can be added alone and any two together. */
  lemma AnyOrderIff(bs: seq<RegistryBundle>)
    ensures (forall bs' | multiset(bs') == multiset(bs) :: HasRun(bs')) <==> Orderly(bs)
  {
    if Orderly(bs) {
      forall bs' | multiset(bs') == multiset(bs)
        ensures HasRun(bs')
      {
        OrderlyPermuted(bs, bs');
        var dbs := OrderlyRuns(bs');
      }
    }
    if forall bs' | multiset(bs') == multiset(bs) :: HasRun(bs') {
      forall b | b in bs
        ensures Alone(b)
      {
        var i :| 0 <= i < |bs| && bs[i] == b;
        var moved := MovedFront(bs, i);
        FirstIsAlone(moved);
      }
      forall i, j | 0 <= i < j < |bs|
        ensures Together(bs[i], bs[j])
      {
        var moved := PairMovedFront(bs, i, j);
        FirstTwoTogether(moved);
      }
    }
  }

  // ---- The same graphs -------------------------------------------------------------------------

  ghost predicate Yields(dbs: seq<Db>, bs: seq<RegistryBundle>, pkg: string, g: PackageGraph) {
    PlainRun(dbs, bs) && Generates(dbs[|bs|], pkg, g)
  }

  /** Adding the bundles in the given order is possible, and however it goes it ends with the given channel graphs. */
  ghost predicate EndsWith(bs: seq<RegistryBundle>, pkg: string, channels: map<string, ChannelGraph>) {
    (exists dbs, g :: Yields(dbs, bs, pkg, g)) && forall dbs, g | Yields(dbs, bs, pkg, g) :: g.channels == channels
  }

  lemma RunEndsWith(dbs: seq<Db>, bs: seq<RegistryBundle>, pkg: string, g: PackageGraph, bs': seq<RegistryBundle>)
    requires Orderly(bs) && Yields(dbs, bs, pkg, g) && multiset(bs') == multiset(bs)
    ensures EndsWith(bs', pkg, g.channels)
  {
    forall b
      ensures b in bs <==> b in bs'
    {
      PermutedElements(bs, bs', b);
    }
    assert AsSet(bs) == AsSet(bs');
    OrderlyPermuted(bs, bs');
    var dbs' := OrderlyRuns(bs');
    var g' := SemverSteps.GenerateExists(dbs'[|bs'|], AsSet(bs'), pkg);
    assert Yields(dbs', bs', pkg, g');
    forall other, h | Yields(other, bs', pkg, h)
      ensures h.channels == g.channels
    {
      OrderIndependence(dbs, bs, other, bs', pkg, g, h);
    }
  }

  /** Every order in which an orderly list is added succeeds, and all of them give the same sorted chains. */
  lemma AnyOrderSameGraphs(bs: seq<RegistryBundle>, pkg: string) returns (channels: map<string, ChannelGraph>)
    requires Orderly(bs)
    ensures AreChains(channels, AsSet(bs), pkg)
    ensures forall bs' | multiset(bs') == multiset(bs) :: EndsWith(bs', pkg, channels)
  {
    var dbs := OrderlyRuns(bs);
    var g := SemverSteps.GenerateExists(dbs[|bs|], AsSet(bs), pkg);
    channels := g.channels;
    RunGivesChains(dbs, bs, pkg, g);
    forall bs' | multiset(bs') == multiset(bs)
      ensures EndsWith(bs', pkg, channels)
    {
      RunEndsWith(dbs, bs, pkg, g, bs');
    }
  }

  // ---- Where the order matters -----------------------------------------------------------------

  /** A bundle may name a default channel that only another bundle brings; then it cannot come first. */
  lemma SecondOnly(a: RegistryBundle, b: RegistryBundle)
    requires Alone(b) && Together(b, a) && a.pkg == b.pkg
    requires a.name != "" && a.substitutesFor == "" && a.version.Text? && NoRepeats(a.channels)
    requires a.defaultChannel != "" && a.defaultChannel !in a.channels && a.defaultChannel in b.channels
    ensures HasRun([b, a]) && !HasRun([a, b])
  {
    if HasRun([a, b]) {
      FirstIsAlone([a, b]);
    }
    var dbs := OrderlyRuns([b]);
    assert AsSet([b]) == {b};
    AcceptedSecond(dbs[1], b, a);
    var db' := RunGoesOn(dbs, [b], a);
    assert [b] + [a] == [b, a];
  }

  lemma AcceptedSecond(db: Db, b: RegistryBundle, a: RegistryBundle)
    requires Chains(db, {b}) && Tidy(db, {b}) && Alone(b) && Together(b, a) && a.pkg == b.pkg
    requires a.name != "" && a.substitutesFor == "" && a.version.Text? && NoRepeats(a.channels)
    requires a.defaultChannel != "" && a.defaultChannel in b.channels
    ensures Accepted(db, {b}, a)
  {
    forall ch, k | ch in a.channels && k in Members({b}, ChannelKey(ch, a.pkg))
      ensures !Conflicts(k, a.version.version)
    {
      assert k == NewKey(b) && ch in b.channels;
    }
    BringsChannel(db, b, a.defaultChannel);
  }

  lemma BringsChannel(db: Db, b: RegistryBundle, ch: string)
    requires Chains(db, {b}) && ch in b.channels
    ensures ChannelKey(ch, b.pkg) in db.channels
  {
    var key := ChannelKey(ch, b.pkg);
    assert NewKey(b) in Members({b}, key);
    assert ChannelHolds(db, key, Members({b}, key));
  }

  lemma OrderMatters()
    ensures var a := RegistryBundle("a.v1", "p", "img/a", Text(Version(1, 0, 0, [], [])), "", [], "", ["alpha"],
              "beta");
            var b := RegistryBundle("b.v2", "p", "img/b", Text(Version(2, 0, 0, [], [])), "", [], "", ["beta"], "");
            HasRun([b, a]) && !HasRun([a, b])
  {
    var a := RegistryBundle("a.v1", "p", "img/a", Text(Version(1, 0, 0, [], [])), "", [], "", ["alpha"], "beta");
    var b := RegistryBundle("b.v2", "p", "img/b", Text(Version(2, 0, 0, [], [])), "", [], "", ["beta"], "");
    SelectsLeast(b.channels);
    assert a.name[0] != b.name[0];
    assert a.defaultChannel[0] != a.channels[0][0];
    SecondOnly(a, b);
  }
}
