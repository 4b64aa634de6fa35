/** What a replaces-mode index says about a bundle is what the bundle declares. */
module ReadBack {
  import opened Common
  import opened Tables
  import opened ChannelRows
  import opened ReplacesLoader
  import opened ListQuery

  /** Every channel was written by a replaces-mode load from the bundle rows now in the table. */
  ghost predicate AllChannelsWritten(db: Db) {
    && (forall i | i in db.entries :: db.entries[i].key in db.channels)
    && (forall key | key in db.channels :: Written(db, key))
  }

  /** The bundles walked for the channel. */
  ghost function ChainOf(db: Db, key: ChannelKey): seq<string>
    requires Written(db, key)
  {
    HeadChain(db, db.channels[key]).value
  }

  ghost function LayoutOf(db: Db, key: ChannelKey): (layout: Layout)
    requires Written(db, key)
    ensures layout.links == Links(db.bundles, ChainOf(db, key)) && layout.gone == {}
    ensures WrittenAt(db, key, db.channels[key], layout.id)
  {
    var id: nat :| WrittenAt(db, key, db.channels[key], id);
    Layout(Links(db.bundles, ChainOf(db, key)), id, {})
  }

  ghost function Layouts(db: Db): map<ChannelKey, Layout>
    requires AllChannelsWritten(db)
  {
    map key | key in db.channels :: LayoutOf(db, key)
  }

  /** The links of a written channel: the walked bundles with their skips, then possibly one more name. */
  lemma LinkFacts(db: Db, key: ChannelKey)
    requires Written(db, key)
    ensures var chain, links := ChainOf(db, key), LayoutOf(db, key).links;
            && 0 < |chain| <= |links| && chain[0] == db.channels[key]
            && (forall n | 0 <= n < |chain| ::
                  chain[n] in db.bundles && links[n] == Link(chain[n], db.bundles[chain[n]].skips))
            && (forall n | |chain| <= n < |links| ::
                  n + 1 == |links| && links[n].skips == [] && links[n].name !in chain)
            && (forall m, n | 0 <= m < n < |links| :: links[m].name != links[n].name)
  {
    ChainFacts(db.bundles, db.deprecated, db.channels[key], {db.channels[key]});
  }

  /** Each walked bundle's successor among the links is the bundle it declares to replace. */
  lemma LinkSuccessor(db: Db, key: ChannelKey, n: nat)
    requires Written(db, key) && n < |ChainOf(db, key)|
    ensures var links, declared := LayoutOf(db, key).links, db.bundles[ChainOf(db, key)[n]].replacesName;
            && n < |links| && (n + 1 < |links| <==> declared != "")
            && (n + 1 < |links| ==> links[n + 1].name == declared)
  {
    var chain := ChainOf(db, key);
    LinkFacts(db, key);
    ChainFacts(db.bundles, db.deprecated, db.channels[key], {db.channels[key]});
    if n + 1 < |chain| {
      assert StepAt(db.bundles, db.deprecated, chain, n);
    }
  }

  lemma LaidOut(db: Db)
    requires AllChannelsWritten(db)
    ensures AllLaid(db.entries, Layouts(db))
  {
    var layouts := Layouts(db);
    forall key | key in layouts
      ensures ChannelLaid(db.entries, key, layouts[key])
    {
      LinkFacts(db, key);
      WholeLaid(db.entries, key, layouts[key].links, layouts[key].id);
    }
  }

  function Declared(text: string): Option<string> {
    if text == "" then None else Some(text)
  }

  lemma WrittenReads(db: Db, key: ChannelKey, n: nat)
    requires AllChannelsWritten(db) && key in db.channels && n < |Layouts(db)[key].links|
    ensures var links := Layouts(db)[key].links;
            && QueryReplaces(db.entries, key, links[n].name)
               == (if n + 1 < |links| then Some(links[n + 1].name) else None)
            && QuerySkips(db.entries, key, links[n].name) == multiset(links[n].skips)
  {
    LaidOut(db);
    ReplacesOfLink(db.entries, Layouts(db), key, n);
    SkipsOfLink(db.entries, Layouts(db), key, n);
    AllLeft(Layouts(db)[key].links[n].skips);
  }

  /**
    The index agrees with the declarations: in every channel the query gives each bundle of the walked chain
    exactly the replaces and the skips of its bundle row, and any other bundle neither.
  */
  lemma IndexAgreesWithDeclaration(db: Db, key: ChannelKey, name: string)
    requires AllChannelsWritten(db) && key in db.channels
    ensures name in ChainOf(db, key) ==>
              && name in db.bundles
              && QueryReplaces(db.entries, key, name) == Declared(db.bundles[name].replacesName)
              && QuerySkips(db.entries, key, name) == multiset(db.bundles[name].skips)
    ensures name !in ChainOf(db, key) ==>
              && QueryReplaces(db.entries, key, name) == None
              && QuerySkips(db.entries, key, name) == multiset{}
  {
    var links := Layouts(db)[key].links;
    LinkFacts(db, key);
    LaidOut(db);
    if n: nat :| n < |links| && links[n].name == name {
      WrittenReads(db, key, n);
      if n < |ChainOf(db, key)| {
        LinkSuccessor(db, key, n);
        assert ChainOf(db, key)[n] == name;
      }
    } else {
      NothingElse(db.entries, Layouts(db), key, name);
    }
  }

  // ---- Over runs -------------------------------------------------------------------------------

  /** A channel of another package keeps its rows through a load. */
  lemma WrittenElsewhere(db: Db, m: Manifest, db': Db, key: ChannelKey)
    requires Written(db, key) && key.pkg != m.pkg && Loaded(db, m, db') && db'.channels[key] == db.channels[key]
    requires key in db'.channels
    requires forall c | c in ChannelTable(m.pkg, Kept(m.channels, db.deprecated)) :: c.pkg == m.pkg
    ensures Written(db', key)
  {
    var links, id := LayoutOf(db, key).links, LayoutOf(db, key).id;
    forall i | i in db.entries && id <= i < RealAt(links, |links|, id)
      ensures i in db'.entries && db'.entries[i] == db.entries[i]
    {
      assert HasRow(db'.entries, i, db.entries[i]);
    }
    StoredFrame(db.entries, db'.entries, ReplacesMode, key, links, 0, id);
    forall i | i in db'.entries
      ensures db'.entries[i].key == key <==> id <= i < RealAt(links, |links|, id)
    {
      if id <= i < RealAt(links, |links|, id) {
        StoredLayered(db'.entries, ReplacesMode, key, links, 0, id, i);
      }
    }
    assert HeadChain(db', db'.channels[key]) == HeadChain(db, db.channels[key]);
    assert WrittenAt(db', key, db'.channels[key], id);
  }

  /** Which channels there are after a load. */
  lemma ChannelsAfterLoad(db: Db, m: Manifest, db': Db, key: ChannelKey)
    requires Loadable(db, m) && Loaded(db, m, db')
    ensures key.pkg != m.pkg ==> (key in db'.channels <==> key in db.channels)
    ensures key.pkg != m.pkg && key in db.channels ==> db'.channels[key] == db.channels[key]
    ensures key.pkg == m.pkg && key in db'.channels ==> Written(db', key)
    ensures key in ChannelTable(m.pkg, Kept(m.channels, db.deprecated)) ==> key.pkg == m.pkg && key in db'.channels
  {
    ChannelTableRows(m.pkg, Kept(m.channels, db.deprecated));
  }

  /** A load keeps the agreement: its own channels are written anew, the others keep their rows. */
  lemma LoadKeepsWritten(db: Db, m: Manifest, db': Db)
    requires AllChannelsWritten(db) && Loadable(db, m) && Loaded(db, m, db')
    ensures AllChannelsWritten(db')
  {
    forall key
      ensures key in ChannelTable(m.pkg, Kept(m.channels, db.deprecated)) ==> key.pkg == m.pkg && key in db'.channels
    {
      ChannelsAfterLoad(db, m, db', key);
    }
    forall i | i in db'.entries
      ensures db'.entries[i].key in db'.channels
    {
      ChannelsAfterLoad(db, m, db', db'.entries[i].key);
    }
    forall key | key in db'.channels
      ensures Written(db', key)
    {
      ChannelsAfterLoad(db, m, db', key);
      if key.pkg != m.pkg {
        WrittenElsewhere(db, m, db', key);
      }
    }
  }

  /** A successful walk does not look at rows that are added later. */
  lemma {:induction false} ChainKept(bundles: map<string, BundleRow>, more: map<string, BundleRow>,
                                     deprecated: set<string>, csv: string, seen: set<string>)
    requires forall b | b in bundles :: b in more && more[b] == bundles[b]
    requires Chain(bundles, deprecated, csv, seen).Some?
    ensures Chain(more, deprecated, csv, seen) == Chain(bundles, deprecated, csv, seen)
    decreases bundles.Keys - seen
  {
    var next := bundles[csv].replacesName;
    if next != "" && csv !in deprecated {
      ChainKept(bundles, more, deprecated, next, seen + {next});
    }
  }

  lemma AddBundleKeepsWritten(db: Db, name: string, row: BundleRow)
    requires AllChannelsWritten(db) && name !in db.bundles
    ensures AllChannelsWritten(AddBundleRow(db, name, row))
  {
    forall key | key in db.channels
      ensures Written(AddBundleRow(db, name, row), key)
    {
      AddBundleKeepsChannel(db, name, row, key);
    }
  }

  lemma AddBundleKeepsChannel(db: Db, name: string, row: BundleRow, key: ChannelKey)
    requires Written(db, key) && name !in db.bundles
    ensures Written(AddBundleRow(db, name, row), key)
  {
    var db', head, chain := AddBundleRow(db, name, row), db.channels[key], ChainOf(db, key);
    ChainKept(db.bundles, db'.bundles, db.deprecated, head, {head});
    LinkFacts(db, key);
    assert Walked(db'.bundles, chain) == Walked(db.bundles, chain);
    assert Links(db'.bundles, chain) == Links(db.bundles, chain);
    assert WrittenAt(db', key, head, LayoutOf(db, key).id);
  }

  /** One call of AddOperatorBundle or AddPackageChannels; a failing call changes nothing. */
  ghost predicate ReplacesStep(db: Db, db': Db) {
    || db' == db
    || (exists name, row :: name !in db.bundles && db' == AddBundleRow(db, name, row))
    || (exists m :: Loadable(db, m) && Loaded(db, m, db'))
  }

  /** A run of such calls from the empty database that leads to the given one. */
  ghost predicate RunTo(states: seq<Db>, db: Db) {
    && |states| > 0 && states[0] == EMPTY_DB && states[|states| - 1] == db
    && forall i | 0 <= i < |states| - 1 :: ReplacesStep(states[i], states[i + 1])
  }

  ghost predicate Reachable(db: Db) {
    exists states :: RunTo(states, db)
  }

  lemma ReachableStep(db: Db, db': Db)
    requires Reachable(db) && ReplacesStep(db, db')
    ensures Reachable(db')
  {
    var states :| RunTo(states, db);
    assert RunTo(states + [db'], db');
  }

  lemma EmptyReachable()
    ensures Reachable(EMPTY_DB)
  {
    assert RunTo([EMPTY_DB], EMPTY_DB);
  }

  /** After any run of additions and loads from the empty database the index agrees with the declarations. */
  lemma {:induction false} RunAgreesWithDeclaration(states: seq<Db>, key: ChannelKey, name: string)
    requires |states| > 0 && RunTo(states, states[|states| - 1])
    requires key in states[|states| - 1].channels
    ensures var db := states[|states| - 1];
            && AllChannelsWritten(db)
            && (if name in ChainOf(db, key) then
                  && QueryReplaces(db.entries, key, name) == Declared(db.bundles[name].replacesName)
                  && QuerySkips(db.entries, key, name) == multiset(db.bundles[name].skips)
                else
                  QueryReplaces(db.entries, key, name) == None && QuerySkips(db.entries, key, name) == multiset{})
  {
    for i := 0 to |states| - 1
      invariant AllChannelsWritten(states[i])
    {
      var db, db' := states[i], states[i + 1];
      assert ReplacesStep(db, db');
      if name, row :| name !in db.bundles && db' == AddBundleRow(db, name, row) {
        AddBundleKeepsWritten(db, name, row);
      } else if m :| Loadable(db, m) && Loaded(db, m, db') {
        LoadKeepsWritten(db, m, db');
      }
    }
    IndexAgreesWithDeclaration(states[|states| - 1], key, name);
  }
}
