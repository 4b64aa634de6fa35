/** Storing the graph of a package: pkg/sqlite/load.go, AddPackageChannelsFromGraph. */
module GraphStore {
  import opened Common
  import opened Tables
  import opened ChannelRows
  import opened EntryWriter
  import opened Graph
  import opened GraphWalk

  /**
    The errors, which are collected and reported while the transaction commits all the same: channels whose
    head is not a bundle row, channels whose graph is invalid, and a default channel without a row.
  */
  datatype Report = Report(headMissing: set<string>, invalid: set<string>, noDefault: bool) {
    predicate Clean() {
      headMissing == {} && invalid == {} && !noDefault
    }
  }

  function KeyOfChannel(g: PackageGraph, name: string): ChannelKey {
    ChannelKey(name, g.name)
  }

  predicate KeyIn(g: PackageGraph, key: ChannelKey) {
    key.pkg == g.name && key.name in g.channels
  }

  /** The channel row can be written: its head is a bundle row. */
  predicate HeadExists(db: Db, g: PackageGraph, name: string)
    requires name in g.channels
  {
    g.channels[name].head.csvName in db.bundles
  }

  // ---- Channel rows ----------------------------------------------------------------------------

  /** Channel rows after some of the graph's channels: heads that exist are written, the others keep their row. */
  ghost predicate HeadsWritten(db: Db, g: PackageGraph, done: set<string>, channels: map<ChannelKey, string>) {
    forall key :: if KeyIn(g, key) && key.name in done && HeadExists(db, g, key.name)
                  then key in channels && channels[key] == g.channels[key.name].head.csvName
                  else if key in db.channels then key in channels && channels[key] == db.channels[key]
                  else key !in channels
  }

  /** Rows of channels outside the graph are the same. */
  ghost predicate OthersKept(g: PackageGraph, entries: map<nat, Entry>, more: map<nat, Entry>) {
    && (forall i | i in entries && !KeyIn(g, entries[i].key) :: HasRow(more, i, entries[i]))
    && (forall i | i in more && !KeyIn(g, more[i].key) :: HasRow(entries, i, more[i]))
  }

  /** insert or replace: the replaced row's entries go with it; the package row has no default at this point. */
  function Upsert(tx: Db, key: ChannelKey, head: string): Db {
    var cleared := if key in tx.channels then DropChannels(tx, {key}) else tx;
    cleared.(channels := cleared.channels[key := head])
  }

  lemma UpsertEffect(tx: Db, g: PackageGraph, name: string, head: string)
    requires g.name in tx.packages && tx.packages[g.name] == None && name in g.channels
    ensures var after := Upsert(tx, KeyOfChannel(g, name), head);
            && after.bundles == tx.bundles && after.deprecated == tx.deprecated && after.packages == tx.packages
            && after.channels == tx.channels[KeyOfChannel(g, name) := head]
            && OthersKept(g, tx.entries, after.entries)
  {
    assert Upsert(tx, KeyOfChannel(g, name), head).packages == tx.packages;
  }

  /** The state after the channel rows of some of the graph's channels. */
  ghost predicate Upserted(db: Db, g: PackageGraph, done: set<string>, tx: Db, missing: set<string>) {
    && tx.bundles == db.bundles && tx.deprecated == db.deprecated && tx.packages == db.packages[g.name := None]
    && HeadsWritten(db, g, done, tx.channels)
    && OthersKept(g, db.entries, tx.entries)
    && missing == set name | name in done && name in g.channels && !HeadExists(db, g, name)
  }

  lemma UpsertedStep(db: Db, g: PackageGraph, done: set<string>, tx: Db, missing: set<string>, name: string)
    requires Upserted(db, g, done, tx, missing) && name in g.channels && name !in done
    ensures var head := g.channels[name].head.csvName;
            if head in tx.bundles then Upserted(db, g, done + {name}, Upsert(tx, KeyOfChannel(g, name), head), missing)
            else Upserted(db, g, done + {name}, tx, missing + {name})
  {
    var head := g.channels[name].head.csvName;
    if head in tx.bundles {
      UpsertEffect(tx, g, name, head);
      var after := Upsert(tx, KeyOfChannel(g, name), head);
      assert HeadsWritten(db, g, done + {name}, after.channels);
      OthersKeptTwice(g, db.entries, tx.entries, after.entries);
    }
  }

  lemma OthersKeptTwice(g: PackageGraph, a: map<nat, Entry>, b: map<nat, Entry>, c: map<nat, Entry>)
    requires OthersKept(g, a, b) && OthersKept(g, b, c)
    ensures OthersKept(g, a, c)
  {
    forall i | i in a && !KeyIn(g, a[i].key)
      ensures HasRow(c, i, a[i])
    {
      assert HasRow(b, i, a[i]);
    }
    forall i | i in c && !KeyIn(g, c[i].key)
      ensures HasRow(a, i, c[i])
    {
      assert HasRow(b, i, c[i]);
    }
  }

  method UpsertChannels(db: Db, g: PackageGraph) returns (tx: Db, missing: set<string>)
    ensures Upserted(db, g, g.channels.Keys, tx, missing)
  {
    tx, missing := db.(packages := db.packages[g.name := None]), {};
    var rest := g.channels.Keys;
    ghost var done: set<string> := {};
    while rest != {}
      invariant rest <= g.channels.Keys && done == g.channels.Keys - rest
      invariant Upserted(db, g, done, tx, missing)
      decreases |rest|
    {
      var name :| name in rest;
      UpsertedStep(db, g, done, tx, missing, name);
      rest, done := rest - {name}, done + {name};
      if g.channels[name].head.csvName in tx.bundles {
        tx := Upsert(tx, KeyOfChannel(g, name), g.channels[name].head.csvName);
      } else {
        missing := missing + {name};
      }
    }
    assert done == g.channels.Keys;
  }

  // ---- Entries ---------------------------------------------------------------------------------

  datatype GraphLayout = GraphLayout(path: seq<BundleKey>, links: seq<Link>, id: nat)

  /** The channel's rows are exactly those of a walk through its graph, from depth 1. */
  ghost predicate GraphLaid(entries: map<nat, Entry>, key: ChannelKey, c: ChannelGraph, l: GraphLayout) {
    && IsWalk(c, l.path) && LinksFor(c, l.path, l.links)
    && Stored(entries, SemverMode, key, l.links, 1, l.id)
    && forall i | i in entries :: entries[i].key == key <==> l.id <= i < RealAt(l.links, |l.links|, l.id)
  }

  lemma GraphLaidKept(entries: map<nat, Entry>, more: map<nat, Entry>, key: ChannelKey, c: ChannelGraph, l: GraphLayout)
    requires GraphLaid(entries, key, c, l) && SameRows(entries, more, key)
    ensures GraphLaid(more, key, c, l)
  {
    forall i | i in entries && l.id <= i < RealAt(l.links, |l.links|, l.id)
      ensures i in more && more[i] == entries[i]
    {
      assert HasRow(more, i, entries[i]);
    }
    StoredFrame(entries, more, SemverMode, key, l.links, 1, l.id);
    forall i | i in more
      ensures more[i].key == key <==> l.id <= i < RealAt(l.links, |l.links|, l.id)
    {
      if more[i].key == key {
        assert HasRow(entries, i, more[i]);
      }
      if l.id <= i < RealAt(l.links, |l.links|, l.id) {
        StoredLayered(more, SemverMode, key, l.links, 1, l.id, i);
      }
    }
  }

  function Truncated(entries: map<nat, Entry>, key: ChannelKey): map<nat, Entry> {
    map i | i in entries && entries[i].key != key :: entries[i]
  }

  /** Clears a channel and writes its graph; without a channel row no entry can be inserted. */
  method RewriteChannel(tx: Db, key: ChannelKey, c: ChannelGraph)
    returns (entries: map<nat, Entry>, invalid: bool, ghost l: GraphLayout)
    requires Walkable(c)
    ensures SameExcept(tx.entries, entries, key)
    ensures key in tx.channels ==> GraphLaid(entries, key, c, l) && (invalid <==> |c.nodes| != |l.path|)
    ensures key !in tx.channels ==> !invalid && forall i | i in entries :: entries[i].key != key
  {
    entries := Truncated(tx.entries, key);
    if key !in tx.channels {
      return entries, false, GraphLayout([], [], 0);
    }
    ghost var old_, path, links := entries, [], [];
    entries, invalid, path, links := WriteGraphChannel(entries, key, c);
    l := GraphLayout(path, links, FreshId(old_));
    RewrittenRows(tx.entries, old_, entries, key, l);
  }

  lemma RewrittenRows(before: map<nat, Entry>, old_: map<nat, Entry>, entries: map<nat, Entry>, key: ChannelKey,
                      l: GraphLayout)
    requires old_ == Truncated(before, key) && Building(old_, entries, SemverMode, key, l.links, 1, l.id)
    requires l.id == FreshId(old_)
    ensures SameExcept(before, entries, key)
    ensures forall i | i in entries :: entries[i].key == key <==> l.id <= i < RealAt(l.links, |l.links|, l.id)
  {
    forall i | i in before && before[i].key != key
      ensures HasRow(entries, i, before[i])
    {
      assert HasRow(entries, i, old_[i]);
    }
    forall i | i in entries
      ensures entries[i].key == key <==> l.id <= i < RealAt(l.links, |l.links|, l.id)
      ensures entries[i].key != key ==> HasRow(before, i, entries[i])
    {
      if i in old_ {
        assert HasRow(entries, i, old_[i]);
      }
    }
  }

  /** What the loop over the channels has achieved for one of them. */
  ghost predicate ChannelDone(tx: Db, entries: map<nat, Entry>, g: PackageGraph, name: string,
                              layouts: map<string, GraphLayout>)
    requires name in g.channels
  {
    var key := KeyOfChannel(g, name);
    if key in tx.channels then name in layouts && GraphLaid(entries, key, g.channels[name], layouts[name])
    else forall i | i in entries :: entries[i].key != key
  }

  ghost predicate IsInvalid(tx: Db, g: PackageGraph, name: string, layouts: map<string, GraphLayout>)
    requires name in g.channels
  {
    KeyOfChannel(g, name) in tx.channels && name in layouts && |g.channels[name].nodes| != |layouts[name].path|
  }

  lemma ChannelStaysDone(tx: Db, entries: map<nat, Entry>, more: map<nat, Entry>, g: PackageGraph, name: string,
                         other: string, layouts: map<string, GraphLayout>, l: GraphLayout)
    requires name in g.channels && name != other && ChannelDone(tx, entries, g, name, layouts)
    requires SameExcept(entries, more, KeyOfChannel(g, other))
    ensures ChannelDone(tx, more, g, name, layouts[other := l])
  {
    var key := KeyOfChannel(g, name);
    if key in tx.channels {
      GraphLaidKept(entries, more, key, g.channels[name], layouts[name]);
    } else {
      forall i | i in more
        ensures more[i].key != key
      {
        assert more[i].key != KeyOfChannel(g, other) ==> HasRow(entries, i, more[i]);
      }
    }
  }

  /** The channels rewritten so far, and which of them were reported. */
  ghost predicate Rewritten(tx: Db, entries: map<nat, Entry>, g: PackageGraph, done: set<string>,
                            layouts: map<string, GraphLayout>, invalid: set<string>)
  {
    && OthersKept(g, tx.entries, entries)
    && (forall name | name in done && name in g.channels :: ChannelDone(tx, entries, g, name, layouts))
    && (forall name | name in done && name in g.channels :: name in invalid <==> IsInvalid(tx, g, name, layouts))
    && invalid <= done
  }

  lemma RewrittenStep(tx: Db, entries: map<nat, Entry>, g: PackageGraph, done: set<string>,
                      layouts: map<string, GraphLayout>, invalid: set<string>, name: string, more: map<nat, Entry>,
                      bad: bool, l: GraphLayout)
    requires Rewritten(tx, entries, g, done, layouts, invalid) && name in g.channels && name !in done
    requires SameExcept(entries, more, KeyOfChannel(g, name))
    requires KeyOfChannel(g, name) in tx.channels ==>
               GraphLaid(more, KeyOfChannel(g, name), g.channels[name], l)
                 && (bad <==> |g.channels[name].nodes| != |l.path|)
    requires KeyOfChannel(g, name) !in tx.channels ==> !bad && forall i | i in more ::
               more[i].key != KeyOfChannel(g, name)
    ensures Rewritten(tx, more, g, done + {name}, layouts[name := l], if bad then invalid + {name} else invalid)
  {
    OthersKeptOn(g, tx.entries, entries, more, name);
    forall other | other in done && other in g.channels
      ensures ChannelDone(tx, more, g, other, layouts[name := l])
    {
      ChannelStaysDone(tx, entries, more, g, other, name, layouts, l);
    }
  }

  method WriteGraph(tx: Db, g: PackageGraph)
    returns (entries: map<nat, Entry>, invalid: set<string>, ghost layouts: map<string, GraphLayout>)
    requires forall name | name in g.channels :: Walkable(g.channels[name])
    ensures Rewritten(tx, entries, g, g.channels.Keys, layouts, invalid)
  {
    entries, invalid, layouts := tx.entries, {}, map[];
    var rest := g.channels.Keys;
    ghost var done: set<string> := {};
    while rest != {}
      invariant rest <= g.channels.Keys && done == g.channels.Keys - rest
      invariant Rewritten(tx, entries, g, done, layouts, invalid)
      decreases |rest|
    {
      var name :| name in rest;
      var more, bad;
      ghost var l;
      more, bad, l := RewriteChannel(tx.(entries := entries), KeyOfChannel(g, name), g.channels[name]);
      RewrittenStep(tx, entries, g, done, layouts, invalid, name, more, bad, l);
      entries, layouts := more, layouts[name := l];
      if bad {
        invalid := invalid + {name};
      }
      rest, done := rest - {name}, done + {name};
    }
    assert done == g.channels.Keys;
  }

  lemma OthersKeptOn(g: PackageGraph, entries: map<nat, Entry>, before: map<nat, Entry>, more: map<nat, Entry>,
                     name: string)
    requires name in g.channels && OthersKept(g, entries, before) && SameExcept(before, more, KeyOfChannel(g, name))
    ensures OthersKept(g, entries, more)
  {
    forall i | i in entries && !KeyIn(g, entries[i].key)
      ensures HasRow(more, i, entries[i])
    {
      assert HasRow(before, i, entries[i]);
      assert HasRow(more, i, before[i]);
    }
    forall i | i in more && !KeyIn(g, more[i].key)
      ensures HasRow(entries, i, more[i])
    {
      assert HasRow(before, i, more[i]);
      assert HasRow(entries, i, before[i]);
    }
  }

  // ---- The whole operation ---------------------------------------------------------------------

  /** The state after storing a graph: rows of the graph's channels are rewritten, all others stay. */
  ghost predicate GraphStored(db: Db, g: PackageGraph, db': Db, layouts: map<string, GraphLayout>) {
    && db'.bundles == db.bundles && db'.deprecated == db.deprecated
    && HeadsWritten(db, g, g.channels.Keys, db'.channels)
    && db'.packages == db.packages[g.name := if KeyOfChannel(g, g.defaultChannel) in db'.channels
                                             then Some(g.defaultChannel)
                                             else None]
    && OthersKept(g, db.entries, db'.entries)
    && forall name | name in g.channels :: ChannelDone(db', db'.entries, g, name, layouts)
  }

  ghost predicate Reports(db: Db, g: PackageGraph, db': Db, layouts: map<string, GraphLayout>, report: Report) {
    && report.headMissing == (set name | name in g.channels && !HeadExists(db, g, name))
    && report.invalid == (set name | name in g.channels && IsInvalid(db', g, name, layouts))
    && (report.noDefault <==> KeyOfChannel(g, g.defaultChannel) !in db'.channels)
  }

  method StoreGraph(db: Db, g: PackageGraph) returns (tx: Db, report: Report, ghost layouts: map<string, GraphLayout>)
    requires forall name | name in g.channels :: Walkable(g.channels[name])
    ensures GraphStored(db, g, tx, layouts) && Reports(db, g, tx, layouts, report)
  {
    var missing, entries, invalid;
    tx, missing := UpsertChannels(db, g);
    var noDefault := KeyOfChannel(g, g.defaultChannel) !in tx.channels;
    if !noDefault {
      tx := tx.(packages := tx.packages[g.name := Some(g.defaultChannel)]);
    }
    entries, invalid, layouts := WriteGraph(tx, g);
    StoredFromParts(db, g, tx, entries, layouts, invalid);
    tx := tx.(entries := entries);
    report := Report(missing, invalid, noDefault);
  }

  lemma StoredFromParts(db: Db, g: PackageGraph, tx: Db, entries: map<nat, Entry>, layouts: map<string, GraphLayout>,
                        invalid: set<string>)
    requires OthersKept(g, db.entries, tx.entries) && Rewritten(tx, entries, g, g.channels.Keys, layouts, invalid)
    ensures var db' := tx.(entries := entries);
            && OthersKept(g, db.entries, entries)
            && (forall name | name in g.channels :: ChannelDone(db', entries, g, name, layouts))
            && invalid == set name | name in g.channels && IsInvalid(db', g, name, layouts)
  {
    var db' := tx.(entries := entries);
    forall name | name in g.channels
      ensures ChannelDone(db', entries, g, name, layouts)
      ensures name in invalid <==> IsInvalid(db', g, name, layouts)
    {
      assert ChannelDone(tx, entries, g, name, layouts);
    }
    OthersKeptTwice(g, db.entries, tx.entries, entries);
  }
}
