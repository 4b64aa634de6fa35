// What the index says about a bundle after any run of replaces-mode calls, deprecations and removals included: what the
// bundle declares, as far as the channel still has entries for it.
module IndexRuns {
  import opened Common
  import opened Tables
  import opened ChannelRows
  import opened Soundness
  import opened ReplacesLoader
  import opened ListQuery
  import opened ReadBack
  import opened Tail
  import opened Deprecation
  import opened Removal
  import Runs
  import Upkeep
  import Reachability

  // ---- What a channel's rows remember ----------------------------------------------------------

  /** The link has the skips its bundle declares, and the next link is the bundle it declares to replace. */
  ghost predicate Declares(db: Db, links: seq<Link>, n: nat)
    requires n < |links|
  {
    && links[n].name in db.bundles && links[n].skips == db.bundles[links[n].name].skips
    && Declared(db.bundles[links[n].name].replacesName) == if n + 1 < |links| then Some(links[n + 1].name) else None
  }

  /** What a bundle that is gone skips is gone too. */
  ghost predicate SkipsGone(layout: Layout) {
    forall n, name | 0 <= n < |layout.links| && layout.links[n].name in layout.gone && name in layout.links[n].skips ::
      name in layout.gone
  }

  /** The first links are of walked bundles; behind a deprecated one there may be one more. */
  ghost predicate Traces(db: Db, key: ChannelKey, layout: Layout, walked: nat) {
    && ChannelLaid(db.entries, key, layout) && SkipsGone(layout)
    && key in db.channels && layout.links[0].name == db.channels[key]
    && 0 < walked <= |layout.links| <= walked + 1
    && (forall n {:trigger Declares(db, layout.links, n)} | 0 <= n < walked && layout.links[n].name !in layout.gone ::
          Declares(db, layout.links, n))
    && (walked < |layout.links| ==> layout.links[walked].skips == [] && layout.links[walked - 1].name in db.deprecated)
  }

  ghost predicate IsTraced(db: Db, key: ChannelKey) {
    exists layout, walked: nat :: Traces(db, key, layout, walked)
  }

  ghost predicate Traced(db: Db) {
    && (forall i | i in db.entries :: db.entries[i].key in db.channels)
    && (forall key | key in db.channels :: IsTraced(db, key))
  }

  lemma WrittenTraces(db: Db, key: ChannelKey)
    requires Written(db, key)
    ensures Traces(db, key, LayoutOf(db, key), |ChainOf(db, key)|)
  {
    var layout, chain := LayoutOf(db, key), ChainOf(db, key);
    LinkFacts(db, key);
    WholeLaid(db.entries, key, layout.links, layout.id);
    ChainFacts(db.bundles, db.deprecated, db.channels[key], {db.channels[key]});
    forall n | 0 <= n < |chain|
      ensures Declares(db, layout.links, n)
    {
      LinkSuccessor(db, key, n);
    }
  }

  lemma GoneHasNone(db: Db, key: ChannelKey, layout: Layout, name: string)
    requires ChannelLaid(db.entries, key, layout) && name in layout.gone
    ensures !HasEntry(db, key, name)
  {
    if i: nat :| InGroup(db.entries, key, name, i) {
      var place := PlaceOfEntry(db.entries, key, layout, i);
    }
  }

  // ---- Calls that leave the channel's rows alone -----------------------------------------------

  /** The channel, its rows and the rows of its bundles are as they were. */
  ghost predicate Untouched(db: Db, db': Db, key: ChannelKey) {
    && key in db.channels && key in db'.channels && db'.channels[key] == db.channels[key]
    && SameRows(db.entries, db'.entries, key) && db.deprecated <= db'.deprecated
    && (forall name | name in db.bundles && HasEntry(db, key, name) ::
          name in db'.bundles && db'.bundles[name] == db.bundles[name])
  }

  lemma LaidFrame(entries: Entries, more: Entries, key: ChannelKey, layout: Layout)
    requires ChannelLaid(entries, key, layout) && SameRows(entries, more, key)
    ensures ChannelLaid(more, key, layout)
  {
    forall place | IsKept(layout, place)
      ensures HasRow(more, PlaceId(layout, place), PlaceRow(key, layout, place))
    {
      EntryAtPlace(entries, key, layout, place);
    }
    forall i | i in more && more[i].key == key
      ensures exists place :: IsAt(layout, place, i)
    {
      assert HasRow(entries, i, more[i]);
    }
  }

  lemma UntouchedTraced(db: Db, db': Db, key: ChannelKey)
    requires IsTraced(db, key) && Untouched(db, db', key)
    ensures IsTraced(db', key)
  {
    var layout, walked: nat :| Traces(db, key, layout, walked);
    LaidFrame(db.entries, db'.entries, key, layout);
    forall n | 0 <= n < walked && layout.links[n].name !in layout.gone
      ensures Declares(db', layout.links, n)
    {
      assert Declares(db, layout.links, n);
      LinkHasEntry(db, key, layout, Real(n));
    }
    assert Traces(db', key, layout, walked);
  }

  /** Only bundle rows change, and none of a bundle with an entry. */
  lemma RowsLeave(db: Db, bundles: map<string, BundleRow>, key: ChannelKey)
    requires key in db.channels
    requires forall name | name in db.bundles && name in BundlesInUse(db) ::
               name in bundles && bundles[name] == db.bundles[name]
    ensures Untouched(db, db.(bundles := bundles), key)
  {
    forall name | name in db.bundles && HasEntry(db, key, name)
      ensures name in BundlesInUse(db)
    {
      var i: nat :| InGroup(db.entries, key, name, i);
    }
    SameRowsKept(db.entries, key);
  }

  lemma SameRowsKept(entries: Entries, key: ChannelKey)
    ensures SameRows(entries, entries, key)
  {
  }

  lemma RowsKeepTraced(db: Db, bundles: map<string, BundleRow>)
    requires Traced(db)
    requires forall name | name in db.bundles && name in BundlesInUse(db) ::
               name in bundles && bundles[name] == db.bundles[name]
    ensures Traced(db.(bundles := bundles))
  {
    forall key | key in db.channels
      ensures IsTraced(db.(bundles := bundles), key)
    {
      RowsLeave(db, bundles, key);
      UntouchedTraced(db, db.(bundles := bundles), key);
    }
  }

  lemma AddKeepsTraced(db: Db, name: string, row: BundleRow)
    requires Traced(db) && name !in db.bundles
    ensures Traced(AddBundleRow(db, name, row))
  {
    RowsKeepTraced(db, db.bundles[name := row]);
  }

  lemma StrandKeepsTraced(db: Db)
    requires Sound(db) && Traced(db)
    ensures Traced(RmStrandedBundles(db))
  {
    StrandedRows(db);
    RowsKeepTraced(db, db.bundles - (db.bundles.Keys - BundlesInUse(db)));
  }

  lemma LoadLeaves(db: Db, m: Manifest, db': Db, key: ChannelKey)
    requires Loadable(db, m) && Loaded(db, m, db') && key in db'.channels && key.pkg != m.pkg
    ensures Untouched(db, db', key)
  {
    Upkeep.LoadedOthers(db, m, db', key);
  }

  lemma LoadKeepsTraced(db: Db, m: Manifest, db': Db)
    requires Traced(db) && Loadable(db, m) && Loaded(db, m, db')
    ensures Traced(db')
  {
    forall i | i in db'.entries
      ensures db'.entries[i].key in db'.channels
    {
      ChannelsAfterLoad(db, m, db', db'.entries[i].key);
    }
    forall key | key in db'.channels
      ensures IsTraced(db', key)
    {
      ChannelsAfterLoad(db, m, db', key);
      if key.pkg == m.pkg {
        WrittenTraces(db', key);
      } else {
        LoadLeaves(db, m, db', key);
        UntouchedTraced(db, db', key);
      }
    }
  }

  // ---- Removing a package ----------------------------------------------------------------------

  /** A row that stays keeps its target from being removed, since the removal leaves no pointer unresolved. */
  lemma TargetStays(db: Db, pkg: string, db': Db, key: ChannelKey, layout: Layout, place: Place, to: Place)
    requires PackageRemoved(db, pkg, db') && PointersResolve(db') && key in db'.channels
    requires ChannelLaid(db.entries, key, layout) && IsKept(layout, place) && IsKept(layout, to)
    requires PlaceRow(key, layout, place).replacesId == Some(PlaceId(layout, to))
    requires NameAt(layout.links, place) !in BundlesOf(db, pkg)
    ensures NameAt(layout.links, to) !in BundlesOf(db, pkg)
  {
    EntryAtPlace(db.entries, key, layout, place);
    EntryAtPlace(db.entries, key, layout, to);
    assert PlaceId(layout, place) in db'.entries;
    assert db'.entries[PlaceId(layout, place)].replacesId.value in db'.entries;
  }

  lemma {:induction false} LinkStays(db: Db, pkg: string, db': Db, key: ChannelKey, layout: Layout, n: nat)
    requires PackageRemoved(db, pkg, db') && PointersResolve(db') && key in db.channels && key in db'.channels
    requires ChannelLaid(db.entries, key, layout) && IsKept(layout, Real(n)) && layout.links[0].name == db.channels[key]
    ensures NameAt(layout.links, Real(n)) !in BundlesOf(db, pkg)
  {
    if n > 0 {
      NextRow(key, layout, n - 1);
      LinkStays(db, pkg, db', key, layout, n - 1);
      TargetStays(db, pkg, db', key, layout, Real(n - 1), Real(n));
    }
  }

  /** The row of a skipped bundle that is there is pointed at. */
  lemma SkippingKept(key: ChannelKey, layout: Layout, n: nat, j: nat)
    requires SkipsGone(layout) && IsKept(layout, Dummy(n, j))
    ensures IsKept(layout, Real(n)) && IsKept(layout, Extra(n, j))
    ensures PlaceRow(key, layout, Extra(n, j)).replacesId == Some(PlaceId(layout, Dummy(n, j)))
  {
    assert layout.links[n].skips[j] in layout.links[n].skips;
  }

  lemma PlaceStays(db: Db, pkg: string, db': Db, key: ChannelKey, layout: Layout, place: Place)
    requires PackageRemoved(db, pkg, db') && PointersResolve(db') && key in db.channels && key in db'.channels
    requires ChannelLaid(db.entries, key, layout) && SkipsGone(layout) && layout.links[0].name == db.channels[key]
    requires IsKept(layout, place)
    ensures NameAt(layout.links, place) !in BundlesOf(db, pkg)
  {
    if place.Dummy? {
      SkippingKept(key, layout, place.n, place.j);
      LinkStays(db, pkg, db', key, layout, place.n);
      TargetStays(db, pkg, db', key, layout, Extra(place.n, place.j), place);
    } else {
      LinkStays(db, pkg, db', key, layout, place.n);
    }
  }

  /** A channel that survives the removal of a package loses none of its rows. */
  lemma EntryStays(db: Db, pkg: string, db': Db, key: ChannelKey, i: nat)
    requires IsTraced(db, key) && PackageRemoved(db, pkg, db') && PointersResolve(db') && key in db'.channels
    requires i in db.entries && db.entries[i].key == key
    ensures db.entries[i].bundle !in BundlesOf(db, pkg)
  {
    var layout, walked: nat :| Traces(db, key, layout, walked);
    var place := PlaceOfEntry(db.entries, key, layout, i);
    PlaceStays(db, pkg, db', key, layout, place);
  }

  lemma RemovalLeaves(db: Db, pkg: string, db': Db, key: ChannelKey)
    requires IsTraced(db, key) && PackageRemoved(db, pkg, db') && PointersResolve(db') && key in db'.channels
    ensures Untouched(db, db', key)
  {
    forall i | i in db.entries && db.entries[i].key == key
      ensures HasRow(db'.entries, i, db.entries[i])
    {
      EntryStays(db, pkg, db', key, i);
    }
    forall name | name in db.bundles && HasEntry(db, key, name)
      ensures name !in BundlesOf(db, pkg)
    {
      var i: nat :| InGroup(db.entries, key, name, i);
      EntryStays(db, pkg, db', key, i);
    }
  }

  lemma RemovalKeepsTraced(db: Db, pkg: string, db': Db)
    requires Traced(db) && PackageRemoved(db, pkg, db') && PointersResolve(db')
    ensures Traced(db')
  {
    forall key | key in db'.channels
      ensures IsTraced(db', key)
    {
      RemovalLeaves(db, pkg, db', key);
      UntouchedTraced(db, db', key);
    }
  }

  // ---- Deprecating a bundle --------------------------------------------------------------------

  ghost function Cutting(layout: Layout, tail: set<string>): Layout {
    layout.(gone := layout.gone + tail)
  }

  /** The row with its pointer cleared if that leads into the tail. */
  lemma CutRow(entries: Entries, key: ChannelKey, layout: Layout, tail: set<string>, place: Place)
    requires ChannelLaid(entries, key, layout) && IsKept(layout, place)
    ensures PlaceRow(key, Cutting(layout, tail), place) == Unpointed(entries, PlaceRow(key, layout, place), tail)
  {
    if PlaceRow(key, layout, place).replacesId.Some? {
      var to := TargetPlace(key, layout, place);
      EntryAtPlace(entries, key, layout, to);
      UnlinkedIff(key, layout, tail, place, to);
    }
  }

  lemma UnlinkedIff(key: ChannelKey, layout: Layout, tail: set<string>, place: Place, to: Place)
    requires IsKept(layout, place) && IsKept(layout, to)
    requires PlaceRow(key, layout, place).replacesId == Some(PlaceId(layout, to))
    ensures Unlinked(Cutting(layout, tail), place) <==> NameAt(layout.links, to) in tail
  {
    var at := if place.Real? then Real(place.n + 1) else Dummy(place.n, place.j);
    PlacesDistinct(layout.links, layout.id, at, to);
  }

  /** A bundle below one of the tail is in the tail. */
  lemma TailHolds(bundles: map<string, BundleRow>, head: string, tail: set<string>, name: string, below: string)
    requires IsTail(bundles, head, tail) && name in tail && below in Supersedes(bundles, name)
    ensures below in tail
  {
    Reachability.ReachesOneMore(Downward(bundles), head, name, below);
  }

  lemma GoneNext(db: Db, key: ChannelKey, layout: Layout, walked: nat, head: string, tail: set<string>, n: nat)
    requires Traces(db, key, layout, walked) && IsTail(db.bundles, head, tail)
    requires n < |layout.links| && layout.links[n].name in layout.gone + tail
    ensures n + 1 < |layout.links| ==> layout.links[n + 1].name in layout.gone + tail
    ensures forall name | name in layout.links[n].skips :: name in layout.gone + tail
  {
    if layout.links[n].name !in layout.gone && n < walked {
      assert Declares(db, layout.links, n);
      forall below | below in Supersedes(db.bundles, layout.links[n].name)
        ensures below in tail
      {
        TailHolds(db.bundles, head, tail, layout.links[n].name, below);
      }
    }
  }

  lemma {:induction false} GoneFrom(db: Db, key: ChannelKey, layout: Layout, walked: nat, head: string,
                                    tail: set<string>, m: nat, n: nat)
    requires Traces(db, key, layout, walked) && IsTail(db.bundles, head, tail)
    requires m < n < |layout.links| && layout.links[m].name in layout.gone + tail
    ensures layout.links[n].name in layout.gone + tail
  {
    if m + 1 < n {
      GoneFrom(db, key, layout, walked, head, tail, m, n - 1);
    }
    GoneNext(db, key, layout, walked, head, tail, n - 1);
  }

  lemma CutLaid(db: Db, key: ChannelKey, layout: Layout, head: string, tail: set<string>, db': Db)
    requires ChannelLaid(db.entries, key, layout) && GoneBelow(Cutting(layout, tail))
    requires key in db.channels && layout.links[0].name == db.channels[key]
    requires Deprecated(db, head, tail, db') && key in db'.channels
    ensures ChannelLaid(db'.entries, key, Cutting(layout, tail))
  {
    var cut := Cutting(layout, tail);
    forall place | IsKept(cut, place)
      ensures HasRow(db'.entries, PlaceId(cut, place), PlaceRow(key, cut, place))
    {
      assert IsKept(layout, place) && PlaceId(cut, place) == PlaceId(layout, place);
      EntryAtPlace(db.entries, key, layout, place);
      CutRow(db.entries, key, layout, tail, place);
    }
    forall i | i in db'.entries && db'.entries[i].key == key
      ensures exists place :: IsAt(cut, place, i)
    {
      var place := PlaceOfEntry(db.entries, key, layout, i);
      assert IsAt(cut, place, i);
    }
  }

  /** In a surviving channel the rows of the tail are gone, and nothing else. */
  lemma CutTraces(db: Db, key: ChannelKey, layout: Layout, walked: nat, head: string, tail: set<string>, db': Db)
    requires Traces(db, key, layout, walked) && IsTail(db.bundles, head, tail)
    requires Deprecated(db, head, tail, db') && key in db'.channels
    ensures Traces(db', key, Cutting(layout, tail), walked)
  {
    var cut := Cutting(layout, tail);
    forall m, n | 0 <= m < n < |cut.links| && cut.links[m].name in cut.gone
      ensures cut.links[n].name in cut.gone
    {
      GoneFrom(db, key, layout, walked, head, tail, m, n);
    }
    forall n, name | 0 <= n < |cut.links| && cut.links[n].name in cut.gone && name in cut.links[n].skips
      ensures name in cut.gone
    {
      GoneNext(db, key, layout, walked, head, tail, n);
    }
    CutLaid(db, key, layout, head, tail, db');
    forall n | 0 <= n < walked && cut.links[n].name !in cut.gone
      ensures Declares(db', cut.links, n)
    {
      assert Declares(db, layout.links, n);
    }
  }

  lemma DeprecationKeepsTraced(db: Db, head: string, tail: set<string>, db': Db)
    requires Traced(db) && IsTail(db.bundles, head, tail) && Deprecated(db, head, tail, db')
    ensures Traced(db')
  {
    forall i | i in db'.entries
      ensures db'.entries[i].key in db'.channels
    {
      assert db'.entries[i].key == db.entries[i].key;
    }
    forall key | key in db'.channels
      ensures IsTraced(db', key)
    {
      assert IsTraced(db, key);
      var layout, walked: nat :| Traces(db, key, layout, walked);
      CutTraces(db, key, layout, walked, head, tail, db');
    }
  }

  // ---- What the query gives --------------------------------------------------------------------

  ghost function LayoutFor(db: Db, key: ChannelKey): (layout: Layout)
    requires IsTraced(db, key)
    ensures exists walked: nat :: Traces(db, key, layout, walked)
  {
    var layout, walked: nat :| Traces(db, key, layout, walked);
    layout
  }

  lemma TracedLaid(db: Db, key: ChannelKey, layout: Layout, walked: nat) returns (layouts: map<ChannelKey, Layout>)
    requires Traced(db) && Traces(db, key, layout, walked)
    ensures AllLaid(db.entries, layouts) && key in layouts && layouts[key] == layout
  {
    layouts := (map k | k in db.channels :: LayoutFor(db, k))[key := layout];
    forall k | k in layouts
      ensures ChannelLaid(db.entries, k, layouts[k])
    {
      if k != key {
        var w: nat :| Traces(db, k, layouts[k], w);
      }
    }
  }

  /** What a walked bundle's row declares, without the names that are gone. */
  ghost predicate ReadsAs(db: Db, key: ChannelKey, name: string, row: BundleRow, gone: set<string>) {
    && QueryReplaces(db.entries, key, name) == (if row.replacesName in gone then None else Declared(row.replacesName))
    && QuerySkips(db.entries, key, name) == multiset(Left(row.skips, gone))
  }

  ghost predicate ReadsNothing(db: Db, key: ChannelKey, name: string) {
    QueryReplaces(db.entries, key, name) == None && QuerySkips(db.entries, key, name) == multiset{}
  }

  lemma LinkReads(db: Db, key: ChannelKey, layout: Layout, walked: nat, n: nat)
    requires Traced(db) && Traces(db, key, layout, walked) && IsKept(layout, Real(n))
    ensures n < walked ==> Declares(db, layout.links, n)
                           && ReadsAs(db, key, layout.links[n].name, db.bundles[layout.links[n].name], layout.gone)
    ensures n >= walked ==> ReadsNothing(db, key, layout.links[n].name)
  {
    var layouts := TracedLaid(db, key, layout, walked);
    ReplacesOfLink(db.entries, layouts, key, n);
    SkipsOfLink(db.entries, layouts, key, n);
  }

  lemma UnnamedReadsNothing(db: Db, key: ChannelKey, layout: Layout, walked: nat, name: string)
    requires Traced(db) && Traces(db, key, layout, walked)
    requires forall n: nat | IsKept(layout, Real(n)) :: layout.links[n].name != name
    ensures ReadsNothing(db, key, name)
  {
    var layouts := TracedLaid(db, key, layout, walked);
    NothingElse(db.entries, layouts, key, name);
  }

  lemma OnlyWalked(layout: Layout, walked: nat, name: string)
    requires |layout.links| <= walked + 1 && !(IsKept(layout, Real(walked)) && layout.links[walked].name == name)
    requires forall n | 0 <= n < walked && IsKept(layout, Real(n)) :: layout.links[n].name != name
    ensures forall n: nat | IsKept(layout, Real(n)) :: layout.links[n].name != name
  {
    forall n: nat | IsKept(layout, Real(n))
      ensures layout.links[n].name != name
    {
      assert n <= walked;
    }
  }

  lemma OthersReadNothing(db: Db, key: ChannelKey, layout: Layout, walked: nat, name: string)
    requires Traced(db) && Traces(db, key, layout, walked)
    requires forall n | 0 <= n < walked && IsKept(layout, Real(n)) :: layout.links[n].name != name
    ensures ReadsNothing(db, key, name)
  {
    if IsKept(layout, Real(walked)) && layout.links[walked].name == name {
      LinkReads(db, key, layout, walked, walked);
    } else {
      OnlyWalked(layout, walked, name);
      UnnamedReadsNothing(db, key, layout, walked, name);
    }
  }

  // ---- After a deprecation ---------------------------------------------------------------------

  lemma WrittenTraced(db: Db)
    requires AllChannelsWritten(db)
    ensures Traced(db)
  {
    forall key | key in db.channels
      ensures IsTraced(db, key)
    {
      WrittenTraces(db, key);
    }
  }

  lemma ChainReads(db: Db, key: ChannelKey, layout: Layout, chain: seq<string>, name: string)
    requires Traced(db) && Traces(db, key, layout, |chain|)
    requires forall n | 0 <= n < |chain| :: layout.links[n].name == chain[n]
    ensures if name in chain && name !in layout.gone
            then name in db.bundles && ReadsAs(db, key, name, db.bundles[name], layout.gone)
            else ReadsNothing(db, key, name)
  {
    if name in chain && name !in layout.gone {
      var n: nat :| n < |chain| && chain[n] == name;
      LinkReads(db, key, layout, |chain|, n);
    } else {
      OthersReadNothing(db, key, layout, |chain|, name);
    }
  }

  lemma CutWritten(db: Db, head: string, tail: set<string>, db': Db, key: ChannelKey)
    requires Written(db, key) && IsTail(db.bundles, head, tail) && Deprecated(db, head, tail, db')
    requires key in db'.channels
    ensures Traces(db', key, LayoutOf(db, key).(gone := tail), |ChainOf(db, key)|)
  {
    var layout := LayoutOf(db, key);
    WrittenTraces(db, key);
    CutTraces(db, key, layout, |ChainOf(db, key)|, head, tail, db');
    assert layout.gone + tail == tail;
  }

  lemma CutTraced(db: Db, head: string, tail: set<string>, db': Db)
    requires AllChannelsWritten(db) && IsTail(db.bundles, head, tail) && Deprecated(db, head, tail, db')
    ensures Traced(db')
  {
    WrittenTraced(db);
    DeprecationKeepsTraced(db, head, tail, db');
  }

  lemma LinkNames(db: Db, key: ChannelKey)
    requires Written(db, key)
    ensures |ChainOf(db, key)| <= |LayoutOf(db, key).links|
    ensures forall n | 0 <= n < |ChainOf(db, key)| :: LayoutOf(db, key).links[n].name == ChainOf(db, key)[n]
  {
    LinkFacts(db, key);
  }

  /**
    After a deprecation the query gives each bundle of a surviving channel's chain what it declares without the tail,
    and the bundles of the tail nothing.
  */
  lemma DeprecationReads(db: Db, head: string, tail: set<string>, db': Db, key: ChannelKey, name: string)
    requires AllChannelsWritten(db) && IsTail(db.bundles, head, tail) && Deprecated(db, head, tail, db')
    requires key in db'.channels
    ensures if name in ChainOf(db, key) && name !in tail
            then name in db'.bundles && db'.bundles[name] == db.bundles[name]
              && ReadsAs(db', key, name, db.bundles[name], tail)
            else ReadsNothing(db', key, name)
  {
    CutTraced(db, head, tail, db');
    CutWritten(db, head, tail, db', key);
    LinkNames(db, key);
    ChainReads(db', key, LayoutOf(db, key).(gone := tail), ChainOf(db, key), name);
  }

  // ---- After any run ---------------------------------------------------------------------------

  ghost function Missing(db: Db, key: ChannelKey, names: seq<string>): set<string> {
    set n | n in names && !HasEntry(db, key, n)
  }

  /** What a bundle's row declares, restricted to the bundles that have an entry in the channel. */
  ghost predicate ReadsPresent(db: Db, key: ChannelKey, name: string) {
    && name in db.bundles
    && var row := db.bundles[name];
       && QueryReplaces(db.entries, key, name)
          == (if HasEntry(db, key, row.replacesName) then Declared(row.replacesName) else None)
       && QuerySkips(db.entries, key, name) == multiset(Left(row.skips, Missing(db, key, row.skips)))
  }

  ghost predicate FollowsAt(db: Db, key: ChannelKey, chain: seq<string>, i: nat)
    requires i < |chain|
  {
    && chain[i] in db.bundles && HasEntry(db, key, chain[i])
    && (i + 1 < |chain| ==> chain[i + 1] == db.bundles[chain[i]].replacesName)
  }

  ghost predicate Ends(db: Db, key: ChannelKey, last: string) {
    && last in db.bundles
    && var next := db.bundles[last].replacesName;
       next == "" || !HasEntry(db, key, next) || last in db.deprecated
  }

  /** Starting at the head, the bundles that replace each other, as far as the channel has entries for them. */
  ghost predicate Follows(db: Db, key: ChannelKey, chain: seq<string>) {
    && key in db.channels && |chain| > 0 && chain[0] == db.channels[key] && NoRepeats(chain)
    && (forall i | 0 <= i < |chain| :: FollowsAt(db, key, chain, i))
    && Ends(db, key, chain[|chain| - 1])
  }

  lemma {:induction false} LeftSame(names: seq<string>, a: set<string>, b: set<string>)
    requires forall n | n in names :: n in a <==> n in b
    ensures Left(names, a) == Left(names, b)
  {
    if names != [] {
      LeftSame(names[..|names| - 1], a, b);
    }
  }

  lemma NextPresent(db: Db, key: ChannelKey, layout: Layout, n: nat)
    requires ChannelLaid(db.entries, key, layout) && n < |layout.links|
    ensures layout.links[n].name in layout.gone <==> !HasEntry(db, key, layout.links[n].name)
  {
    if layout.links[n].name in layout.gone {
      GoneHasNone(db, key, layout, layout.links[n].name);
    } else {
      LinkHasEntry(db, key, layout, Real(n));
    }
  }

  lemma SkipPresent(db: Db, key: ChannelKey, layout: Layout, n: nat, name: string)
    requires ChannelLaid(db.entries, key, layout) && n < |layout.links| && name in layout.links[n].skips
    ensures name in layout.gone <==> !HasEntry(db, key, name)
  {
    if name in layout.gone {
      GoneHasNone(db, key, layout, name);
    } else {
      var j :| 0 <= j < |layout.links[n].skips| && layout.links[n].skips[j] == name;
      LinkHasEntry(db, key, layout, Dummy(n, j));
    }
  }

  lemma WalkedReads(db: Db, key: ChannelKey, layout: Layout, walked: nat, n: nat)
    requires Traced(db) && Traces(db, key, layout, walked) && IsKept(layout, Real(n)) && n < walked
    ensures ReadsPresent(db, key, layout.links[n].name)
  {
    LinkReads(db, key, layout, walked, n);
    var skips := layout.links[n].skips;
    forall s | s in skips
      ensures s in layout.gone <==> s in Missing(db, key, skips)
    {
      SkipPresent(db, key, layout, n, s);
    }
    LeftSame(skips, layout.gone, Missing(db, key, skips));
    if n + 1 < |layout.links| {
      NextPresent(db, key, layout, n + 1);
    }
  }

  /** How many of the walked links are not gone. */
  lemma {:induction false} KeptCount(layout: Layout, n: nat) returns (c: nat)
    requires GoneBelow(layout) && n <= |layout.links|
    ensures c <= n && forall i: nat | i < n :: i < c <==> layout.links[i].name !in layout.gone
  {
    if n == 0 {
      c := 0;
    } else {
      c := KeptCount(layout, n - 1);
      if layout.links[n - 1].name !in layout.gone {
        c := n;
      }
    }
  }

  ghost function NamesOf(links: seq<Link>, c: nat): (names: seq<string>)
    requires c <= |links|
    ensures |names| == c && forall i | 0 <= i < c :: names[i] == links[i].name
  {
    seq(c, i requires 0 <= i < c => links[i].name)
  }

  /** The chain ends where nothing more is declared or what is declared is gone, or at a deprecated bundle. */
  lemma LastFollows(db: Db, key: ChannelKey, layout: Layout, c: nat)
    requires ChannelLaid(db.entries, key, layout) && 0 < c <= |layout.links| && Declares(db, layout.links, c - 1)
    requires c < |layout.links| ==> layout.links[c].name in layout.gone || layout.links[c - 1].name in db.deprecated
    ensures Ends(db, key, layout.links[c - 1].name)
  {
    if c < |layout.links| {
      NextPresent(db, key, layout, c);
    }
  }

  lemma WalkedFollow(db: Db, key: ChannelKey, layout: Layout, walked: nat, c: nat, i: nat)
    requires Traces(db, key, layout, walked) && i < c <= walked
    requires forall i: nat | i < walked :: i < c <==> layout.links[i].name !in layout.gone
    ensures Declares(db, layout.links, i) && FollowsAt(db, key, NamesOf(layout.links, c), i)
  {
    assert Declares(db, layout.links, i);
    LinkHasEntry(db, key, layout, Real(i));
  }

  lemma WalkedEnds(db: Db, key: ChannelKey, layout: Layout, walked: nat, c: nat)
    requires Traces(db, key, layout, walked) && 0 < c <= walked
    requires forall i: nat | i < walked :: i < c <==> layout.links[i].name !in layout.gone
    ensures Ends(db, key, layout.links[c - 1].name)
  {
    WalkedFollow(db, key, layout, walked, c, c - 1);
    LastFollows(db, key, layout, c);
  }

  lemma NamesFollow(db: Db, key: ChannelKey, layout: Layout, walked: nat, c: nat)
    requires Traces(db, key, layout, walked) && c <= walked
    requires forall i: nat | i < walked :: i < c <==> layout.links[i].name !in layout.gone
    ensures Follows(db, key, NamesOf(layout.links, c))
  {
    var chain := NamesOf(layout.links, c);
    assert c > 0;
    forall i | 0 <= i < |chain|
      ensures FollowsAt(db, key, chain, i)
    {
      WalkedFollow(db, key, layout, walked, c, i);
    }
    WalkedEnds(db, key, layout, walked, c);
  }

  lemma NotNamed(layout: Layout, walked: nat, c: nat, name: string)
    requires c <= walked <= |layout.links| && name !in NamesOf(layout.links, c)
    requires forall i: nat | i < walked :: i < c <==> layout.links[i].name !in layout.gone
    ensures forall n | 0 <= n < walked && IsKept(layout, Real(n)) :: layout.links[n].name != name
  {
    forall n | 0 <= n < walked && IsKept(layout, Real(n))
      ensures layout.links[n].name != name
    {
      assert NamesOf(layout.links, c)[n] in NamesOf(layout.links, c);
    }
  }

  lemma NameReads(db: Db, key: ChannelKey, layout: Layout, walked: nat, c: nat, name: string)
    requires Traced(db) && Traces(db, key, layout, walked) && c <= walked
    requires forall i: nat | i < walked :: i < c <==> layout.links[i].name !in layout.gone
    ensures var chain := NamesOf(layout.links, c);
            if name in chain then ReadsPresent(db, key, name) else ReadsNothing(db, key, name)
  {
    var chain := NamesOf(layout.links, c);
    if name in chain {
      var n: nat :| n < c && chain[n] == name;
      WalkedReads(db, key, layout, walked, n);
    } else {
      NotNamed(layout, walked, c, name);
      OthersReadNothing(db, key, layout, walked, name);
    }
  }

  /** In every channel the query gives the bundles that follow each other what they declare, and all others nothing. */
  lemma TracedReads(db: Db, key: ChannelKey) returns (chain: seq<string>)
    requires Traced(db) && key in db.channels
    ensures Follows(db, key, chain)
    ensures forall name :: if name in chain then ReadsPresent(db, key, name) else ReadsNothing(db, key, name)
  {
    var layout, walked: nat :| Traces(db, key, layout, walked);
    var c := KeptCount(layout, walked);
    chain := NamesOf(layout.links, c);
    NamesFollow(db, key, layout, walked, c);
    forall name
      ensures if name in chain then ReadsPresent(db, key, name) else ReadsNothing(db, key, name)
    {
      NameReads(db, key, layout, walked, c, name);
    }
  }

  /** Any call that goes through replaces mode without alpha features; a failed one changes nothing. */
  ghost predicate CallStep(db: Db, db': Db) {
    || db' == db
    || (exists name, row :: name !in db.bundles && db' == AddBundleRow(db, name, row))
    || Runs.LoadStep(db, db') || Runs.DeprecateStep(db, db') || Runs.RemoveStep(db, db') || Runs.StrandStep(db, db')
  }

  lemma CallKeepsTraced(db: Db, db': Db)
    requires Sound(db) && Traced(db) && CallStep(db, db')
    ensures Sound(db') && Traced(db')
  {
    Runs.ReplacesModeStepKeeps(db, db');
    if name, row :| name !in db.bundles && db' == AddBundleRow(db, name, row) {
      AddKeepsTraced(db, name, row);
    } else if Runs.LoadStep(db, db') {
      var m :| Loadable(db, m) && Loaded(db, m, db');
      LoadKeepsTraced(db, m, db');
    } else if Runs.DeprecateStep(db, db') {
      var head, tail :| IsTail(db.bundles, head, tail) && !MeetsDefaultHead(db, head)
        && Deprecated(db, head, tail, db');
      DeprecationKeepsTraced(db, head, tail, db');
    } else if Runs.RemoveStep(db, db') {
      var pkg :| PackageRemoved(db, pkg, db') && PointersResolve(db');
      RemovalKeepsTraced(db, pkg, db');
    } else if Runs.StrandStep(db, db') {
      StrandKeepsTraced(db);
    }
  }

  ghost predicate CallAt(dbs: seq<Db>, i: nat)
    requires i + 1 < |dbs|
  {
    CallStep(dbs[i], dbs[i + 1])
  }

  /** After any run of calls from the empty database. */
  lemma RunReads(dbs: seq<Db>, n: nat, key: ChannelKey) returns (chain: seq<string>)
    requires |dbs| > 0 && dbs[0] == EMPTY_DB && n < |dbs| && forall i | 0 <= i < |dbs| - 1 :: CallAt(dbs, i)
    requires key in dbs[n].channels
    ensures Follows(dbs[n], key, chain)
    ensures forall name :: if name in chain then ReadsPresent(dbs[n], key, name) else ReadsNothing(dbs[n], key, name)
  {
    EmptyIsSound();
    for i := 0 to n
      invariant Sound(dbs[i]) && Traced(dbs[i])
    {
      assert CallAt(dbs, i);
      CallKeepsTraced(dbs[i], dbs[i + 1]);
    }
    chain := TracedReads(dbs[n], key);
  }
}
