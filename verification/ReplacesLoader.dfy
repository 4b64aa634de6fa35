/** Loading a package in replaces mode: pkg/sqlite/load.go, AddPackageChannels. */
module ReplacesLoader {
  import opened Common
  import opened Tables
  import opened ChannelRows
  import opened EntryWriter

  datatype PackageChannel = PackageChannel(name: string, currentCsv: string)

  datatype Manifest = Manifest(pkg: string, channels: seq<PackageChannel>, defaultChannel: string)

  predicate IsDefaultChannel(c: PackageChannel, m: Manifest) {
    c.name == m.defaultChannel || |m.channels| == 1
  }

  // ---- The declared chain ----------------------------------------------------------------------

  /**
    The bundles a walk along the declared replaces visits from csv, none of them twice. It ends at a bundle
    that replaces nothing or at a deprecated one; a cycle or a missing bundle is an error.
  */
  function Chain(bundles: map<string, BundleRow>, deprecated: set<string>, csv: string, seen: set<string>)
    : Option<seq<string>>
    decreases bundles.Keys - seen
  {
    if csv !in bundles then None
    else
      var next := bundles[csv].replacesName;
      if next == "" then Some([csv])
      else if next in seen then None
      else if csv in deprecated then Some([csv])
      else if next !in bundles then None
      else
        Prepend([csv], Chain(bundles, deprecated, next, seen + {next}))
  }

  function HeadChain(db: Db, head: string): Option<seq<string>> {
    Chain(db.bundles, db.deprecated, head, {head})
  }

  function Walked(bundles: map<string, BundleRow>, names: seq<string>): (links: seq<Link>)
    requires forall c | c in names :: c in bundles
    ensures |links| == |names|
    ensures forall i | 0 <= i < |names| :: links[i] == Link(names[i], bundles[names[i]].skips)
  {
    seq(|names|, i requires 0 <= i < |names| => Link(names[i], bundles[names[i]].skips))
  }

  /** The links written for a walked chain; behind a deprecated end the bundle it replaces still gets an entry. */
  function Links(bundles: map<string, BundleRow>, names: seq<string>): seq<Link>
    requires |names| > 0 && forall c | c in names :: c in bundles
  {
    var beyond := bundles[names[|names| - 1]].replacesName;
    Walked(bundles, names) + if beyond == "" then [] else [Link(beyond, [])]
  }

  /** The i-th bundle is not deprecated and declares to replace the next one. */
  predicate StepAt(bundles: map<string, BundleRow>, deprecated: set<string>, c: seq<string>, i: int)
    requires 0 <= i < |c| - 1
  {
    && c[i] in bundles && c[i] !in deprecated
    && c[i + 1] == bundles[c[i]].replacesName && c[i + 1] != ""
  }

  /** What a successful walk visits: existing bundles, no repetition, and a deprecated one only at the end. */
  lemma {:induction false} ChainFacts(bundles: map<string, BundleRow>, deprecated: set<string>, csv: string,
                                      seen: set<string>)
    requires csv in seen && Chain(bundles, deprecated, csv, seen).Some?
    ensures var c := Chain(bundles, deprecated, csv, seen).value;
            && |c| > 0 && c[0] == csv
            && (forall i | 0 <= i < |c| :: c[i] in bundles)
            && (forall i | 0 < i < |c| :: c[i] !in seen)
            && (forall i, j | 0 <= i < j < |c| :: c[i] != c[j])
            && (forall i | 0 <= i < |c| - 1 :: StepAt(bundles, deprecated, c, i))
            && (var beyond := bundles[c[|c| - 1]].replacesName;
                beyond != "" ==> c[|c| - 1] in deprecated && beyond !in c && beyond !in seen)
    decreases bundles.Keys - seen
  {
    var next := bundles[csv].replacesName;
    if next != "" && csv !in deprecated {
      ChainFacts(bundles, deprecated, next, seen + {next});
      var rest := Chain(bundles, deprecated, next, seen + {next}).value;
      var c := Chain(bundles, deprecated, csv, seen).value;
      assert c == [csv] + rest;
      assert c[|c| - 1] == rest[|rest| - 1];
      assert forall i | 0 < i < |c| :: c[i] == rest[i - 1];
      forall i | 0 <= i < |c| - 1
        ensures StepAt(bundles, deprecated, c, i)
      {
        assert i > 0 ==> StepAt(bundles, deprecated, rest, i - 1);
      }
    }
  }

  function Prepend(names: seq<string>, rest: Option<seq<string>>): (r: Option<seq<string>>)
    ensures names == [] ==> r == rest
  {
    match rest
    case None => None
    case Some(r) =>
      assert [] + r == r;
      Some(names + r)
  }

  lemma PrependOne(names: seq<string>, csv: string, rest: Option<seq<string>>)
    ensures Prepend(names, Prepend([csv], rest)) == Prepend(names + [csv], rest)
  {
    if rest.Some? {
      assert names + ([csv] + rest.value) == names + [csv] + rest.value;
    }
  }

  // ---- Writing one channel ---------------------------------------------------------------------

  /** A channel's rows in the database are exactly those of its head's declared chain, from depth 0. */
  ghost predicate WrittenAt(db: Db, key: ChannelKey, head: string, id: nat) {
    var names := HeadChain(db, head);
    && names.Some? && |names.value| > 0 && (forall c | c in names.value :: c in db.bundles)
    && var links := Links(db.bundles, names.value);
       && Stored(db.entries, ReplacesMode, key, links, 0, id)
       && forall i | i in db.entries :: db.entries[i].key == key <==> id <= i < RealAt(links, |links|, id)
  }

  ghost predicate Written(db: Db, key: ChannelKey) {
    key in db.channels && exists id: nat :: WrittenAt(db, key, db.channels[key], id)
  }

  /** The channel's rows are complete. */
  ghost predicate Complete(tx: Db, entries: map<nat, Entry>, key: ChannelKey, names: seq<string>, id: nat) {
    && |names| > 0 && (forall c | c in names :: c in tx.bundles)
    && Building(tx.entries, entries, ReplacesMode, key, Links(tx.bundles, names), 0, id)
  }

  /**
    The rows one bundle of the walk contributes: its skips, and unless it replaces nothing, a real entry for
    the bundle it replaces. The pointer to that entry is only set when the bundle has not been visited.
  */
  method WriteLink(entries: map<nat, Entry>, key: ChannelKey, csv: string, row: BundleRow, startDepth: nat,
                   currentId: nat, visited: set<string>, ghost old_: map<nat, Entry>, ghost front: seq<Link>,
                   ghost id: nat)
    returns (more: map<nat, Entry>, depth: nat, replacedId: nat)
    requires Building(old_, entries, ReplacesMode, key, front + [Link(csv, [])], 0, id)
    requires startDepth == LastDepth(ReplacesMode, front + [Link(csv, [])], 0) + 1
    requires currentId == LastId(front + [Link(csv, [])], id)
    ensures row.replacesName == "" ==> Building(old_, more, ReplacesMode, key, front + [Link(csv, row.skips)], 0, id)
    ensures row.replacesName != "" && row.replacesName !in visited ==>
              var chain := front + [Link(csv, row.skips)] + [Link(row.replacesName, [])];
              && Building(old_, more, ReplacesMode, key, chain, 0, id)
              && depth == LastDepth(ReplacesMode, chain, 0)
              && replacedId == LastId(chain, id)
    ensures forall i | i in old_ :: HasRow(more, i, old_[i])
    ensures forall i | i in more && i !in old_ :: more[i].key == key
  {
    more, depth := AddSkipEntries(entries, key, csv, row.skips, startDepth, old_, ReplacesMode, front, 0, id);
    if row.replacesName == "" {
      return more, depth, 0;
    }
    ghost var before := more;
    more, replacedId := AddChannelEntry(more, Entry(key, row.replacesName, None, depth));
    if row.replacesName in visited {
      return;
    }
    more := AddReplaces(more, replacedId, currentId);
    BuildingNext(old_, before, more, ReplacesMode, key, front + [Link(csv, row.skips)], 0, id, row.replacesName, depth);
  }

  /** The walk has come to csv, with the given bundles and their links behind it. */
  ghost predicate Walking(tx: Db, head: string, names: seq<string>, front: seq<Link>, csv: string,
                          visited: set<string>) {
    && (forall c | c in names :: c in tx.bundles)
    && front == Walked(tx.bundles, names)
    && HeadChain(tx, head) == Prepend(names, Chain(tx.bundles, tx.deprecated, csv, visited))
  }

  lemma WalkingOn(tx: Db, head: string, names: seq<string>, front: seq<Link>, csv: string, visited: set<string>)
    requires Walking(tx, head, names, front, csv, visited) && csv in tx.bundles && csv !in tx.deprecated
    requires var next := tx.bundles[csv].replacesName; next != "" && next !in visited && next in tx.bundles
    ensures var next := tx.bundles[csv].replacesName;
            Walking(tx, head, names + [csv], front + [Link(csv, tx.bundles[csv].skips)], next, visited + {next})
  {
    var next := tx.bundles[csv].replacesName;
    PrependOne(names, csv, Chain(tx.bundles, tx.deprecated, next, visited + {next}));
    assert front + [Link(csv, tx.bundles[csv].skips)] == Walked(tx.bundles, names + [csv]);
  }

  lemma WalkingEnds(tx: Db, head: string, names: seq<string>, front: seq<Link>, csv: string, visited: set<string>)
    requires Walking(tx, head, names, front, csv, visited) && csv in tx.bundles
    requires var next := tx.bundles[csv].replacesName; next == "" || (next !in visited && csv in tx.deprecated)
    ensures HeadChain(tx, head) == Some(names + [csv])
    ensures forall c | c in names + [csv] :: c in tx.bundles
    ensures var row := tx.bundles[csv];
            var links := front + [Link(csv, row.skips)];
            Links(tx.bundles, names + [csv])
              == if row.replacesName == "" then links else links + [Link(row.replacesName, [])]
  {
    var row := tx.bundles[csv];
    assert front + [Link(csv, row.skips)] == Walked(tx.bundles, names + [csv]);
  }

  /**
    Follows the replaces column from the head and writes the channel's entries. Terminates on any table
    contents, since every round visits a further bundle row, and fails exactly when the declared chain has a
    cycle or a missing bundle.
  */
  method WriteChannel(tx: Db, key: ChannelKey, head: string) returns (entries: map<nat, Entry>, ok: bool)
    ensures ok <==> HeadChain(tx, head).Some?
    ensures ok ==> Complete(tx, entries, key, HeadChain(tx, head).value, FreshId(tx.entries))
    ensures forall i | i in tx.entries :: HasRow(entries, i, tx.entries[i])
    ensures forall i | i in entries && i !in tx.entries :: entries[i].key == key
  {
    ok := false;
    var currentId;
    entries, currentId := AddChannelEntry(tx.entries, Entry(key, head, None, 0));
    ghost var id := currentId;
    BuildingStart(tx.entries, entries, ReplacesMode, key, head, 0);
    var csv, depth, visited := head, 0, {head};
    ghost var names: seq<string>, front: seq<Link> := [], [];
    assert front + [Link(head, [])] == [Link(head, [])];
    while csv in tx.bundles
      invariant Walking(tx, head, names, front, csv, visited)
      invariant Building(tx.entries, entries, ReplacesMode, key, front + [Link(csv, [])], 0, id)
      invariant depth == LastDepth(ReplacesMode, front + [Link(csv, [])], 0)
      invariant currentId == LastId(front + [Link(csv, [])], id)
      invariant !ok
      decreases tx.bundles.Keys - visited
    {
      var row := tx.bundles[csv];
      entries, depth, currentId :=
        WriteLink(entries, key, csv, row, depth + 1, currentId, visited, tx.entries, front, id);
      if row.replacesName == "" {
        WalkingEnds(tx, head, names, front, csv, visited);
        ok := true;
        break;
      }
      if row.replacesName in visited {
        break;
      }
      if csv in tx.deprecated {
        WalkingEnds(tx, head, names, front, csv, visited);
        ok := true;
        break;
      }
      if row.replacesName !in tx.bundles {
        break;
      }
      WalkingOn(tx, head, names, front, csv, visited);
      names, front := names + [csv], front + [Link(csv, row.skips)];
      visited := visited + {row.replacesName};
      csv := row.replacesName;
    }
  }

  // ---- Loading a package -----------------------------------------------------------------------

  /** Channels that start with a deprecated bundle are left out. */
  function Kept(channels: seq<PackageChannel>, deprecated: set<string>): seq<PackageChannel> {
    if channels == [] then []
    else
      var n := |channels| - 1;
      Kept(channels[..n], deprecated) + if channels[n].currentCsv in deprecated then [] else [channels[n]]
  }

  lemma {:induction false} KeptMembers(channels: seq<PackageChannel>, deprecated: set<string>, c: PackageChannel)
    ensures c in Kept(channels, deprecated) <==> c in channels && c.currentCsv !in deprecated
  {
    if channels != [] {
      var n := |channels| - 1;
      KeptMembers(channels[..n], deprecated, c);
      assert channels == channels[..n] + [channels[n]];
    }
  }

  function ChannelRow(pkg: string, c: PackageChannel): ChannelKey {
    ChannelKey(c.name, pkg)
  }

  /** The channel rows of a list of channels with distinct names. */
  function ChannelTable(pkg: string, kept: seq<PackageChannel>): map<ChannelKey, string> {
    if kept == [] then map[]
    else
      var n := |kept| - 1;
      ChannelTable(pkg, kept[..n])[ChannelRow(pkg, kept[n]) := kept[n].currentCsv]
  }

  predicate DistinctNames(kept: seq<PackageChannel>) {
    forall i, j | 0 <= i < j < |kept| :: kept[i].name != kept[j].name
  }

  lemma {:induction false} ChannelTableRows(pkg: string, kept: seq<PackageChannel>)
    requires DistinctNames(kept)
    ensures forall key :: key in ChannelTable(pkg, kept) <==> exists c :: c in kept && key == ChannelRow(pkg, c)
    ensures forall c | c in kept ::
              ChannelRow(pkg, c) in ChannelTable(pkg, kept)
              && ChannelTable(pkg, kept)[ChannelRow(pkg, c)] == c.currentCsv
  {
    if kept != [] {
      var n := |kept| - 1;
      ChannelTableRows(pkg, kept[..n]);
      assert kept == kept[..n] + [kept[n]];
      forall c | c in kept
        ensures ChannelRow(pkg, c) in ChannelTable(pkg, kept)
        ensures ChannelTable(pkg, kept)[ChannelRow(pkg, c)] == c.currentCsv
      {
        if c in kept[..n] {
          assert c.name != kept[n].name;
        }
      }
    }
  }

  /** The channel rows can be inserted: no name twice, and every head is a bundle row. */
  predicate Insertable(bundles: map<string, BundleRow>, kept: seq<PackageChannel>) {
    && DistinctNames(kept)
    && forall c | c in kept :: c.currentCsv in bundles
  }

  /** The default channel: the last one that is marked as such. */
  function DefaultOf(m: Manifest, kept: seq<PackageChannel>): Option<string> {
    if kept == [] then None
    else
      var n := |kept| - 1;
      if IsDefaultChannel(kept[n], m) then Some(kept[n].name) else DefaultOf(m, kept[..n])
  }

  lemma {:induction false} DefaultIsKept(m: Manifest, kept: seq<PackageChannel>)
    ensures DefaultOf(m, kept).Some? <==> exists c :: c in kept && IsDefaultChannel(c, m)
    ensures DefaultOf(m, kept).Some? ==> exists c :: c in kept && c.name == DefaultOf(m, kept).value
  {
    if kept != [] {
      var n := |kept| - 1;
      DefaultIsKept(m, kept[..n]);
      assert kept == kept[..n] + [kept[n]];
    }
  }

  /** When a load succeeds: the kept channels have distinct names and walkable heads, one is the default. */
  predicate Loadable(db: Db, m: Manifest) {
    var kept := Kept(m.channels, db.deprecated);
    && Insertable(db.bundles, kept)
    && DefaultOf(m, kept).Some?
    && forall c | c in kept :: HeadChain(db, c.currentCsv).Some?
  }

  /** A channel of the manifest that does not start with a deprecated bundle. */
  ghost predicate Retained(db: Db, m: Manifest, i: int) {
    0 <= i < |m.channels| && m.channels[i].currentCsv !in db.deprecated
  }

  /** The default is among the kept channels: it is the only channel, or one with the declared name. */
  ghost predicate KeepsDefault(db: Db, m: Manifest) {
    if |m.channels| == 1 then Retained(db, m, 0)
    else exists i :: Retained(db, m, i) && m.channels[i].name == m.defaultChannel
  }

  ghost predicate DistinctKept(channels: seq<PackageChannel>, deprecated: set<string>) {
    forall i, j |
      0 <= i < j < |channels| && channels[i].currentCsv !in deprecated && channels[j].currentCsv !in deprecated ::
      channels[i].name != channels[j].name
  }

  lemma {:induction false} KeptDistinct(channels: seq<PackageChannel>, deprecated: set<string>)
    ensures DistinctNames(Kept(channels, deprecated)) <==> DistinctKept(channels, deprecated)
  {
    if channels != [] {
      var n := |channels| - 1;
      var front, last := channels[..n], channels[n];
      KeptDistinct(front, deprecated);
      assert channels == front + [last];
      if last.currentCsv !in deprecated {
        DistinctStep(Kept(front, deprecated), last);
        forall d
          ensures d in Kept(front, deprecated) <==> d in front && d.currentCsv !in deprecated
        {
          KeptMembers(front, deprecated, d);
        }
        KeptDistinctStep(front, last, deprecated);
      } else {
        ElidedLast(front, last, deprecated);
        assert Kept(channels, deprecated) == Kept(front, deprecated);
      }
    }
  }

  lemma ElidedLast(front: seq<PackageChannel>, last: PackageChannel, deprecated: set<string>)
    requires last.currentCsv in deprecated
    ensures DistinctKept(front + [last], deprecated) <==> DistinctKept(front, deprecated)
  {
    var all := front + [last];
    assert forall i | 0 <= i < |front| :: all[i] == front[i];
    if DistinctKept(all, deprecated) {
      forall i, j | 0 <= i < j < |front| && front[i].currentCsv !in deprecated && front[j].currentCsv !in deprecated
        ensures front[i].name != front[j].name
      {
        assert all[i].name != all[j].name;
      }
    }
  }

  lemma KeptDistinctStep(front: seq<PackageChannel>, last: PackageChannel, deprecated: set<string>)
    requires last.currentCsv !in deprecated
    ensures DistinctKept(front + [last], deprecated) <==>
              && DistinctKept(front, deprecated)
              && forall d | d in front && d.currentCsv !in deprecated :: d.name != last.name
  {
    var all := front + [last];
    assert forall i | 0 <= i < |front| :: all[i] == front[i];
    if DistinctKept(all, deprecated) {
      forall d | d in front && d.currentCsv !in deprecated
        ensures d.name != last.name
      {
        var i :| 0 <= i < |front| && front[i] == d;
        assert all[i].name != all[|front|].name;
      }
      forall i, j | 0 <= i < j < |front| && front[i].currentCsv !in deprecated && front[j].currentCsv !in deprecated
        ensures front[i].name != front[j].name
      {
        assert all[i].name != all[j].name;
      }
    }
  }

  /** The manifest's only channel, or else the one it declares as default. */
  ghost function DeclaredDefault(m: Manifest): string {
    if |m.channels| == 1 then m.channels[0].name else m.defaultChannel
  }

  lemma {:induction false} DefaultNamed(m: Manifest, kept: seq<PackageChannel>)
    requires |m.channels| != 1 || forall c | c in kept :: c == m.channels[0]
    ensures DefaultOf(m, kept).Some? <==> exists c :: c in kept && c.name == DeclaredDefault(m)
    ensures DefaultOf(m, kept).Some? ==> DefaultOf(m, kept).value == DeclaredDefault(m)
  {
    if kept != [] {
      var n := |kept| - 1;
      assert kept == kept[..n] + [kept[n]];
      assert kept[n] in kept && forall c | c in kept[..n] :: c in kept;
      DefaultNamed(m, kept[..n]);
    }
  }

  /** Which channel becomes the default, and when there is one. */
  lemma DefaultIsDeclared(db: Db, m: Manifest)
    ensures var default := DefaultOf(m, Kept(m.channels, db.deprecated));
            (default.Some? <==> KeepsDefault(db, m)) && (default.Some? ==> default.value == DeclaredDefault(m))
  {
    var kept := Kept(m.channels, db.deprecated);
    KeptExactly(db, m);
    DefaultNamed(m, kept);
    if KeepsDefault(db, m) {
      var i :| Retained(db, m, i) && m.channels[i].name == DeclaredDefault(m);
      assert m.channels[i] in kept;
    }
    if c :| c in kept && c.name == DeclaredDefault(m) {
      var i :| Retained(db, m, i) && m.channels[i] == c;
    }
  }

  lemma KeptExactly(db: Db, m: Manifest)
    ensures forall i | Retained(db, m, i) :: m.channels[i] in Kept(m.channels, db.deprecated)
    ensures forall c | c in Kept(m.channels, db.deprecated) :: exists i :: Retained(db, m, i) && m.channels[i] == c
  {
    forall i | Retained(db, m, i)
      ensures m.channels[i] in Kept(m.channels, db.deprecated)
    {
      KeptMembers(m.channels, db.deprecated, m.channels[i]);
    }
    forall c | c in Kept(m.channels, db.deprecated)
      ensures exists i :: Retained(db, m, i) && m.channels[i] == c
    {
      KeptMembers(m.channels, db.deprecated, c);
      var i :| 0 <= i < |m.channels| && m.channels[i] == c;
      assert Retained(db, m, i);
    }
  }

  /** When a load succeeds, in terms of the manifest's channels. */
  lemma LoadableIff(db: Db, m: Manifest)
    ensures Loadable(db, m) <==>
              && DistinctKept(m.channels, db.deprecated) && KeepsDefault(db, m)
              && forall i | Retained(db, m, i) :: HeadChain(db, m.channels[i].currentCsv).Some?
  {
    KeptDistinct(m.channels, db.deprecated);
    DefaultIsDeclared(db, m);
    KeptExactly(db, m);
  }

  /** The effect of a successful load: the package's rows are rewritten, all others stay as they were. */
  ghost predicate Loaded(db: Db, m: Manifest, db': Db) {
    var kept := Kept(m.channels, db.deprecated);
    && db'.bundles == db.bundles && db'.deprecated == db.deprecated
    && db'.packages == db.packages[m.pkg := DefaultOf(m, kept)]
    && db'.channels == db.channels - ChannelsOf(db, m.pkg) + ChannelTable(m.pkg, kept)
    && (forall i | i in db.entries && db.entries[i].key.pkg != m.pkg :: HasRow(db'.entries, i, db.entries[i]))
    && (forall i | i in db'.entries ::
          || (HasRow(db.entries, i, db'.entries[i]) && db'.entries[i].key.pkg != m.pkg)
          || db'.entries[i].key in ChannelTable(m.pkg, kept))
    && (forall c | c in kept :: Written(db', ChannelRow(m.pkg, c)))
  }

  /** The package and channel tables after some of the channels. */
  function WithRows(clean: Db, m: Manifest, kept: seq<PackageChannel>): Db {
    clean.(packages := clean.packages[m.pkg := DefaultOf(m, kept)],
           channels := clean.channels + ChannelTable(m.pkg, kept))
  }

  lemma DistinctStep(kept: seq<PackageChannel>, c: PackageChannel)
    ensures DistinctNames(kept + [c]) <==> DistinctNames(kept) && forall d | d in kept :: d.name != c.name
  {
    var more := kept + [c];
    assert forall i | 0 <= i < |kept| :: more[i] == kept[i];
    if DistinctNames(more) {
      forall d | d in kept
        ensures d.name != c.name
      {
        var i :| 0 <= i < |kept| && kept[i] == d;
        assert more[i].name != more[|kept|].name;
      }
    }
  }

  lemma InsertableStep(bundles: map<string, BundleRow>, pkg: string, kept: seq<PackageChannel>, c: PackageChannel)
    ensures Insertable(bundles, kept + [c]) <==>
            Insertable(bundles, kept) && ChannelRow(pkg, c) !in ChannelTable(pkg, kept) && c.currentCsv in bundles
  {
    DistinctStep(kept, c);
    assert forall d :: d in kept + [c] <==> d in kept || d == c;
    if DistinctNames(kept) {
      ChannelTableRows(pkg, kept);
      assert ChannelRow(pkg, c) !in ChannelTable(pkg, kept) <==> forall d | d in kept :: d.name != c.name;
    }
  }

  lemma WithRowsStep(clean: Db, m: Manifest, kept: seq<PackageChannel>, c: PackageChannel)
    ensures var tx, key := WithRows(clean, m, kept), ChannelRow(m.pkg, c);
            WithRows(clean, m, kept + [c])
            == tx.(channels := tx.channels[key := c.currentCsv],
                   packages := if IsDefaultChannel(c, m) then tx.packages[m.pkg := Some(c.name)] else tx.packages)
  {
    var more, key := kept + [c], ChannelRow(m.pkg, c);
    assert more[..|kept|] == kept;
    assert ChannelTable(m.pkg, more) == ChannelTable(m.pkg, kept)[key := c.currentCsv];
    assert clean.channels + ChannelTable(m.pkg, more)
      == (clean.channels + ChannelTable(m.pkg, kept))[key := c.currentCsv];
  }

  /** Fails on a second row for the channel and on a head that is not a bundle row. */
  method AddChannelRow(m: Manifest, tx: Db, c: PackageChannel) returns (tx': Db, ok: bool)
    ensures ok <==> ChannelRow(m.pkg, c) !in tx.channels && c.currentCsv in tx.bundles
    ensures ok ==> tx' == tx.(channels := tx.channels[ChannelRow(m.pkg, c) := c.currentCsv],
                              packages := if IsDefaultChannel(c, m)
                                          then tx.packages[m.pkg := Some(c.name)]
                                          else tx.packages)
    ensures !ok ==> tx' == tx
  {
    var key := ChannelRow(m.pkg, c);
    if key in tx.channels || c.currentCsv !in tx.bundles {
      return tx, false;
    }
    tx', ok := tx.(channels := tx.channels[key := c.currentCsv]), true;
    if IsDefaultChannel(c, m) {
      tx' := tx'.(packages := tx'.packages[m.pkg := Some(c.name)]);
    }
  }

  /** Some of the channels have been dealt with, successfully exactly when their rows can be inserted. */
  ghost predicate Adding(clean: Db, m: Manifest, kept: seq<PackageChannel>, tx: Db, channels: seq<PackageChannel>,
                         hasDefault: bool, ok: bool)
  {
    && (ok <==> Insertable(clean.bundles, kept))
    && (ok ==> channels == kept && tx == WithRows(clean, m, kept) && hasDefault == DefaultOf(m, kept).Some?)
  }

  lemma AddingStep(clean: Db, m: Manifest, kept: seq<PackageChannel>, tx: Db, channels: seq<PackageChannel>,
                   hasDefault: bool, ok: bool, c: PackageChannel, tx': Db, inserted: bool)
    requires forall key | key in clean.channels :: key.pkg != m.pkg
    requires Adding(clean, m, kept, tx, channels, hasDefault, ok)
    requires inserted <==> ChannelRow(m.pkg, c) !in tx.channels && c.currentCsv in tx.bundles
    requires inserted ==> tx' == tx.(channels := tx.channels[ChannelRow(m.pkg, c) := c.currentCsv],
                                     packages := if IsDefaultChannel(c, m)
                                                 then tx.packages[m.pkg := Some(c.name)]
                                                 else tx.packages)
    ensures Adding(clean, m, kept + [c], tx', channels + [c], hasDefault || IsDefaultChannel(c, m), ok && inserted)
  {
    InsertableStep(clean.bundles, m.pkg, kept, c);
    if ok && inserted {
      WithRowsStep(clean, m, kept, c);
      assert (kept + [c])[..|kept|] == kept;
    }
  }

  /** The package and channel rows, before any entries are written. */
  method AddChannelRows(clean: Db, m: Manifest) returns (tx: Db, channels: seq<PackageChannel>, ok: bool)
    requires forall key | key in clean.channels :: key.pkg != m.pkg
    ensures var kept := Kept(m.channels, clean.deprecated);
            && (ok <==> Insertable(clean.bundles, kept) && DefaultOf(m, kept).Some?)
            && (ok ==> channels == kept && tx == WithRows(clean, m, kept))
  {
    tx := clean.(packages := clean.packages[m.pkg := None]);
    channels, ok := [], true;
    var hasDefault := false;
    assert clean.channels + ChannelTable(m.pkg, []) == clean.channels;
    for n := 0 to |m.channels|
      invariant Adding(clean, m, Kept(m.channels[..n], clean.deprecated), tx, channels, hasDefault, ok)
    {
      var c := m.channels[n];
      ghost var before := Kept(m.channels[..n], clean.deprecated);
      assert m.channels[..n + 1][..n] == m.channels[..n];
      if c.currentCsv in clean.deprecated {
        assert Kept(m.channels[..n + 1], clean.deprecated) == before;
      } else {
        var tx', inserted := AddChannelRow(m, tx, c);
        AddingStep(clean, m, before, tx, channels, hasDefault, ok, c, tx', inserted);
        tx := tx';
        if inserted {
          hasDefault := hasDefault || IsDefaultChannel(c, m);
          channels := channels + [c];
        } else {
          ok := false;
        }
      }
    }
    assert m.channels[..|m.channels|] == m.channels;
    ok := ok && hasDefault;
  }

  /** A channel that was complete stays so when rows of another channel are added. */
  lemma WrittenKept(db: Db, entries: map<nat, Entry>, key: ChannelKey, other: ChannelKey)
    requires Written(db, key) && key != other
    requires forall i | i in db.entries :: HasRow(entries, i, db.entries[i])
    requires forall i | i in entries && i !in db.entries :: entries[i].key == other
    ensures Written(db.(entries := entries), key)
  {
    var id: nat :| WrittenAt(db, key, db.channels[key], id);
    var links := Links(db.bundles, HeadChain(db, db.channels[key]).value);
    StoredFrame(db.entries, entries, ReplacesMode, key, links, 0, id);
    var after := db.(entries := entries);
    forall i | i in entries
      ensures entries[i].key == key <==> id <= i < RealAt(links, |links|, id)
    {
      if id <= i < RealAt(links, |links|, id) {
        StoredLayered(db.entries, ReplacesMode, key, links, 0, id, i);
      }
    }
    assert HeadChain(after, after.channels[key]) == HeadChain(db, db.channels[key]);
    assert WrittenAt(after, key, after.channels[key], id);
  }

  lemma WrittenNew(db: Db, entries: map<nat, Entry>, key: ChannelKey)
    requires key in db.channels && HeadChain(db, db.channels[key]).Some?
    requires forall i | i in db.entries :: db.entries[i].key != key
    requires Complete(db, entries, key, HeadChain(db, db.channels[key]).value, FreshId(db.entries))
    ensures Written(db.(entries := entries), key)
  {
    var after, id := db.(entries := entries), FreshId(db.entries);
    assert HeadChain(after, after.channels[key]) == HeadChain(db, db.channels[key]);
    assert WrittenAt(after, key, after.channels[key], id);
  }

  ghost predicate AllWalkable(db: Db, kept: seq<PackageChannel>) {
    forall c | c in kept :: HeadChain(db, c.currentCsv).Some?
  }

  ghost predicate AllWritten(db: Db, pkg: string, kept: seq<PackageChannel>) {
    forall c | c in kept :: Written(db, ChannelRow(pkg, c))
  }

  /** Rows outside the given channels are exactly the old ones. */
  ghost predicate OnlyThese(old_: map<nat, Entry>, entries: map<nat, Entry>, pkg: string, kept: seq<PackageChannel>) {
    && (forall i | i in old_ :: HasRow(entries, i, old_[i]))
    && (forall i | i in entries && i !in old_ :: exists c :: c in kept && entries[i].key == ChannelRow(pkg, c))
  }

  lemma ChannelAdded(base: Db, tx: Db, entries: map<nat, Entry>, pkg: string, done: seq<PackageChannel>,
                     c: PackageChannel, written: bool)
    requires tx == base.(entries := tx.entries)
    requires ChannelRow(pkg, c) in base.channels && base.channels[ChannelRow(pkg, c)] == c.currentCsv
    requires forall d | d in done :: d.name != c.name
    requires forall i | i in base.entries :: base.entries[i].key.pkg != pkg
    requires OnlyThese(base.entries, tx.entries, pkg, done)
    requires forall i | i in tx.entries :: HasRow(entries, i, tx.entries[i])
    requires forall i | i in entries && i !in tx.entries :: entries[i].key == ChannelRow(pkg, c)
    requires written <==> HeadChain(tx, c.currentCsv).Some?
    requires written ==>
               Complete(tx, entries, ChannelRow(pkg, c), HeadChain(tx, c.currentCsv).value, FreshId(tx.entries))
    ensures OnlyThese(base.entries, entries, pkg, done + [c])
    ensures AllWalkable(base, done + [c]) <==> AllWalkable(base, done) && written
    ensures AllWritten(tx, pkg, done) && written ==> AllWritten(tx.(entries := entries), pkg, done + [c])
  {
    var key := ChannelRow(pkg, c);
    assert c in done + [c] && forall d :: d in done + [c] <==> d in done || d == c;
    assert HeadChain(tx, c.currentCsv) == HeadChain(base, c.currentCsv);
    if AllWritten(tx, pkg, done) && written {
      WrittenNew(tx, entries, key);
      forall d | d in done
        ensures Written(tx.(entries := entries), ChannelRow(pkg, d))
      {
        WrittenKept(tx, entries, ChannelRow(pkg, d), key);
      }
    }
  }

  method WriteChannels(base: Db, pkg: string, channels: seq<PackageChannel>) returns (tx: Db, ok: bool)
    requires DistinctNames(channels)
    requires forall c | c in channels ::
               ChannelRow(pkg, c) in base.channels && base.channels[ChannelRow(pkg, c)] == c.currentCsv
    requires forall i | i in base.entries :: base.entries[i].key.pkg != pkg
    ensures tx == base.(entries := tx.entries)
    ensures ok <==> AllWalkable(base, channels)
    ensures OnlyThese(base.entries, tx.entries, pkg, channels)
    ensures ok ==> AllWritten(tx, pkg, channels)
  {
    tx, ok := base, true;
    for n := 0 to |channels|
      invariant tx == base.(entries := tx.entries)
      invariant ok <==> AllWalkable(base, channels[..n])
      invariant OnlyThese(base.entries, tx.entries, pkg, channels[..n])
      invariant ok ==> AllWritten(tx, pkg, channels[..n])
    {
      var c := channels[n];
      var key := ChannelRow(pkg, c);
      var entries, written := WriteChannel(tx, key, c.currentCsv);
      assert channels[..n + 1] == channels[..n] + [c];
      assert forall d | d in channels[..n] :: d.name != c.name;
      ChannelAdded(base, tx, entries, pkg, channels[..n], c, written);
      tx := tx.(entries := entries);
      ok := ok && written;
    }
    assert channels[..|channels|] == channels;
  }

  lemma LoadedParts(db: Db, m: Manifest, tx: Db)
    requires Insertable(db.bundles, Kept(m.channels, db.deprecated))
    requires var base := WithRows(RmPackage(db, m.pkg), m, Kept(m.channels, db.deprecated));
             && tx == base.(entries := tx.entries)
             && OnlyThese(base.entries, tx.entries, m.pkg, Kept(m.channels, db.deprecated))
    requires AllWritten(tx, m.pkg, Kept(m.channels, db.deprecated))
    ensures Loaded(db, m, tx)
  {
    var kept, clean := Kept(m.channels, db.deprecated), RmPackage(db, m.pkg);
    RmPackageEffect(db, m.pkg);
    assert tx.packages == db.packages[m.pkg := DefaultOf(m, kept)];
    forall i | i in db.entries && db.entries[i].key.pkg != m.pkg
      ensures HasRow(tx.entries, i, db.entries[i])
    {
      assert HasRow(tx.entries, i, clean.entries[i]);
    }
    forall i | i in tx.entries && i !in clean.entries
      ensures tx.entries[i].key in ChannelTable(m.pkg, kept)
    {
      ChannelTableRows(m.pkg, kept);
    }
  }

  /** After a load the package has exactly its retained channels, with the declared heads; others are the same. */
  lemma LoadedTables(db: Db, m: Manifest, db': Db)
    requires Loadable(db, m) && Loaded(db, m, db')
    ensures forall i | Retained(db, m, i) ::
              var key := ChannelKey(m.channels[i].name, m.pkg);
              key in db'.channels && db'.channels[key] == m.channels[i].currentCsv
    ensures forall key | key in db'.channels && key.pkg == m.pkg ::
              exists i :: Retained(db, m, i) && m.channels[i].name == key.name
    ensures forall key: ChannelKey | key.pkg != m.pkg ::
              && (key in db'.channels <==> key in db.channels)
              && (key in db.channels ==> db'.channels[key] == db.channels[key])
    ensures forall i | i in db'.entries && db'.entries[i].key.pkg == m.pkg :: db'.entries[i].key in db'.channels
  {
    var kept := Kept(m.channels, db.deprecated);
    KeptExactly(db, m);
    ChannelTableRows(m.pkg, kept);
  }

  /** AddPackageChannels up to its commit: succeeds exactly on a loadable manifest. */
  method LoadPackage(db: Db, m: Manifest) returns (tx: Db, ok: bool)
    ensures ok <==> Loadable(db, m)
    ensures ok ==> Loaded(db, m, tx)
    ensures ok <==> && DistinctKept(m.channels, db.deprecated) && KeepsDefault(db, m)
                    && forall i | Retained(db, m, i) :: HeadChain(db, m.channels[i].currentCsv).Some?
    ensures ok ==> m.pkg in tx.packages && tx.packages[m.pkg] == Some(DeclaredDefault(m))
  {
    LoadableIff(db, m);
    DefaultIsDeclared(db, m);
    var clean := RmPackage(db, m.pkg);
    var channels;
    tx, channels, ok := AddChannelRows(clean, m);
    if !ok {
      return;
    }
    ChannelTableRows(m.pkg, channels);
    ghost var base := tx;
    tx, ok := WriteChannels(tx, m.pkg, channels);
    assert forall c | c in channels :: HeadChain(base, c.currentCsv) == HeadChain(db, c.currentCsv);
    if ok {
      LoadedParts(db, m, tx);
    }
  }
}
