/** When the in-memory model finds the head that the database records for a channel. */
module HeadAgreement {
  import opened Tables
  import opened ChannelRows
  import opened ReplacesLoader
  import opened ListQuery
  import opened ReadBack
  import opened Conversion
  import opened Common
  import M = Model

  /** One way the conversion may go for a channel: the query returns its rows in any order. */
  ghost predicate Outcome(db: Db, rows: seq<QueryRow>, listed: map<ListKey, QueryRow>, key: ChannelKey,
                          c: M.Channel<string>) {
    IsQueryResult(db, rows) && IsListing(rows, listed) && Filed(listed.Values, key, c)
  }

  /** The bundle is in no channel of the same name of another package. */
  ghost predicate Unshared(db: Db, key: ChannelKey, name: string) {
    forall other: ChannelKey | other.name == key.name && HasEntry(db, other, name) :: other == key
  }

  /** The bundle has a row and an entry in the channel. */
  ghost predicate InChannel(db: Db, key: ChannelKey, name: string) {
    name in db.bundles && HasEntry(db, key, name)
  }

  // ---- What the model channel holds ------------------------------------------------------------

  lemma ListedIsRow(db: Db, rows: seq<QueryRow>, listed: map<ListKey, QueryRow>, row: QueryRow)
    requires IsQueryResult(db, rows) && IsListing(rows, listed) && row in listed.Values
    ensures row in rows && IsRowOf(db, row) && KeyFor(row) in listed && listed[KeyFor(row)] == row
  {
    var k :| k in listed && listed[k] == row;
    var n: nat :| IsFirst(rows, k, n) && listed[k] == rows[n];
  }

  /** The model channel holds bundles of the channel only, with the edges the query gives them. */
  lemma BundleFromRow(db: Db, rows: seq<QueryRow>, listed: map<ListKey, QueryRow>, key: ChannelKey,
                      c: M.Channel<string>, name: string)
    returns (row: QueryRow)
    requires Outcome(db, rows, listed, key, c) && name in c.bundles
    ensures row in rows && IsRowOf(db, row) && row.key == key && row.name == name && c.bundles[name] == ToBundle(row)
    ensures KeyFor(row) in listed && listed[KeyFor(row)] == row && InChannel(db, key, name)
  {
    row :| row in listed.Values && row.key == key && row.name == name && c.bundles[name] == ToBundle(row);
    ListedIsRow(db, rows, listed, row);
  }

  /** It holds every unshared one of them. */
  lemma UnsharedIsHeld(db: Db, rows: seq<QueryRow>, listed: map<ListKey, QueryRow>, key: ChannelKey,
                       c: M.Channel<string>, name: string)
    requires Outcome(db, rows, listed, key, c) && InChannel(db, key, name) && Unshared(db, key, name)
    ensures name in c.bundles
  {
    var row :| row in rows && row.key == key && row.name == name;
    var kept := listed[KeyFor(row)];
    ListedIsRow(db, rows, listed, kept);
    assert IsRowOf(db, row);
    assert kept.key == key;
  }

  // ---- Edges -----------------------------------------------------------------------------------

  /** Bundle b declares to replace or skip x. */
  ghost predicate DeclaresEdge(bundles: map<string, BundleRow>, b: string, x: string) {
    b in bundles && ((x != "" && x == bundles[b].replacesName) || x in bundles[b].skips)
  }

  /** The edges of a model bundle are the declared ones on the walked chain, and none elsewhere. */
  lemma RowEdges(db: Db, row: QueryRow, chain: seq<string>, x: string)
    requires IsRowOf(db, row)
    requires row.name in chain ==>
               && QueryReplaces(db.entries, row.key, row.name) == Declared(db.bundles[row.name].replacesName)
               && QuerySkips(db.entries, row.key, row.name) == multiset(db.bundles[row.name].skips)
    requires row.name !in chain ==>
               && QueryReplaces(db.entries, row.key, row.name) == None
               && QuerySkips(db.entries, row.key, row.name) == multiset{}
    ensures x in M.Edges(ToBundle(row)) <==> row.name in chain && DeclaresEdge(db.bundles, row.name, x)
  {
    PermutedElements(row.skips, if row.name in chain then db.bundles[row.name].skips else [], x);
  }

  lemma BundleEdges(db: Db, rows: seq<QueryRow>, listed: map<ListKey, QueryRow>, key: ChannelKey, c: M.Channel<string>,
                    name: string, x: string)
    requires AllChannelsWritten(db) && key in db.channels && Outcome(db, rows, listed, key, c) && name in c.bundles
    ensures c.bundles[name].name == name
    ensures x in M.Edges(c.bundles[name]) <==> name in ChainOf(db, key) && DeclaresEdge(db.bundles, name, x)
  {
    var row := BundleFromRow(db, rows, listed, key, c, name);
    IndexAgreesWithDeclaration(db, key, name);
    RowEdges(db, row, ChainOf(db, key), x);
  }

  /** A bundle of the model channel has no incoming edge exactly if no held bundle of the chain declares one. */
  ghost predicate Targeted(db: Db, key: ChannelKey, c: M.Channel<string>, x: string)
    requires Written(db, key)
  {
    exists b :: b in c.bundles && b in ChainOf(db, key) && DeclaresEdge(db.bundles, b, x)
  }

  lemma SourceIff(db: Db, rows: seq<QueryRow>, listed: map<ListKey, QueryRow>, key: ChannelKey, c: M.Channel<string>,
                  x: string)
    requires AllChannelsWritten(db) && key in db.channels && Outcome(db, rows, listed, key, c)
    ensures x in M.Sources(c) <==> x in c.bundles && !Targeted(db, key, c, x)
  {
    forall b | b in c.bundles
      ensures c.bundles[b].name == b
      ensures x in M.Edges(c.bundles[b]) <==> b in ChainOf(db, key) && DeclaresEdge(db.bundles, b, x)
    {
      BundleEdges(db, rows, listed, key, c, b, x);
    }
    assert x in M.Incoming(c) <==> Targeted(db, key, c, x);
  }

  // ---- The chain -------------------------------------------------------------------------------

  /** Every bundle of the walked chain is in the channel. */
  lemma ChainInChannel(db: Db, key: ChannelKey, b: string)
    requires AllChannelsWritten(db) && key in db.channels && b in ChainOf(db, key)
    ensures InChannel(db, key, b)
  {
    var n: nat :| n < |ChainOf(db, key)| && ChainOf(db, key)[n] == b;
    LinkFacts(db, key);
    LaidOut(db);
    var layout := Layouts(db)[key];
    LinkHasEntry(db, key, layout, Real(n));
  }

  lemma HeadInChain(db: Db, key: ChannelKey)
    requires AllChannelsWritten(db) && key in db.channels
    ensures db.channels[key] in ChainOf(db, key) && InChannel(db, key, db.channels[key])
  {
    LinkFacts(db, key);
    ChainInChannel(db, key, db.channels[key]);
  }

  /** On the chain nothing replaces the head, so only a skip can lead to it. */
  lemma HeadNotReplaced(db: Db, key: ChannelKey, b: string)
    requires Written(db, key) && b in ChainOf(db, key)
    ensures DeclaresEdge(db.bundles, b, db.channels[key]) <==>
              b in db.bundles && db.channels[key] in db.bundles[b].skips
  {
    var n: nat :| n < |ChainOf(db, key)| && ChainOf(db, key)[n] == b;
    LinkFacts(db, key);
    LinkSuccessor(db, key, n);
  }

  /** An entry's bundle is the head, or the bundle of a later link, or a skip of some link. */
  lemma EntryLink(entries: Entries, key: ChannelKey, layout: Layout, name: string, i: nat)
    returns (n: nat, skipped: bool)
    requires ChannelLaid(entries, key, layout) && InGroup(entries, key, name, i)
    ensures n < |layout.links|
    ensures if skipped then name in layout.links[n].skips else name == layout.links[n].name
  {
    var place := PlaceOfEntry(entries, key, layout, i);
    n, skipped := place.n, place.Dummy?;
  }

  /** Every entry's bundle other than the head is replaced or skipped by a bundle of the walked chain. */
  lemma EntryIsTargeted(db: Db, key: ChannelKey, name: string) returns (from: string)
    requires AllChannelsWritten(db) && key in db.channels && HasEntry(db, key, name) && name != db.channels[key]
    ensures from in ChainOf(db, key) && DeclaresEdge(db.bundles, from, name)
  {
    var i :| InGroup(db.entries, key, name, i);
    LaidOut(db);
    var n, skipped := EntryLink(db.entries, key, Layouts(db)[key], name, i);
    LinkFacts(db, key);
    if skipped {
      from := ChainOf(db, key)[n];
    } else {
      from := ChainOf(db, key)[n - 1];
      LinkSuccessor(db, key, n - 1);
    }
  }

  // ---- When the heads agree --------------------------------------------------------------------

  /** Some bundle of the chain skips the head. */
  ghost predicate HeadSkipped(db: Db, key: ChannelKey)
    requires Written(db, key)
  {
    exists b :: b in ChainOf(db, key) && b in db.bundles && db.channels[key] in db.bundles[b].skips
  }

  /** A bundle of the chain declares an edge to x and is in the model channel whenever x is. */
  ghost predicate SurelyTargeted(db: Db, key: ChannelKey, x: string)
    requires Written(db, key)
  {
    exists b :: b in ChainOf(db, key) && DeclaresEdge(db.bundles, b, x) && (b == x || Unshared(db, key, b))
  }

  /**
    What the database must satisfy for the model to find the recorded head: the head is not skipped and not shared,
    and every other bundle of the channel is the target of a bundle of the chain that is not shared, or of itself.
  */
  ghost predicate HeadAssured(db: Db, key: ChannelKey)
    requires Written(db, key)
  {
    && !HeadSkipped(db, key) && Unshared(db, key, db.channels[key])
    && forall x | InChannel(db, key, x) && x != db.channels[key] :: SurelyTargeted(db, key, x)
  }

  lemma HeadUntargeted(db: Db, key: ChannelKey, c: M.Channel<string>)
    requires AllChannelsWritten(db) && key in db.channels && !HeadSkipped(db, key)
    ensures !Targeted(db, key, c, db.channels[key])
  {
    forall b | b in ChainOf(db, key)
      ensures !DeclaresEdge(db.bundles, b, db.channels[key])
    {
      HeadNotReplaced(db, key, b);
    }
  }

  lemma OthersTargeted(db: Db, rows: seq<QueryRow>, listed: map<ListKey, QueryRow>, key: ChannelKey,
                       c: M.Channel<string>, x: string)
    requires AllChannelsWritten(db) && key in db.channels && Outcome(db, rows, listed, key, c)
    requires x in c.bundles && SurelyTargeted(db, key, x)
    ensures Targeted(db, key, c, x)
  {
    var b :| b in ChainOf(db, key) && DeclaresEdge(db.bundles, b, x) && (b == x || Unshared(db, key, b));
    if b != x {
      ChainInChannel(db, key, b);
      UnsharedIsHeld(db, rows, listed, key, c, b);
    }
  }

  lemma AssuredHead(db: Db, rows: seq<QueryRow>, listed: map<ListKey, QueryRow>, key: ChannelKey, c: M.Channel<string>)
    requires AllChannelsWritten(db) && key in db.channels && Outcome(db, rows, listed, key, c) && HeadAssured(db, key)
    ensures M.Sources(c) == {db.channels[key]}
  {
    var head := db.channels[key];
    HeadInChain(db, key);
    UnsharedIsHeld(db, rows, listed, key, c, head);
    HeadUntargeted(db, key, c);
    SourceIff(db, rows, listed, key, c, head);
    forall x | x in c.bundles && x != head
      ensures x !in M.Sources(c)
    {
      var row := BundleFromRow(db, rows, listed, key, c, x);
      OthersTargeted(db, rows, listed, key, c, x);
      SourceIff(db, rows, listed, key, c, x);
    }
  }

  // ---- Outcomes --------------------------------------------------------------------------------

  lemma {:induction false} ListOfBag(bag: multiset<string>) returns (list: seq<string>)
    ensures multiset(list) == bag
    decreases |bag|
  {
    if bag == multiset{} {
      list := [];
    } else {
      var x :| x in bag;
      var rest := ListOfBag(bag - multiset{x});
      list := rest + [x];
    }
  }

  ghost predicate Lists(list: seq<string>, bag: multiset<string>) {
    multiset(list) == bag
  }

  /** The row of a bundle in a channel. */
  ghost function RowFor(db: Db, key: ChannelKey, name: string): (row: QueryRow)
    requires InChannel(db, key, name)
    ensures IsRowOf(db, row) && row.key == key && row.name == name
  {
    var skips := QuerySkips(db.entries, key, name);
    assert exists list :: Lists(list, skips) by {
      var list := ListOfBag(skips);
      assert Lists(list, skips);
    }
    var list :| Lists(list, skips);
    QueryRow(key, name, db.bundles[name].version, db.bundles[name].path,
             match QueryReplaces(db.entries, key, name) case None => "" case Some(r) => r, list)
  }

  ghost function AllRows(db: Db): set<QueryRow> {
    set i | i in db.entries && InChannel(db, db.entries[i].key, db.entries[i].bundle) ::
      RowFor(db, db.entries[i].key, db.entries[i].bundle)
  }

  lemma {:induction false} ListOfSet<T>(s: set<T>) returns (list: seq<T>)
    ensures forall x :: x in list <==> x in s
    decreases |s|
  {
    list := [];
    if s != {} {
      var x :| x in s;
      var rest := ListOfSet(s - {x});
      list := rest + [x];
    }
  }

  /** Any list of all the rows is a query result. */
  lemma AllRowsResult(db: Db, rows: seq<QueryRow>)
    requires forall row :: row in rows <==> row in AllRows(db)
    ensures IsQueryResult(db, rows)
  {
    forall key, name | name in db.bundles && HasEntry(db, key, name)
      ensures exists row :: row in rows && row.key == key && row.name == name
    {
      var i: nat :| InGroup(db.entries, key, name, i);
      assert RowFor(db, key, name) in AllRows(db);
      assert RowFor(db, key, name) in rows;
    }
  }

  lemma {:induction false} ListingOf(rows: seq<QueryRow>) returns (listed: map<ListKey, QueryRow>)
    ensures IsListing(rows, listed)
  {
    listed := map[];
    for n := 0 to |rows|
      invariant forall i | 0 <= i < n :: KeyFor(rows[i]) in listed
      invariant forall k | k in listed :: exists m: nat :: m < n && IsFirst(rows, k, m) && listed[k] == rows[m]
    {
      if KeyFor(rows[n]) !in listed {
        assert IsFirst(rows, KeyFor(rows[n]), n);
        listed := listed[KeyFor(rows[n]) := rows[n]];
      }
    }
  }

  lemma FiledOf(listed: set<QueryRow>, key: ChannelKey) returns (c: M.Channel<string>)
    ensures Filed(listed, key, c)
  {
    var mine := set row | row in listed && row.key == key;
    c := M.Channel(key.name, map name | name in NamesOf(mine) :: ToBundle(Named(mine, name)));
    forall name | name in c.bundles
      ensures exists row :: row in listed && row.key == key && row.name == name && c.bundles[name] == ToBundle(row)
    {
      var row := Named(mine, name);
      assert row in listed && row.key == key && row.name == name && c.bundles[name] == ToBundle(row);
    }
  }

  ghost function NamesOf(rows: set<QueryRow>): set<string> {
    set row | row in rows :: row.name
  }

  ghost function Named(rows: set<QueryRow>, name: string): (row: QueryRow)
    requires name in NamesOf(rows)
    ensures row in rows && row.name == name
  {
    var row :| row in rows && row.name == name;
    row
  }

  /** Rows of the first kind come before all others, of the second kind before the rest. */
  lemma OutcomeWith(db: Db, key: ChannelKey, first: set<QueryRow>, second: set<QueryRow>)
    returns (rows: seq<QueryRow>, listed: map<ListKey, QueryRow>, c: M.Channel<string>)
    requires first <= AllRows(db) && second <= AllRows(db)
    ensures Outcome(db, rows, listed, key, c)
    ensures forall row | row in first :: KeyFor(row) in listed && listed[KeyFor(row)] in first
    ensures forall row | row in second :: KeyFor(row) in listed && listed[KeyFor(row)] in first + second
  {
    var a := ListOfSet(first);
    var b := ListOfSet(second);
    var rest := ListOfSet(AllRows(db) - first - second);
    rows := a + b + rest;
    AllRowsResult(db, rows);
    listed := ListingOf(rows);
    c := FiledOf(listed.Values, key);
    assert rows[..|a|] == a && rows[..|a + b|] == a + b;
    forall row | row in first
      ensures KeyFor(row) in listed && listed[KeyFor(row)] in first
    {
      FirstPart(rows, listed, |a|, row);
    }
    forall row | row in second
      ensures KeyFor(row) in listed && listed[KeyFor(row)] in first + second
    {
      FirstPart(rows, listed, |a + b|, row);
    }
  }

  /** A row in the first part of the list is listed by a row of that part. */
  lemma FirstPart(rows: seq<QueryRow>, listed: map<ListKey, QueryRow>, n: nat, row: QueryRow)
    requires IsListing(rows, listed) && n <= |rows| && row in rows[..n]
    ensures KeyFor(row) in listed && listed[KeyFor(row)] in rows[..n]
  {
    var i: nat :| i < n && rows[i] == row;
    var m: nat :| IsFirst(rows, KeyFor(row), m) && listed[KeyFor(row)] == rows[m];
  }

  // ---- The condition is exact ------------------------------------------------------------------

  ghost function OwnRows(db: Db, key: ChannelKey): set<QueryRow> {
    set row | row in AllRows(db) && row.key == key
  }

  lemma RowInAll(db: Db, key: ChannelKey, name: string)
    requires InChannel(db, key, name)
    ensures RowFor(db, key, name) in AllRows(db)
  {
    var i: nat :| InGroup(db.entries, key, name, i);
  }

  /** A listed row of the channel is a bundle of the model channel. */
  lemma ListedIsHeld(db: Db, rows: seq<QueryRow>, listed: map<ListKey, QueryRow>, key: ChannelKey, c: M.Channel<string>,
                     row: QueryRow)
    requires Outcome(db, rows, listed, key, c) && KeyFor(row) in listed && listed[KeyFor(row)].key == key
    ensures row.name in c.bundles
  {
    var kept := listed[KeyFor(row)];
    assert kept in listed.Values;
    ListedIsRow(db, rows, listed, kept);
  }

  /** If the channel's own rows come first, the model channel holds them all. */
  lemma OwnFirst(db: Db, key: ChannelKey)
    returns (rows: seq<QueryRow>, listed: map<ListKey, QueryRow>, c: M.Channel<string>)
    ensures Outcome(db, rows, listed, key, c) && forall name | InChannel(db, key, name) :: name in c.bundles
  {
    rows, listed, c := OutcomeWith(db, key, OwnRows(db, key), {});
    forall name | InChannel(db, key, name)
      ensures name in c.bundles
    {
      RowInAll(db, key, name);
      ListedIsHeld(db, rows, listed, key, c, RowFor(db, key, name));
    }
  }

  /** If the rows of other channels come first, with at most one exception, shared bundles are lost. */
  lemma OthersFirst(db: Db, key: ChannelKey, exception: set<QueryRow>)
    returns (rows: seq<QueryRow>, listed: map<ListKey, QueryRow>, c: M.Channel<string>)
    requires exception <= OwnRows(db, key)
    ensures Outcome(db, rows, listed, key, c)
    ensures forall row | row in exception :: row.name in c.bundles
    ensures forall name | name in c.bundles ::
              Unshared(db, key, name) || exists row :: row in exception && row.name == name
  {
    rows, listed, c := OutcomeWith(db, key, exception, AllRows(db) - OwnRows(db, key));
    forall row | row in exception
      ensures row.name in c.bundles
    {
      ListedIsHeld(db, rows, listed, key, c, row);
    }
    forall name | name in c.bundles && !Unshared(db, key, name)
      ensures exists row :: row in exception && row.name == name
    {
      SharedIsLost(db, rows, listed, key, c, exception, name);
    }
  }

  lemma SameListKey(db: Db, a: QueryRow, b: QueryRow)
    requires IsRowOf(db, a) && IsRowOf(db, b) && a.name == b.name && a.key.name == b.key.name
    ensures KeyFor(a) == KeyFor(b)
  {
  }

  lemma SharedIsLost(db: Db, rows: seq<QueryRow>, listed: map<ListKey, QueryRow>, key: ChannelKey, c: M.Channel<string>,
                     exception: set<QueryRow>, name: string)
    requires Outcome(db, rows, listed, key, c) && name in c.bundles && !Unshared(db, key, name)
    requires exception <= OwnRows(db, key)
    requires forall row | row in AllRows(db) - OwnRows(db, key) ::
               KeyFor(row) in listed && listed[KeyFor(row)] in exception + (AllRows(db) - OwnRows(db, key))
    ensures exists row :: row in exception && row.name == name
  {
    var other: ChannelKey :| other.name == key.name && HasEntry(db, other, name) && other != key;
    var row := BundleFromRow(db, rows, listed, key, c, name);
    RowInAll(db, other, name);
    var lost := RowFor(db, other, name);
    assert lost in AllRows(db) - OwnRows(db, key);
    SameListKey(db, lost, row);
    assert row in exception;
  }

  ghost predicate AlwaysFound(db: Db, key: ChannelKey)
    requires key in db.channels
  {
    forall rows, listed, c | Outcome(db, rows, listed, key, c) :: M.Sources(c) == {db.channels[key]}
  }

  /** A head that is skipped is not found if all the channel's bundles are listed. */
  lemma SkippedHeadMissed(db: Db, key: ChannelKey)
    requires AllChannelsWritten(db) && key in db.channels && HeadSkipped(db, key)
    ensures !AlwaysFound(db, key)
  {
    var rows, listed, c := OwnFirst(db, key);
    var head := db.channels[key];
    var b :| b in ChainOf(db, key) && b in db.bundles && head in db.bundles[b].skips;
    ChainInChannel(db, key, b);
    assert Targeted(db, key, c, head);
    SourceIff(db, rows, listed, key, c, head);
  }

  /** A head that is shared is not found if the other channel's row comes first. */
  lemma SharedHeadMissed(db: Db, key: ChannelKey)
    requires AllChannelsWritten(db) && key in db.channels && !Unshared(db, key, db.channels[key])
    ensures !AlwaysFound(db, key)
  {
    var rows, listed, c := OthersFirst(db, key, {});
    SourceIff(db, rows, listed, key, c, db.channels[key]);
  }

  /** A bundle that only shared bundles lead to is a second head if those are listed elsewhere. */
  lemma StrayHeadFound(db: Db, key: ChannelKey, x: string)
    requires AllChannelsWritten(db) && key in db.channels && InChannel(db, key, x) && x != db.channels[key]
    requires !SurelyTargeted(db, key, x)
    ensures !AlwaysFound(db, key)
  {
    var rows, listed, c := OthersFirstBut(db, key, x);
    HeldStrays(db, key, c, x);
    SourceIff(db, rows, listed, key, c, x);
  }

  lemma OthersFirstBut(db: Db, key: ChannelKey, x: string)
    returns (rows: seq<QueryRow>, listed: map<ListKey, QueryRow>, c: M.Channel<string>)
    requires InChannel(db, key, x)
    ensures Outcome(db, rows, listed, key, c) && x in c.bundles
    ensures forall name | name in c.bundles :: name == x || Unshared(db, key, name)
  {
    RowInAll(db, key, x);
    var own := RowFor(db, key, x);
    rows, listed, c := OthersFirst(db, key, {own});
    assert own in {own};
  }

  lemma HeldStrays(db: Db, key: ChannelKey, c: M.Channel<string>, x: string)
    requires Written(db, key) && !SurelyTargeted(db, key, x)
    requires forall name | name in c.bundles :: name == x || Unshared(db, key, name)
    ensures !Targeted(db, key, c, x)
  {
  }

  /**
    The model finds the recorded head, for every order in which the query may return its rows, if and only if the
    database assures it.
  */
  lemma TwoHeadsAgree(db: Db, key: ChannelKey)
    requires AllChannelsWritten(db) && key in db.channels
    ensures AlwaysFound(db, key) <==> HeadAssured(db, key)
  {
    if HeadAssured(db, key) {
      forall rows, listed, c | Outcome(db, rows, listed, key, c)
        ensures M.Sources(c) == {db.channels[key]}
      {
        AssuredHead(db, rows, listed, key, c);
      }
    } else if HeadSkipped(db, key) {
      SkippedHeadMissed(db, key);
    } else if !Unshared(db, key, db.channels[key]) {
      SharedHeadMissed(db, key);
    } else {
      var x :| InChannel(db, key, x) && x != db.channels[key] && !SurelyTargeted(db, key, x);
      StrayHeadFound(db, key, x);
    }
  }

  /** In a channel that shares no bundle the head is found exactly if it is not skipped; otherwise there is none. */
  lemma UnsharedHeads(db: Db, rows: seq<QueryRow>, listed: map<ListKey, QueryRow>, key: ChannelKey,
                      c: M.Channel<string>)
    requires AllChannelsWritten(db) && key in db.channels && Outcome(db, rows, listed, key, c)
    requires forall name | InChannel(db, key, name) :: Unshared(db, key, name)
    ensures M.Sources(c) == if HeadSkipped(db, key) then {} else {db.channels[key]}
  {
    forall x | InChannel(db, key, x) && x != db.channels[key]
      ensures SurelyTargeted(db, key, x)
    {
      var b := EntryIsTargeted(db, key, x);
      ChainInChannel(db, key, b);
    }
    if HeadSkipped(db, key) {
      NoneFound(db, rows, listed, key, c);
    } else {
      HeadInChain(db, key);
      AssuredHead(db, rows, listed, key, c);
    }
  }

  lemma NoneFound(db: Db, rows: seq<QueryRow>, listed: map<ListKey, QueryRow>, key: ChannelKey, c: M.Channel<string>)
    requires AllChannelsWritten(db) && key in db.channels && Outcome(db, rows, listed, key, c) && HeadSkipped(db, key)
    requires forall name | InChannel(db, key, name) :: Unshared(db, key, name)
    requires forall x | InChannel(db, key, x) && x != db.channels[key] :: SurelyTargeted(db, key, x)
    ensures M.Sources(c) == {}
  {
    forall x | x in c.bundles
      ensures x !in M.Sources(c)
    {
      SourceIff(db, rows, listed, key, c, x);
      if x == db.channels[key] {
        var b :| b in ChainOf(db, key) && b in db.bundles && x in db.bundles[b].skips;
        ChainInChannel(db, key, b);
        UnsharedIsHeld(db, rows, listed, key, c, b);
        assert Targeted(db, key, c, x);
      } else {
        var row := BundleFromRow(db, rows, listed, key, c, x);
        OthersTargeted(db, rows, listed, key, c, x);
      }
    }
  }

  /** Of two same-named channels with the same bundle only one gets it, whatever the order of the rows. */
  lemma ListedOnce(db: Db, rows: seq<QueryRow>, listed: map<ListKey, QueryRow>, key: ChannelKey, c: M.Channel<string>,
                   other: ChannelKey, c': M.Channel<string>, name: string)
    requires Outcome(db, rows, listed, key, c) && Outcome(db, rows, listed, other, c')
    requires key.name == other.name && key != other
    ensures !(name in c.bundles && name in c'.bundles)
  {
    if name in c.bundles && name in c'.bundles {
      var row := BundleFromRow(db, rows, listed, key, c, name);
      var row' := BundleFromRow(db, rows, listed, other, c', name);
      SameListKey(db, row, row');
    }
  }
}
