/** From the database to the in-memory model: pkg/sqlite/query.go, ListBundles, and pkg/sqlite/conversion.go. */
module Conversion {
  import opened Semver
  import opened Tables
  import opened ListQuery
  import M = Model

  /** A row of the list query, without the joined dependencies and properties. */
  datatype QueryRow = QueryRow(key: ChannelKey, name: string, version: VersionText, path: string,
                               replacesName: string, skips: seq<string>)

  /** What ListBundles tells bundles apart by; the package is not part of it. */
  datatype ListKey = ListKey(name: string, version: VersionText, path: string, channel: string)

  function KeyFor(row: QueryRow): ListKey {
    ListKey(row.name, row.version, row.path, row.key.name)
  }

  ghost predicate IsRowOf(db: Db, row: QueryRow) {
    && row.name in db.bundles && HasEntry(db, row.key, row.name)
    && row.version == db.bundles[row.name].version && row.path == db.bundles[row.name].path
    && row.replacesName == (match QueryReplaces(db.entries, row.key, row.name) case None => "" case Some(r) => r)
    && multiset(row.skips) == QuerySkips(db.entries, row.key, row.name)
  }

  /** The query yields rows for exactly the bundles with an entry; joins may repeat a row. */
  ghost predicate IsQueryResult(db: Db, rows: seq<QueryRow>) {
    && (forall row | row in rows :: IsRowOf(db, row))
    && (forall key, name | name in db.bundles && HasEntry(db, key, name) ::
          exists row :: row in rows && row.key == key && row.name == name)
    && (forall a, b | a in rows && b in rows && a.key == b.key && a.name == b.name :: a == b)
  }

  /** What ListBundles makes of a query result: of the rows with one key, the first. */
  ghost predicate IsListing(rows: seq<QueryRow>, listed: map<ListKey, QueryRow>) {
    && (forall row | row in rows :: KeyFor(row) in listed)
    && (forall k | k in listed :: exists n: nat :: IsFirst(rows, k, n) && listed[k] == rows[n])
  }

  ghost predicate IsFirst(rows: seq<QueryRow>, k: ListKey, n: nat) {
    n < |rows| && KeyFor(rows[n]) == k && forall m | 0 <= m < n :: KeyFor(rows[m]) != k
  }

  /** Rows that ListBundles takes for the same bundle. */
  ghost predicate Alike(a: QueryRow, b: QueryRow) {
    a.name == b.name && a.version == b.version && a.path == b.path && a.key.name == b.key.name
  }

  /** The listed rows are those without an alike row before them. */
  ghost predicate ListedOnce(rows: seq<QueryRow>, listed: set<QueryRow>) {
    && (forall row | row in listed :: exists n: nat :: n < |rows| && rows[n] == row && NoneAlike(rows, n))
    && (forall n: nat | n < |rows| && NoneAlike(rows, n) :: rows[n] in listed)
  }

  ghost predicate NoneAlike(rows: seq<QueryRow>, n: nat)
    requires n < |rows|
  {
    forall m | 0 <= m < n :: !Alike(rows[m], rows[n])
  }

  lemma ListingOnce(rows: seq<QueryRow>, listed: map<ListKey, QueryRow>)
    requires IsListing(rows, listed)
    ensures ListedOnce(rows, listed.Values)
  {
    assert forall a, b :: Alike(a, b) <==> KeyFor(a) == KeyFor(b);
    forall n: nat | n < |rows| && NoneAlike(rows, n)
      ensures rows[n] in listed.Values
    {
      var k := KeyFor(rows[n]);
      var m: nat :| IsFirst(rows, k, m) && listed[k] == rows[m];
      assert Alike(rows[m], rows[n]) && m <= n;
    }
  }

  method ListBundles(rows: seq<QueryRow>) returns (listed: map<ListKey, QueryRow>)
    ensures IsListing(rows, listed) && ListedOnce(rows, listed.Values)
  {
    listed := map[];
    for n := 0 to |rows|
      invariant forall i | 0 <= i < n :: KeyFor(rows[i]) in listed
      invariant forall k | k in listed :: exists m: nat :: m < n && IsFirst(rows, k, m) && listed[k] == rows[m]
    {
      if KeyFor(rows[n]) !in listed {
        assert IsFirst(rows, KeyFor(rows[n]), n);
        listed := listed[KeyFor(rows[n]) := rows[n]];
      }
    }
    ListingOnce(rows, listed);
  }

  function ToBundle(row: QueryRow): M.Bundle<string> {
    M.Bundle(row.name, row.replacesName, row.skips, row.path)
  }

  type Channels = map<ChannelKey, M.Channel<string>>

  /** The channel holds exactly the listed bundles that carry its key. */
  ghost predicate Filed(listed: set<QueryRow>, key: ChannelKey, c: M.Channel<string>) {
    && c.name == key.name
    && (forall row | row in listed && row.key == key :: row.name in c.bundles)
    && (forall name | name in c.bundles ::
          exists row :: row in listed && row.key == key && row.name == name &&
                         c.bundles[name] == M.Bundle(name, row.replacesName, row.skips, row.path))
  }

  function EmptyChannels(db: Db): Channels {
    map key | key in db.channels && key.pkg in db.packages :: M.Channel(key.name, map[])
  }

  /** Every channel with a package is in the model, without bundles at first. */
  lemma EmptyChannelsFacts(db: Db, key: ChannelKey)
    ensures key in EmptyChannels(db) <==> key in db.channels && key.pkg in db.packages
    ensures key in EmptyChannels(db) ==> Filed({}, key, EmptyChannels(db)[key])
  {
  }

  ghost function Taken(listed: map<ListKey, QueryRow>, rest: set<ListKey>): set<QueryRow> {
    set k | k in listed && k !in rest :: listed[k]
  }

  lemma TakenOneMore(listed: map<ListKey, QueryRow>, rest: set<ListKey>, k: ListKey)
    requires k in rest && k in listed
    ensures Taken(listed, rest - {k}) == Taken(listed, rest) + {listed[k]}
  {
  }

  lemma TakenAll(listed: map<ListKey, QueryRow>)
    ensures Taken(listed, {}) == listed.Values
  {
    forall row | row in listed.Values
      ensures row in Taken(listed, {})
    {
      var k :| k in listed && listed[k] == row;
    }
  }

  /** A listed bundle of a package or channel without a row is an error. */
  method PopulateChannels(db: Db, listed: map<ListKey, QueryRow>) returns (channels: Channels, ok: bool)
    ensures ok <==> forall k | k in listed :: listed[k].key in EmptyChannels(db)
    ensures ok ==> channels.Keys == EmptyChannels(db).Keys
    ensures ok ==> forall key | key in channels :: Filed(listed.Values, key, channels[key])
  {
    channels := EmptyChannels(db);
    var rest := listed.Keys;
    assert Taken(listed, rest) == {};
    while rest != {}
      invariant rest <= listed.Keys
      invariant channels.Keys == EmptyChannels(db).Keys
      invariant forall k | k in listed && k !in rest :: listed[k].key in EmptyChannels(db)
      invariant forall key | key in channels :: Filed(Taken(listed, rest), key, channels[key])
      decreases |rest|
    {
      var k :| k in rest;
      var row := listed[k];
      if row.key !in channels {
        return channels, false;
      }
      var c := channels[row.key];
      ghost var before := channels;
      channels := channels[row.key := c.(bundles := c.bundles[row.name := ToBundle(row)])];
      FiledOneMore(before, channels, Taken(listed, rest), row);
      TakenOneMore(listed, rest, k);
      rest := rest - {k};
    }
    TakenAll(listed);
    ok := true;
  }

  lemma FiledOneMore(before: Channels, channels: Channels, done: set<QueryRow>, row: QueryRow)
    requires row.key in before && forall key | key in before :: Filed(done, key, before[key])
    requires var c := before[row.key];
             channels == before[row.key := c.(bundles := c.bundles[row.name := ToBundle(row)])]
    ensures forall key | key in channels :: Filed(done + {row}, key, channels[key])
  {
    forall key | key in channels
      ensures Filed(done + {row}, key, channels[key])
    {
      assert Filed(done, key, before[key]);
      forall name | name in channels[key].bundles
        ensures exists r ::
                  r in done + {row} && r.key == key && r.name == name && channels[key].bundles[name] == ToBundle(r)
      {
        if key == row.key && name == row.name {
          assert row in done + {row};
        } else {
          var r :| r in done && r.key == key && r.name == name && before[key].bundles[name] == ToBundle(r);
          assert r in done + {row};
        }
      }
    }
  }
}
