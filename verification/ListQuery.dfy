// The recursive query behind ListBundles (pkg/sqlite/query.go, listBundlesQuery), and what it computes on
// entries that a loader has laid out channel by channel.
module ListQuery {
  import opened Common
  import opened Tables
  import opened ChannelRows

  type Entries = map<nat, Entry>

  // ---- The query -------------------------------------------------------------------------------

  /** tip: the entries of globally minimal depth. */
  ghost function Tip(entries: Entries): set<nat> {
    set i | i in entries && forall j | j in entries :: entries[i].depth <= entries[j].depth
  }

  ghost predicate HasTarget(entries: Entries, i: nat) {
    i in entries && entries[i].replacesId.Some? && entries[i].replacesId.value in entries
  }

  ghost function Target(entries: Entries, i: nat): nat
    requires HasTarget(entries, i)
  {
    entries[i].replacesId.value
  }

  ghost predicate FollowsPointers(entries: Entries, s: set<nat>) {
    forall i | i in s && HasTarget(entries, i) :: Target(entries, i) in s
  }

  /** One round of the recursive select, repeated until it adds nothing. */
  ghost function Follow(entries: Entries, acc: set<nat>): (r: set<nat>)
    ensures acc <= r && FollowsPointers(entries, r)
    decreases entries.Keys - acc
  {
    var next := set i | i in acc && HasTarget(entries, i) :: Target(entries, i);
    if next <= acc then
      assert forall i | i in acc && HasTarget(entries, i) :: Target(entries, i) in next;
      acc
    else
      Follow(entries, acc + next)
  }

  /** The recursion computes the least set with its starting entries that follows pointers. */
  lemma {:induction false} FollowLeast(entries: Entries, acc: set<nat>, s: set<nat>)
    requires acc <= s && FollowsPointers(entries, s)
    ensures Follow(entries, acc) <= s
    decreases entries.Keys - acc
  {
    var next := set i | i in acc && HasTarget(entries, i) :: Target(entries, i);
    if !(next <= acc) {
      FollowLeast(entries, acc + next, s);
    }
  }

  /** replaces_entry: the entries reached from the tip. */
  ghost function ReplacesEntry(entries: Entries): (r: set<nat>)
    ensures Tip(entries) <= r && FollowsPointers(entries, r)
  {
    Follow(entries, Tip(entries))
  }

  ghost predicate InGroup(entries: Entries, key: ChannelKey, name: string, i: nat) {
    i in entries && entries[i].key == key && entries[i].bundle == name
  }

  ghost predicate HasEntry(db: Db, key: ChannelKey, name: string) {
    exists i: nat :: InGroup(db.entries, key, name, i)
  }

  ghost function ReplacedNames(entries: Entries, key: ChannelKey, name: string): set<string> {
    set i | i in ReplacesEntry(entries) && InGroup(entries, key, name, i) && HasTarget(entries, i) ::
      entries[Target(entries, i)].bundle
  }

  lemma {:induction false} GreatestExists(names: set<string>) returns (best: string)
    requires names != {}
    ensures best in names && forall x | x in names :: CompareStrings(x, best) <= 0
  {
    best :| best in names;
    if names != {best} {
      var other := GreatestExists(names - {best});
      if CompareStrings(best, other) <= 0 {
        best := other;
      } else {
        CompareStringsFlip(best, other);
        forall x | x in names
          ensures CompareStrings(x, best) <= 0
        {
          if x != best {
            CompareStringsTransitive(x, other, best);
          }
        }
      }
    }
  }

  /** replaces_bundle.replaces: the greatest replaced name of the group, if any. */
  ghost function QueryReplaces(entries: Entries, key: ChannelKey, name: string): (r: Option<string>) {
    var names := ReplacedNames(entries, key, name);
    if names == {} then None
    else
      assert exists x :: x in names && forall y | y in names :: CompareStrings(y, x) <= 0 by {
        var best := GreatestExists(names);
      }
      var best :| best in names && forall y | y in names :: CompareStrings(y, best) <= 0;
      Some(best)
  }

  /** skips_entry: the pointers off the replaces chains, with the names they lead to. */
  ghost function SkippedNames(entries: Entries, key: ChannelKey, name: string): map<nat, string> {
    map i | i in entries && InGroup(entries, key, name, i) && HasTarget(entries, i) && i !in ReplacesEntry(entries) ::
      entries[Target(entries, i)].bundle
  }

  ghost function SomeKey(m: map<nat, string>): (k: nat)
    requires m != map[]
    ensures k in m
  {
    var k :| k in m;
    k
  }

  ghost function Bag(m: map<nat, string>): multiset<string> {
    if m == map[] then multiset{}
    else
      var k := SomeKey(m);
      Bag(m - {k}) + multiset{m[k]}
  }

  lemma {:induction false} BagWithout(m: map<nat, string>, k: nat)
    requires k in m
    ensures Bag(m) == Bag(m - {k}) + multiset{m[k]}
    decreases |m|
  {
    var x := SomeKey(m);
    if x != k {
      var both := m - {x} - {k};
      assert both == m - {k} - {x};
      BagWithout(m - {x}, k);
      BagWithout(m - {k}, x);
      assert Bag(m) == Bag(both) + multiset{m[k]} + multiset{m[x]};
    }
  }

  lemma KeysInRest(m: map<nat, string>, ids: seq<nat>, n: nat)
    requires n + 1 == |ids| && forall i | i in m :: i in ids
    ensures forall i | i in m - {ids[n]} :: i in ids[..n]
  {
    forall i | i in m - {ids[n]}
      ensures i in ids[..n]
    {
      var j :| 0 <= j < |ids| && ids[j] == i;
      assert ids[..n][j] == i;
    }
  }

  /** Listing the keys of a map in any order lists its values. */
  lemma {:induction false} BagOfList(m: map<nat, string>, ids: seq<nat>, names: seq<string>, gone: set<string>)
    requires |ids| == |names|
    requires forall i, j | 0 <= i < j < |ids| :: ids[i] != ids[j]
    requires forall j | 0 <= j < |ids| :: if names[j] in gone
                                          then ids[j] !in m
                                          else ids[j] in m && m[ids[j]] == names[j]
    requires forall i | i in m :: i in ids
    ensures Bag(m) == multiset(Left(names, gone))
    decreases |ids|
  {
    if ids == [] {
      assert m == map[];
    } else {
      var n := |ids| - 1;
      var rest := m - {ids[n]};
      KeysInRest(m, ids, n);
      BagOfList(rest, ids[..n], names[..n], gone);
      assert Left(names, gone) == Left(names[..n], gone) + if names[n] in gone then [] else [names[n]];
      if names[n] in gone {
        assert rest == m;
      } else {
        BagWithout(m, ids[n]);
      }
    }
  }

  /** skips_bundle.skips: what group_concat collects, in no particular order. */
  ghost function QuerySkips(entries: Entries, key: ChannelKey, name: string): multiset<string> {
    Bag(SkippedNames(entries, key, name))
  }

  // ---- Entries laid out channel by channel -----------------------------------------------------

  /** The rows of a chain of links; those of the bundles that are gone have been taken out. */
  datatype Layout = Layout(links: seq<Link>, id: nat, gone: set<string>)

  ghost function PlaceId(layout: Layout, place: Place): nat
    requires IsPlace(layout.links, place)
  {
    IdOf(layout.links, place, layout.id)
  }

  ghost function NameAt(links: seq<Link>, place: Place): string
    requires IsPlace(links, place)
  {
    if place.Dummy? then links[place.n].skips[place.j] else links[place.n].name
  }

  ghost predicate IsKept(layout: Layout, place: Place) {
    IsPlace(layout.links, place) && NameAt(layout.links, place) !in layout.gone
  }

  /** The row points at one that is gone. */
  ghost predicate Unlinked(layout: Layout, place: Place)
    requires IsPlace(layout.links, place)
  {
    match place
    case Real(n) => n + 1 < |layout.links| && layout.links[n + 1].name in layout.gone
    case Dummy(_, _) => false
    case Extra(n, j) => layout.links[n].skips[j] in layout.gone
  }

  ghost function PlaceRow(key: ChannelKey, layout: Layout, place: Place): Entry
    requires IsPlace(layout.links, place)
  {
    var row := RowOf(ReplacesMode, key, layout.links, 0, layout.id, place);
    if Unlinked(layout, place) then row.(replacesId := None) else row
  }

  ghost predicate IsAt(layout: Layout, place: Place, i: nat) {
    IsKept(layout, place) && i == PlaceId(layout, place)
  }

  /** What lies below a bundle that is gone is gone too. */
  ghost predicate GoneBelow(layout: Layout) {
    forall m, n | 0 <= m < n < |layout.links| && layout.links[m].name in layout.gone ::
      layout.links[n].name in layout.gone
  }

  /** The channel's rows are those of the links, from depth 0, and every name heads one link at most. */
  ghost predicate ChannelLaid(entries: Entries, key: ChannelKey, layout: Layout) {
    && |layout.links| > 0 && layout.links[0].name !in layout.gone && GoneBelow(layout)
    && (forall place | IsKept(layout, place) :: HasRow(entries, PlaceId(layout, place), PlaceRow(key, layout, place)))
    && (forall i | i in entries && entries[i].key == key :: exists place :: IsAt(layout, place, i))
    && (forall m, n | 0 <= m < n < |layout.links| :: layout.links[m].name != layout.links[n].name)
  }

  ghost predicate AllLaid(entries: Entries, layouts: map<ChannelKey, Layout>) {
    && (forall i | i in entries :: entries[i].key in layouts)
    && (forall key | key in layouts :: ChannelLaid(entries, key, layouts[key]))
  }

  /** Rows as a loader leaves them. */
  lemma WholeLaid(entries: Entries, key: ChannelKey, links: seq<Link>, id: nat)
    requires |links| > 0 && Stored(entries, ReplacesMode, key, links, 0, id)
    requires forall i | i in entries :: entries[i].key == key <==> id <= i < RealAt(links, |links|, id)
    requires forall m, n | 0 <= m < n < |links| :: links[m].name != links[n].name
    ensures ChannelLaid(entries, key, Layout(links, id, {}))
  {
    var layout := Layout(links, id, {});
    forall place | IsKept(layout, place)
      ensures HasRow(entries, PlaceId(layout, place), PlaceRow(key, layout, place))
    {
      RowAtPlace(entries, ReplacesMode, key, links, 0, id, place);
    }
    forall i | i in entries && entries[i].key == key
      ensures exists place :: IsAt(layout, place, i)
    {
      var place := Locate(links, id, |links|, i);
      assert IsAt(layout, place, i);
    }
  }

  /** i is the real entry of the n-th link. */
  ghost predicate IsRealAt(layout: Layout, n: nat, i: nat) {
    n < |layout.links| && i == PlaceId(layout, Real(n))
  }

  ghost predicate IsReal(layout: Layout, i: nat) {
    exists n: nat :: IsRealAt(layout, n, i)
  }

  /** Where an entry sits in its channel. */
  lemma PlaceOfEntry(entries: Entries, key: ChannelKey, layout: Layout, i: nat) returns (place: Place)
    requires ChannelLaid(entries, key, layout) && i in entries && entries[i].key == key
    ensures IsAt(layout, place, i) && entries[i] == PlaceRow(key, layout, place)
    ensures IsReal(layout, i) <==> place.Real?
  {
    place :| IsAt(layout, place, i);
    RealPlace(layout, place);
  }

  lemma RealPlace(layout: Layout, place: Place)
    requires IsPlace(layout.links, place)
    ensures IsReal(layout, PlaceId(layout, place)) <==> place.Real?
  {
    if place.Real? {
      assert IsRealAt(layout, place.n, PlaceId(layout, place));
    } else if n: nat :| IsRealAt(layout, n, PlaceId(layout, place)) {
      PlacesDistinct(layout.links, layout.id, place, Real(n));
    }
  }

  lemma EntryAtPlace(entries: Entries, key: ChannelKey, layout: Layout, place: Place)
    requires ChannelLaid(entries, key, layout) && IsKept(layout, place)
    ensures HasRow(entries, PlaceId(layout, place), PlaceRow(key, layout, place))
    ensures IsReal(layout, PlaceId(layout, place)) <==> place.Real?
  {
    RealPlace(layout, place);
  }

  lemma LinkHasEntry(db: Db, key: ChannelKey, layout: Layout, place: Place)
    requires ChannelLaid(db.entries, key, layout) && IsKept(layout, place)
    ensures HasEntry(db, key, NameAt(layout.links, place))
  {
    EntryAtPlace(db.entries, key, layout, place);
    assert InGroup(db.entries, key, NameAt(layout.links, place), PlaceId(layout, place));
  }

  lemma HeadInTip(entries: Entries, layouts: map<ChannelKey, Layout>, key: ChannelKey)
    requires AllLaid(entries, layouts) && key in layouts
    ensures PlaceId(layouts[key], Real(0)) in Tip(entries)
  {
    EntryAtPlace(entries, key, layouts[key], Real(0));
  }

  lemma TipIsReal(entries: Entries, layouts: map<ChannelKey, Layout>, i: nat)
    requires AllLaid(entries, layouts) && i in Tip(entries)
    ensures IsReal(layouts[entries[i].key], i)
  {
    var key := entries[i].key;
    var layout := layouts[key];
    EntryAtPlace(entries, key, layout, Real(0));
    var place := PlaceOfEntry(entries, key, layout, i);
    if place.n > 0 {
      RealAtIncreases(ReplacesMode, layout.links, 0, place.n, 0, layout.id);
    }
  }

  /** The next link's bundle is still there. */
  ghost predicate Goes(layout: Layout, n: nat)
    requires n < |layout.links|
  {
    n + 1 < |layout.links| && layout.links[n + 1].name !in layout.gone
  }

  lemma NextRow(key: ChannelKey, layout: Layout, n: nat)
    requires GoneBelow(layout) && n < |layout.links| && Goes(layout, n)
    ensures IsKept(layout, Real(n)) && IsKept(layout, Real(n + 1))
    ensures PlaceRow(key, layout, Real(n)).replacesId == Some(PlaceId(layout, Real(n + 1)))
    ensures PlaceRow(key, layout, Real(n + 1)).bundle == layout.links[n + 1].name
  {
  }

  lemma RealPointer(entries: Entries, key: ChannelKey, layout: Layout, n: nat)
    requires ChannelLaid(entries, key, layout) && n < |layout.links| && Goes(layout, n)
    ensures HasTarget(entries, PlaceId(layout, Real(n)))
    ensures Target(entries, PlaceId(layout, Real(n))) == PlaceId(layout, Real(n + 1))
    ensures entries[PlaceId(layout, Real(n + 1))].bundle == layout.links[n + 1].name
  {
    NextRow(key, layout, n);
    EntryAtPlace(entries, key, layout, Real(n));
    EntryAtPlace(entries, key, layout, Real(n + 1));
  }

  lemma RealIsReached(entries: Entries, layouts: map<ChannelKey, Layout>, key: ChannelKey, n: nat)
    requires AllLaid(entries, layouts) && key in layouts && IsKept(layouts[key], Real(n))
    ensures PlaceId(layouts[key], Real(n)) in ReplacesEntry(entries)
  {
    HeadInTip(entries, layouts, key);
    for k := 0 to n
      invariant PlaceId(layouts[key], Real(k)) in ReplacesEntry(entries)
    {
      assert Goes(layouts[key], k);
      RealPointer(entries, key, layouts[key], k);
    }
  }

  /** Where a row's pointer leads. */
  lemma TargetPlace(key: ChannelKey, layout: Layout, place: Place) returns (to: Place)
    requires IsKept(layout, place) && PlaceRow(key, layout, place).replacesId.Some?
    ensures IsKept(layout, to) && PlaceRow(key, layout, place).replacesId == Some(PlaceId(layout, to))
    ensures place.Real? <==> to.Real?
  {
    if place.Real? {
      to := Real(place.n + 1);
    } else {
      to := Dummy(place.n, place.j);
    }
  }

  lemma RealTarget(entries: Entries, key: ChannelKey, layout: Layout, i: nat)
    requires ChannelLaid(entries, key, layout) && i in entries && entries[i].key == key && HasTarget(entries, i)
    ensures entries[Target(entries, i)].key == key
    ensures IsReal(layout, i) <==> IsReal(layout, Target(entries, i))
  {
    var place := PlaceOfEntry(entries, key, layout, i);
    var to := TargetPlace(key, layout, place);
    EntryAtPlace(entries, key, layout, to);
  }

  /** The recursive part of the query finds exactly the real entries. */
  lemma ReplacesEntryIsReal(entries: Entries, layouts: map<ChannelKey, Layout>, i: nat)
    requires AllLaid(entries, layouts) && i in entries
    ensures i in ReplacesEntry(entries) <==> IsReal(layouts[entries[i].key], i)
  {
    if i in ReplacesEntry(entries) {
      var reals := set k | k in entries && IsReal(layouts[entries[k].key], k);
      forall k | k in Tip(entries)
        ensures k in reals
      {
        TipIsReal(entries, layouts, k);
      }
      forall k | k in reals && HasTarget(entries, k)
        ensures Target(entries, k) in reals
      {
        RealTarget(entries, entries[k].key, layouts[entries[k].key], k);
      }
      FollowLeast(entries, Tip(entries), reals);
    } else {
      var place := PlaceOfEntry(entries, entries[i].key, layouts[entries[i].key], i);
      if place.Real? {
        RealIsReached(entries, layouts, entries[i].key, place.n);
      }
    }
  }

  // ---- What the query gives each bundle --------------------------------------------------------

  lemma RealInGroup(entries: Entries, layouts: map<ChannelKey, Layout>, key: ChannelKey, name: string, i: nat)
    returns (n: nat)
    requires AllLaid(entries, layouts) && key in layouts
    requires i in ReplacesEntry(entries) && InGroup(entries, key, name, i)
    ensures IsAt(layouts[key], Real(n), i) && layouts[key].links[n].name == name
    ensures HasTarget(entries, i) <==> Goes(layouts[key], n)
  {
    ReplacesEntryIsReal(entries, layouts, i);
    var place := PlaceOfEntry(entries, key, layouts[key], i);
    n := place.n;
    if Goes(layouts[key], n) {
      RealPointer(entries, key, layouts[key], n);
    }
  }

  /** A link's bundle replaces the bundle of the next link, unless that one is gone. */
  lemma ReplacesOfLink(entries: Entries, layouts: map<ChannelKey, Layout>, key: ChannelKey, n: nat)
    requires AllLaid(entries, layouts) && key in layouts && IsKept(layouts[key], Real(n))
    ensures var links := layouts[key].links;
            QueryReplaces(entries, key, links[n].name)
              == if Goes(layouts[key], n) then Some(links[n + 1].name) else None
  {
    var layout := layouts[key];
    var name, at := layout.links[n].name, PlaceId(layout, Real(n));
    var names := ReplacedNames(entries, key, name);
    EntryAtPlace(entries, key, layout, Real(n));
    forall i | i in ReplacesEntry(entries) && InGroup(entries, key, name, i)
      ensures i == at && (HasTarget(entries, i) <==> Goes(layout, n))
    {
      var m := RealInGroup(entries, layouts, key, name, i);
      assert m == n;
    }
    if Goes(layout, n) {
      RealIsReached(entries, layouts, key, n);
      RealPointer(entries, key, layout, n);
      assert InGroup(entries, key, name, at) && HasTarget(entries, at);
      assert names == {layout.links[n + 1].name};
    } else {
      assert names == {};
    }
  }

  lemma PointsFromExtra(key: ChannelKey, layout: Layout, place: Place)
    requires IsKept(layout, place) && !place.Real? && PlaceRow(key, layout, place).replacesId.Some?
    ensures place.Extra? && layout.links[place.n].skips[place.j] !in layout.gone && IsKept(layout, Real(place.n))
  {
  }

  lemma SkippedIsExtra(entries: Entries, layouts: map<ChannelKey, Layout>, key: ChannelKey, name: string, i: nat)
    returns (n: nat, j: nat)
    requires AllLaid(entries, layouts) && key in layouts && i in SkippedNames(entries, key, name)
    ensures IsAt(layouts[key], Extra(n, j), i) && layouts[key].links[n].name == name
    ensures layouts[key].links[n].skips[j] !in layouts[key].gone && IsKept(layouts[key], Real(n))
  {
    ReplacesEntryIsReal(entries, layouts, i);
    var place := PlaceOfEntry(entries, key, layouts[key], i);
    PointsFromExtra(key, layouts[key], place);
    n, j := place.n, place.j;
  }

  lemma ExtraIsSkipped(entries: Entries, layouts: map<ChannelKey, Layout>, key: ChannelKey, n: nat, j: nat)
    requires AllLaid(entries, layouts) && key in layouts
    requires IsKept(layouts[key], Extra(n, j)) && IsKept(layouts[key], Dummy(n, j))
    ensures var link, i := layouts[key].links[n], PlaceId(layouts[key], Extra(n, j));
            i in SkippedNames(entries, key, link.name) && SkippedNames(entries, key, link.name)[i] == link.skips[j]
  {
    var layout, i := layouts[key], PlaceId(layouts[key], Extra(n, j));
    EntryAtPlace(entries, key, layout, Extra(n, j));
    EntryAtPlace(entries, key, layout, Dummy(n, j));
    assert HasTarget(entries, i) && Target(entries, i) == PlaceId(layout, Dummy(n, j));
    ReplacesEntryIsReal(entries, layouts, i);
  }

  lemma ExtraOfGone(entries: Entries, layouts: map<ChannelKey, Layout>, key: ChannelKey, n: nat, j: nat)
    requires AllLaid(entries, layouts) && key in layouts && IsPlace(layouts[key].links, Extra(n, j))
    requires layouts[key].links[n].skips[j] in layouts[key].gone
    ensures PlaceId(layouts[key], Extra(n, j)) !in SkippedNames(entries, key, layouts[key].links[n].name)
  {
    var i, name := PlaceId(layouts[key], Extra(n, j)), layouts[key].links[n].name;
    if i in SkippedNames(entries, key, name) {
      var m, l := SkippedIsExtra(entries, layouts, key, name, i);
      PlacesDistinct(layouts[key].links, layouts[key].id, Extra(n, j), Extra(m, l));
    }
  }

  /** A link's bundle skips exactly the link's skips that are not gone. */
  lemma SkipsOfLink(entries: Entries, layouts: map<ChannelKey, Layout>, key: ChannelKey, n: nat)
    requires AllLaid(entries, layouts) && key in layouts && IsKept(layouts[key], Real(n))
    ensures var layout := layouts[key];
            QuerySkips(entries, key, layout.links[n].name) == multiset(Left(layout.links[n].skips, layout.gone))
  {
    var layout := layouts[key];
    var link := layout.links[n];
    var skipped := SkippedNames(entries, key, link.name);
    var ids := ExtraIds(layout, n);
    forall j | 0 <= j < |ids|
      ensures if link.skips[j] in layout.gone
              then ids[j] !in skipped
              else ids[j] in skipped && skipped[ids[j]] == link.skips[j]
    {
      if link.skips[j] in layout.gone {
        ExtraOfGone(entries, layouts, key, n, j);
      } else {
        ExtraIsSkipped(entries, layouts, key, n, j);
      }
    }
    forall i | i in skipped
      ensures i in ids
    {
      var m, j := SkippedIsExtra(entries, layouts, key, link.name, i);
      assert m == n;
      assert ids[j] == i;
    }
    BagOfList(skipped, ids, link.skips, layout.gone);
  }

  ghost function ExtraIds(layout: Layout, n: nat): (ids: seq<nat>)
    requires n < |layout.links|
    ensures |ids| == |layout.links[n].skips|
    ensures forall j | 0 <= j < |ids| :: ids[j] == PlaceId(layout, Extra(n, j))
    ensures forall i, j | 0 <= i < j < |ids| :: ids[i] != ids[j]
  {
    seq(|layout.links[n].skips|, j requires 0 <= j < |layout.links[n].skips| => PlaceId(layout, Extra(n, j)))
  }

  /** A bundle that no remaining link names is only ever skipped; the query gives it nothing. */
  lemma NothingElse(entries: Entries, layouts: map<ChannelKey, Layout>, key: ChannelKey, name: string)
    requires AllLaid(entries, layouts) && key in layouts
    requires forall n: nat | IsKept(layouts[key], Real(n)) :: layouts[key].links[n].name != name
    ensures QueryReplaces(entries, key, name) == None && QuerySkips(entries, key, name) == multiset{}
  {
    forall i | i in ReplacesEntry(entries)
      ensures !InGroup(entries, key, name, i)
    {
      if InGroup(entries, key, name, i) {
        var n := RealInGroup(entries, layouts, key, name, i);
      }
    }
    assert ReplacedNames(entries, key, name) == {};
    forall i | i in SkippedNames(entries, key, name)
      ensures false
    {
      var n, j := SkippedIsExtra(entries, layouts, key, name, i);
    }
    assert SkippedNames(entries, key, name) == map[];
  }
}
