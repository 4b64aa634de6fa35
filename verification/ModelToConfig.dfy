/** From the in-memory model back to a declarative config: internal/declcfg/model_to_declcfg.go. */
module ModelToConfig {
  import opened Common
  import opened Model
  import opened Properties
  import opened DeclConfig

  // ---- The bundles of one package --------------------------------------------------------------

  ghost predicate InChannel(p: ModelPackage, ch: string, name: string) {
    ch in p.channels && name in p.channels[ch].bundles
  }

  /** Bundles are filed under their names. */
  ghost predicate NamesKeyed(p: ModelPackage) {
    forall ch, name | InChannel(p, ch, name) :: p.channels[ch].bundles[name].name == name
  }

  ghost predicate AllIn(p: ModelPackage, order: seq<string>, name: string) {
    forall i | 0 <= i < |order| :: InChannel(p, order[i], name)
  }

  /** The properties of a bundle's copies in the given channels, one list after the other. */
  ghost function Appended(p: ModelPackage, order: seq<string>, name: string): seq<Property>
    requires AllIn(p, order, name)
  {
    if order == [] then []
    else Appended(p, order[..|order| - 1], name) + p.channels[order[|order| - 1]].bundles[name].payload.properties
  }

  function CopyOf(p: ModelPackage, b: Bundle<Payload>, properties: seq<Property>): CfgBundle {
    CfgBundle(b.name, p.name, b.payload.image, properties, b.payload.relatedImages, b.payload.csvJson,
      b.payload.objects)
  }

  /**
    The bundle as collected from its copies in the given channels: the first gave the fields, all of them properties.
  */
  ghost predicate CollectedAs(p: ModelPackage, order: seq<string>, name: string, b: CfgBundle) {
    && order != [] && NoRepeats(order) && AllIn(p, order, name)
    && b == CopyOf(p, p.channels[order[0]].bundles[name], Appended(p, order, name))
  }

  ghost predicate Collecting(p: ModelPackage, acc: map<string, CfgBundle>, orders: map<string, seq<string>>) {
    acc.Keys == orders.Keys && forall name | name in acc :: CollectedAs(p, orders[name], name, acc[name])
  }

  function Collect(p: ModelPackage, acc: map<string, CfgBundle>, b: Bundle<Payload>): map<string, CfgBundle> {
    var old_ := if b.name in acc then acc[b.name] else CopyOf(p, b, []);
    acc[b.name := old_.(properties := old_.properties + b.payload.properties)]
  }

  ghost function OrderOf(orders: map<string, seq<string>>, name: string): seq<string> {
    if name in orders then orders[name] else []
  }

  ghost function Visit(orders: map<string, seq<string>>, name: string, ch: string): map<string, seq<string>> {
    orders[name := OrderOf(orders, name) + [ch]]
  }

  lemma AppendedStep(p: ModelPackage, order: seq<string>, ch: string, name: string)
    requires AllIn(p, order, name) && InChannel(p, ch, name)
    ensures AllIn(p, order + [ch], name)
    ensures Appended(p, order + [ch], name)
              == Appended(p, order, name) + p.channels[ch].bundles[name].payload.properties
  {
    assert (order + [ch])[..|order|] == order;
  }

  lemma CollectedNew(p: ModelPackage, order: seq<string>, ch: string, name: string, old_: CfgBundle)
    requires NamesKeyed(p) && InChannel(p, ch, name) && ch !in order
    requires if order == []
             then old_ == CopyOf(p, p.channels[ch].bundles[name], [])
             else CollectedAs(p, order, name, old_)
    ensures CollectedAs(p, order + [ch], name,
              old_.(properties := old_.properties + p.channels[ch].bundles[name].payload.properties))
  {
    AppendedStep(p, order, ch, name);
    var more := order + [ch];
    assert NoRepeats(more);
    assert more[0] == if order == [] then ch else order[0];
  }

  lemma CollectStep(p: ModelPackage, acc: map<string, CfgBundle>, orders: map<string, seq<string>>, ch: string,
                    name: string)
    requires NamesKeyed(p) && Collecting(p, acc, orders) && InChannel(p, ch, name) && ch !in OrderOf(orders, name)
    ensures Collecting(p, Collect(p, acc, p.channels[ch].bundles[name]), Visit(orders, name, ch))
  {
    var b := p.channels[ch].bundles[name];
    assert b.name == name;
    CollectedNew(p, OrderOf(orders, name), ch, name, if name in acc then acc[name] else CopyOf(p, b, []));
    var acc', orders' := Collect(p, acc, b), Visit(orders, name, ch);
    forall n | n in acc'
      ensures CollectedAs(p, orders'[n], n, acc'[n])
    {
      assert n != name ==> CollectedAs(p, orders[n], n, acc[n]);
    }
  }

  /** The channel was visited for all the given names. */
  ghost predicate Covers(orders: map<string, seq<string>>, ch: string, names: set<string>) {
    forall name | name in names :: ch in OrderOf(orders, name)
  }

  ghost predicate Avoids(orders: map<string, seq<string>>, ch: string, names: set<string>) {
    forall name | name in names :: ch !in OrderOf(orders, name)
  }

  /** Nothing is forgotten and only the given channel is added. */
  ghost predicate Grew(orders: map<string, seq<string>>, orders': map<string, seq<string>>, ch: string) {
    && (forall name, c | c in OrderOf(orders, name) :: c in OrderOf(orders', name))
    && (forall name, c | c in OrderOf(orders', name) :: c == ch || c in OrderOf(orders, name))
  }

  lemma VisitGrows(orders: map<string, seq<string>>, ch: string, name: string)
    ensures Grew(orders, Visit(orders, name, ch), ch) && ch in OrderOf(Visit(orders, name, ch), name)
    ensures forall n | n != name :: OrderOf(Visit(orders, name, ch), n) == OrderOf(orders, n)
  {
  }

  /** Within a channel: the given names remain to be visited. */
  ghost predicate Visiting(start: map<string, seq<string>>, orders: map<string, seq<string>>, ch: string,
                           names: set<string>, rest: set<string>) {
    && rest <= names && Grew(start, orders, ch)
    && forall name | name in names :: ch in OrderOf(orders, name) <==> name !in rest
  }

  lemma VisitStep(start: map<string, seq<string>>, orders: map<string, seq<string>>, ch: string, names: set<string>,
                  rest: set<string>, name: string)
    requires Visiting(start, orders, ch, names, rest) && name in rest
    ensures Visiting(start, Visit(orders, name, ch), ch, names, rest - {name})
    ensures name in names && ch !in OrderOf(orders, name)
  {
    VisitGrows(orders, ch, name);
  }

  /** The copies in one channel, in any order. */
  method CollectChannel(p: ModelPackage, ch: string, acc: map<string, CfgBundle>,
                        ghost orders: map<string, seq<string>>)
    returns (acc': map<string, CfgBundle>, ghost orders': map<string, seq<string>>)
    requires NamesKeyed(p) && ch in p.channels && Collecting(p, acc, orders)
    requires Avoids(orders, ch, p.channels[ch].bundles.Keys)
    ensures Collecting(p, acc', orders') && Grew(orders, orders', ch)
    ensures Covers(orders', ch, p.channels[ch].bundles.Keys)
  {
    acc', orders' := acc, orders;
    var bundles := p.channels[ch].bundles;
    var rest := bundles.Keys;
    while rest != {}
      invariant Collecting(p, acc', orders') && Visiting(orders, orders', ch, bundles.Keys, rest)
      decreases |rest|
    {
      var name :| name in rest;
      VisitStep(orders, orders', ch, bundles.Keys, rest, name);
      assert InChannel(p, ch, name);
      CollectStep(p, acc', orders', ch, name);
      acc', orders' := Collect(p, acc', bundles[name]), Visit(orders', name, ch);
      rest := rest - {name};
    }
  }

  /** All copies of all bundles were collected. */
  ghost predicate Complete(p: ModelPackage, orders: map<string, seq<string>>, channels: set<string>) {
    && (forall ch | ch in channels && ch in p.channels :: Covers(orders, ch, p.channels[ch].bundles.Keys))
    && (forall name, c | c in OrderOf(orders, name) :: c in channels)
  }

  lemma CompleteStep(p: ModelPackage, orders: map<string, seq<string>>, channels: set<string>,
                     orders': map<string, seq<string>>, ch: string)
    requires Complete(p, orders, channels) && ch in p.channels && Grew(orders, orders', ch)
    requires Covers(orders', ch, p.channels[ch].bundles.Keys)
    ensures Complete(p, orders', channels + {ch})
  {
    forall c | c in channels && c in p.channels
      ensures Covers(orders', c, p.channels[c].bundles.Keys)
    {
      assert Covers(orders, c, p.channels[c].bundles.Keys);
    }
  }

  method CollectAll(p: ModelPackage) returns (acc: map<string, CfgBundle>, ghost orders: map<string, seq<string>>)
    requires NamesKeyed(p)
    ensures Collecting(p, acc, orders) && Complete(p, orders, p.channels.Keys)
  {
    acc, orders := map[], map[];
    var rest := p.channels.Keys;
    ghost var done: set<string> := {};
    while rest != {}
      invariant rest <= p.channels.Keys && done == p.channels.Keys - rest
      invariant Collecting(p, acc, orders) && Complete(p, orders, done)
      decreases |rest|
    {
      var ch :| ch in rest;
      ghost var before := orders;
      acc, orders := CollectChannel(p, ch, acc, orders);
      CompleteStep(p, before, done, orders, ch);
      rest, done := rest - {ch}, done + {ch};
    }
    assert done == p.channels.Keys;
  }

  // ---- Deduplicating ---------------------------------------------------------------------------

  ghost predicate OrdersOk(p: ModelPackage, orders: map<string, seq<string>>) {
    forall name | name in orders :: orders[name] != [] && NoRepeats(orders[name]) && AllIn(p, orders[name], name)
  }

  /** The bundle with each property once, however many channels it is in. */
  ghost function FinalBundle(p: ModelPackage, order: seq<string>, name: string): CfgBundle
    requires order != [] && AllIn(p, order, name)
  {
    CopyOf(p, p.channels[order[0]].bundles[name], FirstOccurrences(Appended(p, order, name)))
  }

  ghost predicate IsFinal(p: ModelPackage, orders: map<string, seq<string>>, b: CfgBundle)
    requires OrdersOk(p, orders)
  {
    b.name in orders && b == FinalBundle(p, orders[b.name], b.name)
  }

  ghost predicate ListsName(out: seq<CfgBundle>, name: string) {
    exists b :: b in out && b.name == name
  }

  lemma ListsOneMore(out: seq<CfgBundle>, b: CfgBundle, name: string)
    ensures ListsName(out + [b], name) <==> ListsName(out, name) || name == b.name
  {
    if ListsName(out, name) {
      var c :| c in out && c.name == name;
      assert c in out + [b];
    }
    assert b in out + [b];
  }

  /** One bundle for each of the given names. */
  ghost predicate Listing(p: ModelPackage, orders: map<string, seq<string>>, names: set<string>, out: seq<CfgBundle>)
    requires OrdersOk(p, orders)
  {
    && (forall b | b in out :: IsFinal(p, orders, b) && b.pkg == p.name)
    && (forall name :: name in names <==> ListsName(out, name))
    && DistinctBundles(out)
  }

  lemma ListingStep(p: ModelPackage, orders: map<string, seq<string>>, names: set<string>, out: seq<CfgBundle>,
                    b: CfgBundle, after: set<string>)
    requires OrdersOk(p, orders) && Listing(p, orders, names, out) && b.name !in names && IsFinal(p, orders, b)
    requires b.pkg == p.name
    requires forall name :: name in after <==> name in names || name == b.name
    ensures Listing(p, orders, after, out + [b])
  {
    var more := out + [b];
    forall name
      ensures name in after <==> ListsName(more, name)
    {
      ListsOneMore(out, b, name);
    }
    forall i, j | 0 <= i < j < |more|
      ensures more[i].pkg != more[j].pkg || more[i].name != more[j].name
    {
      if j == |out| {
        assert more[i] in out && ListsName(out, more[i].name);
      }
    }
  }

  lemma OrdersOfCollected(p: ModelPackage, acc: map<string, CfgBundle>, orders: map<string, seq<string>>)
    requires Collecting(p, acc, orders)
    ensures OrdersOk(p, orders)
  {
    forall name | name in orders
      ensures orders[name] != [] && NoRepeats(orders[name]) && AllIn(p, orders[name], name)
    {
      assert CollectedAs(p, orders[name], name, acc[name]);
    }
  }

  lemma FinalStep(p: ModelPackage, acc: map<string, CfgBundle>, orders: map<string, seq<string>>, rest: set<string>,
                  out: seq<CfgBundle>, name: string, properties: seq<Property>)
    requires NamesKeyed(p) && Collecting(p, acc, orders) && OrdersOk(p, orders)
    requires Listing(p, orders, orders.Keys - rest, out)
    requires name in acc && name in rest && properties == FirstOccurrences(acc[name].properties)
    ensures Listing(p, orders, orders.Keys - (rest - {name}), out + [acc[name].(properties := properties)])
  {
    FinalOf(p, orders[name], name, acc[name], properties);
    ListingStep(p, orders, orders.Keys - rest, out, acc[name].(properties := properties),
      orders.Keys - (rest - {name}));
  }

  /** traverseModelChannels. */
  method TraverseModelChannels(p: ModelPackage) returns (out: seq<CfgBundle>, ghost orders: map<string, seq<string>>)
    requires NamesKeyed(p)
    ensures OrdersOk(p, orders) && Complete(p, orders, p.channels.Keys) && Listing(p, orders, orders.Keys, out)
  {
    var acc;
    acc, orders := CollectAll(p);
    OrdersOfCollected(p, acc, orders);
    out := [];
    var rest := acc.Keys;
    while rest != {}
      invariant rest <= acc.Keys && Listing(p, orders, orders.Keys - rest, out)
      decreases |rest|
    {
      var name :| name in rest;
      var properties := Deduplicate(acc[name].properties);
      FinalStep(p, acc, orders, rest, out, name, properties);
      out := out + [acc[name].(properties := properties)];
      rest := rest - {name};
    }
    assert orders.Keys - {} == orders.Keys;
  }

  lemma FinalOf(p: ModelPackage, order: seq<string>, name: string, b: CfgBundle, properties: seq<Property>)
    requires NamesKeyed(p) && CollectedAs(p, order, name, b) && properties == FirstOccurrences(b.properties)
    ensures b.name == name && b.pkg == p.name && b.(properties := properties) == FinalBundle(p, order, name)
  {
    assert InChannel(p, order[0], name);
  }

  // ---- Sorting ---------------------------------------------------------------------------------

  ghost predicate SortedBy<T>(s: seq<T>, key: T -> string) {
    forall i, j | 0 <= i < j < |s| :: CompareStrings(key(s[i]), key(s[j])) <= 0
  }

  /** sort.Slice by a name; elements with equal names may come in any order. */
  method SortBy<T>(s: seq<T>, key: T -> string) returns (r: seq<T>)
    ensures SortedBy(r, key) && multiset(r) == multiset(s)
  {
    r := [];
    for n := 0 to |s|
      invariant SortedBy(r, key) && multiset(r) == multiset(s[..n])
    {
      assert s[..n + 1] == s[..n] + [s[n]];
      r := InsertBy(r, s[n], key);
    }
    assert s[..|s|] == s;
  }

  method FindPlace<T>(s: seq<T>, x: T, key: T -> string) returns (k: nat)
    requires SortedBy(s, key)
    ensures k <= |s|
    ensures forall i | 0 <= i < k :: CompareStrings(key(s[i]), key(x)) <= 0
    ensures forall i | k <= i < |s| :: CompareStrings(key(x), key(s[i])) <= 0
  {
    k := |s|;
    while k > 0 && CompareStrings(key(s[k - 1]), key(x)) > 0
      invariant 0 <= k <= |s|
      invariant forall i | k <= i < |s| :: CompareStrings(key(x), key(s[i])) <= 0
    {
      k := k - 1;
      CompareStringsFlip(key(s[k]), key(x));
    }
    forall i | 0 <= i < k
      ensures CompareStrings(key(s[i]), key(x)) <= 0
    {
      if i < k - 1 {
        CompareStringsTransitive(key(s[i]), key(s[k - 1]), key(x));
      }
    }
  }

  method InsertBy<T>(s: seq<T>, x: T, key: T -> string) returns (r: seq<T>)
    requires SortedBy(s, key)
    ensures SortedBy(r, key) && multiset(r) == multiset(s) + multiset{x}
  {
    var k := FindPlace(s, x, key);
    r := s[..k] + [x] + s[k..];
    assert s == s[..k] + s[k..];
    InsertedSorted(s, k, x, key);
  }

  lemma InsertedSorted<T>(s: seq<T>, k: nat, x: T, key: T -> string)
    requires SortedBy(s, key) && k <= |s|
    requires forall i | 0 <= i < k :: CompareStrings(key(s[i]), key(x)) <= 0
    requires forall i | k <= i < |s| :: CompareStrings(key(x), key(s[i])) <= 0
    ensures SortedBy(s[..k] + [x] + s[k..], key)
  {
    var r := s[..k] + [x] + s[k..];
    forall i, j | 0 <= i < j < |r|
      ensures CompareStrings(key(r[i]), key(r[j])) <= 0
    {
      assert r[i] == if i < k then s[i] else if i == k then x else s[i - 1];
      assert r[j] == if j < k then s[j] else if j == k then x else s[j - 1];
    }
  }

  // ---- The conversion --------------------------------------------------------------------------

  function PackageOf(p: ModelPackage): CfgPackage {
    CfgPackage(p.name, if p.defaultChannel.Some? then p.defaultChannel.value else "", p.icon, p.description)
  }

  ghost predicate IndexKeyed(m: Index) {
    forall k | k in m :: m[k].name == k && NamesKeyed(m[k])
  }

  type Orders = map<string, map<string, seq<string>>>

  ghost predicate OrdersFit(m: Index, orders: Orders) {
    forall k | k in orders :: k in m && OrdersOk(m[k], orders[k]) && Complete(m[k], orders[k], m[k].channels.Keys)
  }

  /** The packages and bundles of some of the packages, before sorting. */
  ghost predicate Unsorted(m: Index, orders: Orders, cfg: Config)
    requires OrdersFit(m, orders)
  {
    && (forall p :: p in cfg.packages <==> exists k :: k in orders && p == PackageOf(m[k]))
    && DistinctPackages(cfg.packages) && DistinctBundles(cfg.bundles)
    && (forall b | b in cfg.bundles :: b.pkg in orders && IsFinal(m[b.pkg], orders[b.pkg], b))
    && (forall k, name | k in orders && name in orders[k] :: HasBundle(cfg.bundles, k, name))
  }

  ghost predicate HasBundle(bundles: seq<CfgBundle>, pkg: string, name: string) {
    exists b :: b in bundles && b.pkg == pkg && b.name == name
  }

  lemma DistinctBundlesJoin(a: seq<CfgBundle>, b: seq<CfgBundle>, pkg: string)
    requires DistinctBundles(a) && DistinctBundles(b) && (forall x | x in a :: x.pkg != pkg)
    requires forall x | x in b :: x.pkg == pkg
    ensures DistinctBundles(a + b)
  {
    var all := a + b;
    forall i, j | 0 <= i < j < |all|
      ensures all[i].pkg != all[j].pkg || all[i].name != all[j].name
    {
      if i < |a| <= j {
        assert all[i] in a && all[j] in b;
      }
    }
  }

  lemma HasBundleJoin(a: seq<CfgBundle>, b: seq<CfgBundle>, pkg: string, name: string)
    ensures HasBundle(a + b, pkg, name) <==> HasBundle(a, pkg, name) || HasBundle(b, pkg, name)
  {
    if HasBundle(a, pkg, name) {
      var x :| x in a && x.pkg == pkg && x.name == name;
      assert x in a + b;
    }
    if HasBundle(b, pkg, name) {
      var x :| x in b && x.pkg == pkg && x.name == name;
      assert x in a + b;
    }
  }

  lemma PackagesJoin(m: Index, orders: Orders, packages: seq<CfgPackage>, k: string, own: map<string, seq<string>>)
    requires IndexKeyed(m) && OrdersFit(m, orders) && k in m && k !in orders
    requires (forall p :: p in packages <==> exists j :: j in orders && p == PackageOf(m[j]))
    requires DistinctPackages(packages)
    ensures forall p :: p in packages + [PackageOf(m[k])] <==> exists j :: j in orders[k := own] && p == PackageOf(m[j])
    ensures DistinctPackages(packages + [PackageOf(m[k])])
  {
    var more, after := packages + [PackageOf(m[k])], orders[k := own];
    forall p
      ensures p in more <==> exists j :: j in after && p == PackageOf(m[j])
    {
      if p == PackageOf(m[k]) {
        assert k in after;
      } else if p in packages {
        var j :| j in orders && p == PackageOf(m[j]);
        assert j in after;
      }
    }
    forall i, j | 0 <= i < j < |more|
      ensures more[i].name != more[j].name
    {
      if j == |packages| {
        assert more[i] in packages;
      }
    }
  }

  lemma UnsortedStep(m: Index, orders: Orders, cfg: Config, k: string, own: map<string, seq<string>>,
                     bundles: seq<CfgBundle>)
    requires IndexKeyed(m) && OrdersFit(m, orders) && Unsorted(m, orders, cfg) && k in m && k !in orders
    requires OrdersOk(m[k], own) && Complete(m[k], own, m[k].channels.Keys) && Listing(m[k], own, own.Keys, bundles)
    ensures OrdersFit(m, orders[k := own])
    ensures Unsorted(m, orders[k := own], Config(cfg.packages + [PackageOf(m[k])], cfg.bundles + bundles))
  {
    var after, all := orders[k := own], cfg.bundles + bundles;
    PackagesJoin(m, orders, cfg.packages, k, own);
    DistinctBundlesJoin(cfg.bundles, bundles, k);
    forall j, name | j in after && name in after[j]
      ensures HasBundle(all, j, name)
    {
      HasBundleJoin(cfg.bundles, bundles, j, name);
      if j == k {
        assert ListsName(bundles, name);
        var b :| b in bundles && b.name == name;
      } else {
        assert HasBundle(cfg.bundles, j, name);
      }
    }
  }

  /** The packages are taken in any order; both lists are sorted by name at the end. */
  method ConvertFromModel(m: Index) returns (cfg: Config, ghost raw: Config, ghost orders: Orders)
    requires IndexKeyed(m)
    ensures OrdersFit(m, orders) && orders.Keys == m.Keys && Unsorted(m, orders, raw)
    ensures multiset(cfg.packages) == multiset(raw.packages) && SortedBy(cfg.packages, (p: CfgPackage) => p.name)
    ensures multiset(cfg.bundles) == multiset(raw.bundles) && SortedBy(cfg.bundles, (b: CfgBundle) => b.name)
  {
    var all := Config([], []);
    orders := map[];
    var rest := m.Keys;
    while rest != {}
      invariant rest <= m.Keys && orders.Keys == m.Keys - rest && OrdersFit(m, orders) && Unsorted(m, orders, all)
      decreases |rest|
    {
      var k :| k in rest;
      var bundles;
      ghost var own;
      bundles, own := TraverseModelChannels(m[k]);
      UnsortedStep(m, orders, all, k, own, bundles);
      all, orders := Config(all.packages + [PackageOf(m[k])], all.bundles + bundles), orders[k := own];
      rest := rest - {k};
    }
    raw := all;
    var packages := SortBy(all.packages, (p: CfgPackage) => p.name);
    var sorted := SortBy(all.bundles, (b: CfgBundle) => b.name);
    cfg := Config(packages, sorted);
  }
}
