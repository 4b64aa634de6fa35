/** A declarative config survives the trip through the in-memory model. */
module ConfigRoundTrip {
  import opened Common
  import opened Model
  import opened Properties
  import opened DeclConfig
  import opened ModelToConfig

  // ---- Packages --------------------------------------------------------------------------------

  lemma {:induction false} FindIsMember(packages: seq<CfgPackage>, name: string)
    requires FindPackage(packages, name).Some?
    ensures FindPackage(packages, name).value in packages && FindPackage(packages, name).value.name == name
  {
    var n := |packages| - 1;
    if packages[n].name != name {
      FindIsMember(packages[..n], name);
    }
  }

  lemma {:induction false} FindDistinct(packages: seq<CfgPackage>, p: CfgPackage)
    requires DistinctPackages(packages) && p in packages
    ensures FindPackage(packages, p.name) == Some(p)
  {
    var n := |packages| - 1;
    assert packages == packages[..n] + [packages[n]];
    if packages[n] != p {
      FindDistinct(packages[..n], p);
      var i :| 0 <= i < n && packages[i] == p;
      assert packages[i].name != packages[n].name;
    }
  }

  lemma NormalizedKeys(json: Json, filed: Index, m: Index)
    requires IsNormalized(json, filed, m)
    ensures m.Keys == filed.Keys && forall k | k in m :: m[k].(channels := map[]) == filed[k].(channels := map[])
  {
    var lists :| NormalizedLists(json, filed, lists, {}) && m == RelistedIndex(filed, lists);
  }

  lemma PackageBack(json: Json, cfg: Config, filed: Index, m: Index, k: string)
    requires ToModel(json, cfg, filed, m)
    ensures k in m <==> FindPackage(cfg.packages, k).Some?
    ensures k in m ==> PackageOf(m[k]) == FindPackage(cfg.packages, k).value
  {
    assert PackageKept(cfg.packages, filed, k);
    NormalizedKeys(json, filed, m);
    if k in m {
      assert ValidPackage(json, filed[k]);
      FindIsMember(cfg.packages, k);
    }
  }

  lemma PackageInBoth(json: Json, cfg: Config, filed: Index, m: Index, orders: Orders, raw: Config, p: CfgPackage)
    requires ToModel(json, cfg, filed, m) && DistinctPackages(cfg.packages)
    requires OrdersFit(m, orders) && orders.Keys == m.Keys && Unsorted(m, orders, raw)
    ensures p in raw.packages <==> p in cfg.packages
  {
    if p in cfg.packages {
      FindDistinct(cfg.packages, p);
      PackageBack(json, cfg, filed, m, p.name);
      assert p.name in orders;
    }
    if p in raw.packages {
      var k :| k in orders && p == PackageOf(m[k]);
      PackageBack(json, cfg, filed, m, k);
      FindIsMember(cfg.packages, k);
    }
  }

  lemma PackagesOnce(packages: seq<CfgPackage>)
    requires DistinctPackages(packages)
    ensures NoRepeats(packages)
  {
  }

  lemma PackagesBack(json: Json, cfg: Config, filed: Index, m: Index, orders: Orders, raw: Config)
    requires ToModel(json, cfg, filed, m) && DistinctPackages(cfg.packages)
    requires OrdersFit(m, orders) && orders.Keys == m.Keys && Unsorted(m, orders, raw)
    ensures multiset(raw.packages) == multiset(cfg.packages)
  {
    forall p
      ensures p in raw.packages <==> p in cfg.packages
    {
      PackageInBoth(json, cfg, filed, m, orders, raw, p);
    }
    PackagesOnce(raw.packages);
    PackagesOnce(cfg.packages);
    SameElements(raw.packages, cfg.packages);
  }

  // ---- Bundles ---------------------------------------------------------------------------------

  /** How many copies the conversion makes of a bundle: one for each channel it lists. */
  function Copies(json: Json, b: CfgBundle): nat {
    match ParsedOnce(json, b.properties)
    case None => 0
    case Some(parsed) => |parsed.channels|
  }

  /** The bundle with its property values normalized once per copy, each property once. */
  function Renormalized(json: Json, b: CfgBundle): CfgBundle {
    b.(properties := FirstOccurrences(NormalizedTimes(json, b.properties, Copies(json, b))))
  }

  function RenormalizedAll(json: Json, bundles: seq<CfgBundle>): (r: seq<CfgBundle>)
    ensures |r| == |bundles| && forall i | 0 <= i < |bundles| :: r[i] == Renormalized(json, bundles[i])
  {
    seq(|bundles|, i requires 0 <= i < |bundles| => Renormalized(json, bundles[i]))
  }

  lemma SameBundle(bundles: seq<CfgBundle>, a: CfgBundle, b: CfgBundle)
    requires DistinctBundles(bundles) && a in bundles && b in bundles && a.pkg == b.pkg && a.name == b.name
    ensures a == b
  {
    var i :| 0 <= i < |bundles| && bundles[i] == a;
    var j :| 0 <= j < |bundles| && bundles[j] == b;
  }

  ghost predicate CopiesOf(json: Json, p: ModelPackage, name: string, b: CfgBundle) {
    forall ch | InChannel(p, ch, name) :: IsCopy(json, p.channels[ch].bundles[name], b)
  }

  ghost predicate IsCopy(json: Json, x: Bundle<Payload>, b: CfgBundle) {
    && x.name == b.name
    && x.payload == Payload(b.image, NormalizedTimes(json, b.properties, Copies(json, b)), x.payload.list,
                            b.relatedImages, b.csvJson, b.objects)
  }

  /** A bundle found in the model is a copy of the bundle declared with its name. */
  lemma FoundIsCopy(json: Json, cfg: Config, filed: Index, m: Index, pkg: string, ch: string, name: string)
    returns (b: CfgBundle)
    requires ToModel(json, cfg, filed, m) && DistinctBundles(cfg.bundles) && pkg in m && InChannel(m[pkg], ch, name)
    ensures b in cfg.bundles && b.pkg == pkg && b.name == name && IsCopy(json, m[pkg].channels[ch].bundles[name], b)
  {
    var s := Spot(pkg, ch, name);
    assert s in Spots(filed);
    var x := FiledSpot(cfg.packages, filed, Filed(json, cfg.bundles), s);
    FiledMembers(json, cfg.bundles);
    assert IsPlacement(json, cfg.bundles, x);
    b := x.b;
    SharingCount(json, cfg, filed, x.at);
    NormalizedAt(json, filed, m, s);
  }

  // ---- What the model says ---------------------------------------------------------------------

  /** The bundle declares to be in the channel, replacing the given one there. */
  ghost predicate DeclaresChannel(json: Json, b: CfgBundle, ch: string, replacesName: string) {
    exists v :: v in ValuesOf(b.properties, TYPE_CHANNEL) && json.channel(v) == Some(ChannelProperty(ch, replacesName))
  }

  ghost predicate DeclaresSkips(json: Json, b: CfgBundle, skips: seq<string>) {
    var values := ValuesOf(b.properties, TYPE_SKIPS);
    |skips| == |values| && forall i | 0 <= i < |values| :: json.skip(values[i]) == Some(skips[i])
  }

  /** The model bundle is the declared one, with the edges its properties for the channel give it. */
  ghost predicate ModelsIn(json: Json, b: CfgBundle, ch: string, x: Bundle<Payload>) {
    && x.name == b.name && DeclaresChannel(json, b, ch, x.replacesName) && DeclaresSkips(json, b, x.skips)
    && x.payload.image == b.image && x.payload.relatedImages == b.relatedImages
    && x.payload.csvJson == b.csvJson && x.payload.objects == b.objects
  }

  lemma PlacedModels(json: Json, bundles: seq<CfgBundle>, x: Placement)
    requires IsPlacement(json, bundles, x)
    ensures ModelsIn(json, x.b, x.c.name, ModelBundle(x))
  {
    ParseContents(json, x.b.properties);
    var values := ValuesOf(x.b.properties, TYPE_CHANNEL);
    var i :| 0 <= i < |x.parsed.channels| && x.parsed.channels[i] == x.c;
    assert values[i] in values && json.channel(values[i]) == Some(x.c);
  }

  /** What is found in the model is declared, with exactly the declared edges. */
  lemma FoundIsDeclared(json: Json, cfg: Config, filed: Index, m: Index, pkg: string, ch: string, name: string)
    returns (b: CfgBundle)
    requires ToModel(json, cfg, filed, m) && DistinctBundles(cfg.bundles) && pkg in m && InChannel(m[pkg], ch, name)
    ensures b in cfg.bundles && b.pkg == pkg && b.name == name
    ensures ModelsIn(json, b, ch, m[pkg].channels[ch].bundles[name])
  {
    var s := Spot(pkg, ch, name);
    assert s in Spots(filed);
    var x := FiledSpot(cfg.packages, filed, Filed(json, cfg.bundles), s);
    FiledMembers(json, cfg.bundles);
    assert IsPlacement(json, cfg.bundles, x);
    b := x.b;
    PlacedModels(json, cfg.bundles, x);
    NormalizedAt(json, filed, m, s);
  }

  lemma OneChannelProperty(json: Json, b: CfgBundle, ch: string, r: string) returns (c: ChannelProperty)
    requires ParsedOnce(json, b.properties).Some? && DeclaresChannel(json, b, ch, r)
    ensures c in ParsedOnce(json, b.properties).value.channels && c == ChannelProperty(ch, r)
  {
    ParseContents(json, b.properties);
    var values := ValuesOf(b.properties, TYPE_CHANNEL);
    var v :| v in values && json.channel(v) == Some(ChannelProperty(ch, r));
    var i :| 0 <= i < |values| && values[i] == v;
    c := ParsedOnce(json, b.properties).value.channels[i];
  }

  /** What is declared is found in the model, in every channel it declares, with the replaces it declares there. */
  lemma DeclaredIsFound(json: Json, cfg: Config, filed: Index, m: Index, b: CfgBundle, ch: string, r: string)
    requires ToModel(json, cfg, filed, m) && DistinctBundles(cfg.bundles) && b in cfg.bundles
    requires DeclaresChannel(json, b, ch, r)
    ensures b.pkg in m && InChannel(m[b.pkg], ch, b.name)
    ensures ModelsIn(json, b, ch, m[b.pkg].channels[ch].bundles[b.name])
    ensures m[b.pkg].channels[ch].bundles[b.name].replacesName == r
  {
    assert Accepted(json, cfg.packages, b);
    var at: nat :| at < |cfg.bundles| && cfg.bundles[at] == b;
    var c := OneChannelProperty(json, b, ch, r);
    CopyIsSharing(json, cfg, filed, at, c);
    NormalizedAt(json, filed, m, Spot(b.pkg, ch, b.name));
    var d := FoundIsDeclared(json, cfg, filed, m, b.pkg, ch, b.name);
    SameBundle(cfg.bundles, b, d);
    var e := OneChannelProperty(json, b, ch, m[b.pkg].channels[ch].bundles[b.name].replacesName);
    SameProperty(ParsedOnce(json, b.properties).value.channels, c, e);
  }

  lemma SameProperty(channels: seq<ChannelProperty>, c: ChannelProperty, d: ChannelProperty)
    requires DistinctChannels(channels) && c in channels && d in channels && c.name == d.name
    ensures c == d
  {
    var i :| 0 <= i < |channels| && channels[i] == c;
    var j :| 0 <= j < |channels| && channels[j] == d;
  }

  ghost function CopySpots(b: CfgBundle, channels: seq<ChannelProperty>): (spots: seq<Spot>)
    requires DistinctChannels(channels)
    ensures |spots| == |channels| && forall i | 0 <= i < |channels| :: spots[i] == Spot(b.pkg, channels[i].name, b.name)
    ensures NoRepeats(spots)
  {
    seq(|channels|, i requires 0 <= i < |channels| => Spot(b.pkg, channels[i].name, b.name))
  }

  lemma CopyIsSharing(json: Json, cfg: Config, filed: Index, at: nat, c: ChannelProperty)
    requires forall b | b in cfg.bundles :: ParsedOnce(json, b.properties).Some?
    requires Files(cfg.packages, filed, Filed(json, cfg.bundles)) && DistinctBundles(cfg.bundles) && at < |cfg.bundles|
    requires c in ParsedOnce(json, cfg.bundles[at].properties).value.channels
    ensures Spot(cfg.bundles[at].pkg, c.name, cfg.bundles[at].name) in Sharing(filed, at)
  {
    var b := cfg.bundles[at];
    var x := Placement(at, b, ParsedOnce(json, b.properties).value, c);
    FiledMembers(json, cfg.bundles);
    assert IsPlacement(json, cfg.bundles, x);
    assert Lookup(filed, b.pkg, c.name, b.name) == Some(ModelBundle(x));
    assert Spot(b.pkg, c.name, b.name) in Spots(filed);
  }

  lemma SharingIsCopy(json: Json, cfg: Config, filed: Index, at: nat, s: Spot)
    requires (forall b | b in cfg.bundles :: ParsedOnce(json, b.properties).Some?) && s in Sharing(filed, at)
    requires Files(cfg.packages, filed, Filed(json, cfg.bundles)) && DistinctBundles(cfg.bundles) && at < |cfg.bundles|
    ensures s in CopySpots(cfg.bundles[at], ParsedOnce(json, cfg.bundles[at].properties).value.channels)
  {
    var b := cfg.bundles[at];
    var channels := ParsedOnce(json, b.properties).value.channels;
    var x := FiledSpot(cfg.packages, filed, Filed(json, cfg.bundles), s);
    FiledMembers(json, cfg.bundles);
    assert IsPlacement(json, cfg.bundles, x);
    var i :| 0 <= i < |channels| && channels[i] == x.c;
    assert CopySpots(b, channels)[i] == s;
  }

  /** A property list is shared by as many copies as its bundle lists channels. */
  lemma SharingCount(json: Json, cfg: Config, filed: Index, at: nat)
    requires forall b | b in cfg.bundles :: ParsedOnce(json, b.properties).Some?
    requires Files(cfg.packages, filed, Filed(json, cfg.bundles)) && DistinctBundles(cfg.bundles) && at < |cfg.bundles|
    ensures |Sharing(filed, at)| == Copies(json, cfg.bundles[at])
  {
    var b := cfg.bundles[at];
    var channels := ParsedOnce(json, b.properties).value.channels;
    var spots := CopySpots(b, channels);
    forall i | 0 <= i < |spots|
      ensures spots[i] in Sharing(filed, at)
    {
      CopyIsSharing(json, cfg, filed, at, channels[i]);
    }
    forall s | s in Sharing(filed, at)
      ensures s in spots
    {
      SharingIsCopy(json, cfg, filed, at, s);
    }
    ListSize(spots, Sharing(filed, at));
  }

  lemma AllAreCopies(json: Json, cfg: Config, filed: Index, m: Index, b: CfgBundle)
    requires ToModel(json, cfg, filed, m) && DistinctBundles(cfg.bundles) && b in cfg.bundles && b.pkg in m
    ensures CopiesOf(json, m[b.pkg], b.name, b)
  {
    forall ch | InChannel(m[b.pkg], ch, b.name)
      ensures IsCopy(json, m[b.pkg].channels[ch].bundles[b.name], b)
    {
      var c := FoundIsCopy(json, cfg, filed, m, b.pkg, ch, b.name);
      SameBundle(cfg.bundles, b, c);
    }
  }

  /** However many channels the bundle is in, its properties come out once. */
  lemma {:induction false} CopiesAppended(json: Json, p: ModelPackage, order: seq<string>, b: CfgBundle)
    requires order != [] && AllIn(p, order, b.name) && CopiesOf(json, p, b.name, b)
    ensures var props := NormalizedTimes(json, b.properties, Copies(json, b));
            && FirstOccurrences(Appended(p, order, b.name)) == FirstOccurrences(props)
            && forall x | x in props :: x in Appended(p, order, b.name)
  {
    var n, props := |order| - 1, NormalizedTimes(json, b.properties, Copies(json, b));
    assert InChannel(p, order[n], b.name);
    assert IsCopy(json, p.channels[order[n]].bundles[b.name], b);
    if n == 0 {
      assert Appended(p, order[..0], b.name) == [];
      assert [] + props == props;
    } else {
      CopiesAppended(json, p, order[..n], b);
      NothingNew(Appended(p, order[..n], b.name), props);
    }
  }

  /** What is listed for the package is the declared bundle, renormalized. */
  lemma FinalIsRenormalized(json: Json, cfg: Config, filed: Index, m: Index, own: map<string, seq<string>>, pkg: string,
                            x: CfgBundle)
    returns (b: CfgBundle)
    requires ToModel(json, cfg, filed, m) && DistinctBundles(cfg.bundles) && pkg in m && m[pkg].name == pkg
    requires OrdersOk(m[pkg], own) && IsFinal(m[pkg], own, x)
    ensures b in cfg.bundles && b.pkg == pkg && b.name == x.name && x == Renormalized(json, b)
  {
    var p, order := m[pkg], own[x.name];
    assert InChannel(p, order[0], x.name);
    b := FoundIsCopy(json, cfg, filed, m, pkg, order[0], x.name);
    AllAreCopies(json, cfg, filed, m, b);
    CopiesAppended(json, p, order, b);
  }

  /** A declared bundle is in some channel of the model. */
  lemma DeclaredIsFiled(json: Json, cfg: Config, filed: Index, m: Index, b: CfgBundle) returns (ch: string)
    requires ToModel(json, cfg, filed, m) && DistinctBundles(cfg.bundles) && b in cfg.bundles
    ensures b.pkg in m && InChannel(m[b.pkg], ch, b.name)
  {
    assert Accepted(json, cfg.packages, b);
    var parsed := ParsedOnce(json, b.properties).value;
    var at: nat :| at < |cfg.bundles| && cfg.bundles[at] == b;
    ch := parsed.channels[0].name;
    CopyIsSharing(json, cfg, filed, at, parsed.channels[0]);
    NormalizedAt(json, filed, m, Spot(b.pkg, ch, b.name));
  }

  lemma ModelKeyed(json: Json, cfg: Config, filed: Index, m: Index)
    requires ToModel(json, cfg, filed, m)
    ensures IndexKeyed(m)
  {
    forall k | k in m
      ensures m[k].name == k && NamesKeyed(m[k])
    {
      assert ValidPackage(json, filed[k]);
    }
  }

  lemma DeclaredIsListed(json: Json, cfg: Config, filed: Index, m: Index, orders: Orders, raw: Config, b: CfgBundle)
    requires ToModel(json, cfg, filed, m) && DistinctBundles(cfg.bundles) && IndexKeyed(m)
    requires OrdersFit(m, orders) && orders.Keys == m.Keys && Unsorted(m, orders, raw) && b in cfg.bundles
    ensures Renormalized(json, b) in raw.bundles
  {
    var ch := DeclaredIsFiled(json, cfg, filed, m, b);
    var own := orders[b.pkg];
    assert Covers(own, ch, m[b.pkg].channels[ch].bundles.Keys);
    assert ch in OrderOf(own, b.name);
    assert HasBundle(raw.bundles, b.pkg, b.name);
    var x :| x in raw.bundles && x.pkg == b.pkg && x.name == b.name;
    var c := FinalIsRenormalized(json, cfg, filed, m, own, b.pkg, x);
    SameBundle(cfg.bundles, b, c);
  }

  lemma BundleInBoth(json: Json, cfg: Config, filed: Index, m: Index, orders: Orders, raw: Config, x: CfgBundle)
    requires ToModel(json, cfg, filed, m) && DistinctBundles(cfg.bundles) && IndexKeyed(m)
    requires OrdersFit(m, orders) && orders.Keys == m.Keys && Unsorted(m, orders, raw)
    ensures x in raw.bundles <==> x in RenormalizedAll(json, cfg.bundles)
  {
    var all := RenormalizedAll(json, cfg.bundles);
    if x in all {
      var i :| 0 <= i < |all| && all[i] == x;
      DeclaredIsListed(json, cfg, filed, m, orders, raw, cfg.bundles[i]);
    }
    if x in raw.bundles {
      var b := FinalIsRenormalized(json, cfg, filed, m, orders[x.pkg], x.pkg, x);
      var i :| 0 <= i < |cfg.bundles| && cfg.bundles[i] == b;
      assert all[i] == x;
    }
  }

  lemma BundlesOnce(bundles: seq<CfgBundle>)
    requires DistinctBundles(bundles)
    ensures NoRepeats(bundles)
  {
  }

  lemma RenormalizedDistinct(json: Json, bundles: seq<CfgBundle>)
    requires DistinctBundles(bundles)
    ensures DistinctBundles(RenormalizedAll(json, bundles))
  {
  }

  lemma BundlesBack(json: Json, cfg: Config, filed: Index, m: Index, orders: Orders, raw: Config)
    requires ToModel(json, cfg, filed, m) && DistinctBundles(cfg.bundles) && IndexKeyed(m)
    requires OrdersFit(m, orders) && orders.Keys == m.Keys && Unsorted(m, orders, raw)
    ensures multiset(raw.bundles) == multiset(RenormalizedAll(json, cfg.bundles))
  {
    forall x
      ensures x in raw.bundles <==> x in RenormalizedAll(json, cfg.bundles)
    {
      BundleInBoth(json, cfg, filed, m, orders, raw, x);
    }
    BundlesOnce(raw.bundles);
    RenormalizedDistinct(json, cfg.bundles);
    BundlesOnce(RenormalizedAll(json, cfg.bundles));
    SameElements(raw.bundles, RenormalizedAll(json, cfg.bundles));
  }

  /** If compact values stay as they are, the number of channels does not matter. */
  lemma OnceIsEnough(json: Json, cfg: Config)
    requires CompactOnce(json) && forall b | b in cfg.bundles :: Accepted(json, cfg.packages, b)
    ensures forall b | b in cfg.bundles ::
              Renormalized(json, b).properties == FirstOccurrences(NormalizedAll(json, b.properties))
  {
    forall b | b in cfg.bundles
      ensures NormalizedTimes(json, b.properties, Copies(json, b)) == NormalizedAll(json, b.properties)
    {
      TimesIsOnce(json, b.properties, Copies(json, b));
    }
  }

  /** q is p with its value in compact form, or as it is if it has none. */
  ghost predicate Compacts(json: Json, p: Property, q: Property) {
    q.typ == p.typ && if json.compact(p.value).None? then q.value == p.value else json.compact(p.value) == Some(q.value)
  }

  ghost predicate CompactedFrom(json: Json, props: seq<Property>, out: seq<Property>) {
    && (forall i, j | 0 <= i < j < |out| :: out[i] != out[j])
    && (forall q | q in out :: exists p :: p in props && Compacts(json, p, q))
    && (forall p | p in props :: exists q :: q in out && Compacts(json, p, q))
  }

  lemma NormalizedIsCompacted(json: Json, props: seq<Property>)
    ensures CompactedFrom(json, props, FirstOccurrences(NormalizedAll(json, props)))
  {
    var all := NormalizedAll(json, props);
    var out := FirstOccurrences(all);
    FirstOccurrencesFacts(all);
    forall q | q in out
      ensures exists p :: p in props && Compacts(json, p, q)
    {
      var i :| 0 <= i < |all| && all[i] == q;
      assert props[i] in props && Compacts(json, props[i], q);
    }
    forall p | p in props
      ensures exists q :: q in out && Compacts(json, p, q)
    {
      var i :| 0 <= i < |props| && props[i] == p;
      assert all[i] in all && Compacts(json, p, all[i]);
    }
  }

  /**
    For distinct package names and distinct bundle names per package: converting to the model and back gives the
    same packages and bundles, sorted by name, each property list normalized and deduplicated.
  */
  method ThroughModel(json: Json, cfg: Config) returns (r: Option<Config>)
    requires DistinctPackages(cfg.packages) && DistinctBundles(cfg.bundles)
    ensures r.None? <==> (exists b :: b in cfg.bundles && !Accepted(json, cfg.packages, b)) || FiledInvalid(json, cfg)
    ensures r.Some? ==>
              multiset(r.value.packages) == multiset(cfg.packages) &&
              SortedBy(r.value.packages, (p: CfgPackage) => p.name)
    ensures r.Some? ==>
              multiset(r.value.bundles) == multiset(RenormalizedAll(json, cfg.bundles)) &&
              SortedBy(r.value.bundles, (b: CfgBundle) => b.name)
    ensures r.Some? && CompactOnce(json) ==>
              forall b | b in cfg.bundles ::
                && Renormalized(json, b).properties == FirstOccurrences(NormalizedAll(json, b.properties))
                && CompactedFrom(json, b.properties, Renormalized(json, b).properties)
  {
    var m := ConvertToModel(json, cfg);
    if m.None? {
      return None;
    }
    ghost var raw, orders;
    ghost var filed :| ToModel(json, cfg, filed, m.value);
    ModelKeyed(json, cfg, filed, m.value);
    var back;
    back, raw, orders := ConvertFromModel(m.value);
    PackagesBack(json, cfg, filed, m.value, orders, raw);
    BundlesBack(json, cfg, filed, m.value, orders, raw);
    if CompactOnce(json) {
      OnceIsEnough(json, cfg);
      forall b | b in cfg.bundles
        ensures CompactedFrom(json, b.properties, Renormalized(json, b).properties)
      {
        NormalizedIsCompacted(json, b.properties);
      }
    }
    return Some(back);
  }
}
