/** From a declarative config to the in-memory model: internal/declcfg/declcfg_to_model.go, internal/model/model.go. */
module DeclConfig {
  import opened Common
  import opened Model
  import opened Properties

  datatype Icon = Icon(data: string, mediaType: string)

  datatype RelatedImage = RelatedImage(name: string, image: string)

  datatype CfgPackage = CfgPackage(name: string, defaultChannel: string, icon: Option<Icon>, description: string)

  datatype CfgBundle = CfgBundle(
    name: string, pkg: string, image: string, properties: seq<Property>, relatedImages: seq<RelatedImage>,
    csvJson: string, objects: seq<string>)

  datatype Config = Config(packages: seq<CfgPackage>, bundles: seq<CfgBundle>)

  /**
    What a bundle of the model carries besides its name and edges. The copies of a declared bundle in its channels share
    one property list; list says whose it is, by the position of the declaration.
  */
  datatype Payload = Payload(
    image: string, properties: seq<Property>, list: nat, relatedImages: seq<RelatedImage>, csvJson: string,
    objects: seq<string>)

  datatype ModelPackage = ModelPackage(
    name: string, description: string, icon: Option<Icon>, defaultChannel: Option<string>,
    channels: map<string, Channel<Payload>>)

  type Index = map<string, ModelPackage>

  // ---- Packages --------------------------------------------------------------------------------

  /** The last package declared with the name. */
  function FindPackage(packages: seq<CfgPackage>, name: string): Option<CfgPackage> {
    if packages == [] then None
    else if packages[|packages| - 1].name == name then Some(packages[|packages| - 1])
    else FindPackage(packages[..|packages| - 1], name)
  }

  function Bare(p: CfgPackage): ModelPackage {
    ModelPackage(p.name, p.description, p.icon, None, map[])
  }

  ghost predicate PackagesAdded(packages: seq<CfgPackage>, m: Index) {
    forall name :: if FindPackage(packages, name).Some?
                   then name in m && m[name] == Bare(FindPackage(packages, name).value)
                   else name !in m
  }

  method AddPackages(packages: seq<CfgPackage>) returns (m: Index)
    ensures PackagesAdded(packages, m)
  {
    m := map[];
    for n := 0 to |packages|
      invariant PackagesAdded(packages[..n], m)
    {
      assert packages[..n + 1][..n] == packages[..n];
      m := m[packages[n].name := Bare(packages[n])];
    }
    assert packages[..|packages|] == packages;
  }

  // ---- Filing bundles --------------------------------------------------------------------------

  /** The bundle declared at a position, in one of its channels. */
  datatype Placement = Placement(at: nat, b: CfgBundle, parsed: Parsed, c: ChannelProperty)

  function ModelBundle(x: Placement): Bundle<Payload> {
    Bundle(x.b.name, x.c.replacesName, x.parsed.skips,
           Payload(x.b.image, x.b.properties, x.at, x.b.relatedImages, x.b.csvJson, x.b.objects))
  }

  function Lookup(m: Index, pkg: string, ch: string, name: string): Option<Bundle<Payload>> {
    if pkg in m && ch in m[pkg].channels && name in m[pkg].channels[ch].bundles
    then Some(m[pkg].channels[ch].bundles[name])
    else None
  }

  predicate SamePlace(x: Placement, y: Placement) {
    x.b.pkg == y.b.pkg && x.c.name == y.c.name && x.b.name == y.b.name
  }

  ghost predicate ChannelsKeyed(m: Index) {
    forall pkg, ch | pkg in m && ch in m[pkg].channels ::
      m[pkg].channels[ch].name == ch && m[pkg].channels[ch].bundles != map[]
  }

  function DefaultName(packages: seq<CfgPackage>, pkg: string): string {
    match FindPackage(packages, pkg)
    case None => ""
    case Some(p) => p.defaultChannel
  }

  /** Apart from its channels the package is as declared; the default channel is set once that channel exists. */
  ghost predicate PackageKept(packages: seq<CfgPackage>, m: Index, name: string) {
    && (name in m <==> FindPackage(packages, name).Some?)
    && (name in m ==>
          && m[name].(channels := map[], defaultChannel := None) == Bare(FindPackage(packages, name).value)
          && m[name].defaultChannel == (if DefaultName(packages, name) in m[name].channels
                                        then Some(DefaultName(packages, name))
                                        else None))
  }

  ghost predicate Taken(done: set<Placement>, pkg: string, ch: string, name: string) {
    exists x :: x in done && x.b.pkg == pkg && x.c.name == ch && x.b.name == name
  }

  /** The index holds exactly the given placements. */
  ghost predicate Files(packages: seq<CfgPackage>, m: Index, done: set<Placement>) {
    && ChannelsKeyed(m)
    && (forall name :: PackageKept(packages, m, name))
    && (forall x | x in done :: Lookup(m, x.b.pkg, x.c.name, x.b.name) == Some(ModelBundle(x)))
    && (forall pkg, ch, name | Lookup(m, pkg, ch, name).Some? :: Taken(done, pkg, ch, name))
  }

  function FileIn(p: ModelPackage, default: string, x: Placement): ModelPackage {
    var ch := x.c.name;
    var old_ := if ch in p.channels then p.channels[ch] else Channel(ch, map[]);
    p.(defaultChannel := if ch !in p.channels && ch == default then Some(ch) else p.defaultChannel,
       channels := p.channels[ch := old_.(bundles := old_.bundles[x.b.name := ModelBundle(x)])])
  }

  /** Later placements take the place of earlier ones. */
  ghost function Replace(done: set<Placement>, x: Placement): set<Placement> {
    (set y | y in done && !SamePlace(x, y)) + {x}
  }

  function FileOne(packages: seq<CfgPackage>, m: Index, x: Placement): Index
    requires x.b.pkg in m
  {
    m[x.b.pkg := FileIn(m[x.b.pkg], DefaultName(packages, x.b.pkg), x)]
  }

  lemma LookupAfter(packages: seq<CfgPackage>, m: Index, x: Placement, pkg: string, ch: string, name: string)
    requires x.b.pkg in m
    ensures Lookup(FileOne(packages, m, x), pkg, ch, name)
            == if pkg == x.b.pkg && ch == x.c.name && name == x.b.name
               then Some(ModelBundle(x))
               else Lookup(m, pkg, ch, name)
  {
  }

  lemma PackageStep(packages: seq<CfgPackage>, m: Index, x: Placement, name: string)
    requires x.b.pkg in m && PackageKept(packages, m, name)
    ensures PackageKept(packages, FileOne(packages, m, x), name)
  {
  }

  lemma KeyedStep(packages: seq<CfgPackage>, m: Index, x: Placement)
    requires x.b.pkg in m && ChannelsKeyed(m)
    ensures ChannelsKeyed(FileOne(packages, m, x))
  {
    var m' := FileOne(packages, m, x);
    forall pkg, ch | pkg in m' && ch in m'[pkg].channels
      ensures m'[pkg].channels[ch].name == ch && m'[pkg].channels[ch].bundles != map[]
    {
      if pkg == x.b.pkg && ch == x.c.name {
        assert x.b.name in m'[pkg].channels[ch].bundles;
      }
    }
  }

  lemma FilesStep(packages: seq<CfgPackage>, m: Index, done: set<Placement>, x: Placement)
    requires Files(packages, m, done) && x.b.pkg in m
    ensures Files(packages, FileOne(packages, m, x), Replace(done, x))
  {
    var m', done' := FileOne(packages, m, x), Replace(done, x);
    KeyedStep(packages, m, x);
    forall name
      ensures PackageKept(packages, m', name)
    {
      PackageStep(packages, m, x, name);
    }
    forall y | y in done'
      ensures Lookup(m', y.b.pkg, y.c.name, y.b.name) == Some(ModelBundle(y))
    {
      LookupAfter(packages, m, x, y.b.pkg, y.c.name, y.b.name);
    }
    forall pkg, ch, name | Lookup(m', pkg, ch, name).Some?
      ensures Taken(done', pkg, ch, name)
    {
      LookupAfter(packages, m, x, pkg, ch, name);
      if pkg == x.b.pkg && ch == x.c.name && name == x.b.name {
        assert x in done';
      } else {
        var y :| y in done && y.b.pkg == pkg && y.c.name == ch && y.b.name == name;
        assert y in done';
      }
    }
  }

  // ---- The loop over the bundles ---------------------------------------------------------------

  /** The checks a bundle must pass to be filed. */
  predicate Accepted(json: Json, packages: seq<CfgPackage>, b: CfgBundle) {
    && b.pkg != "" && FindPackage(packages, b.pkg).Some?
    && var parsed := ParsedOnce(json, b.properties);
       parsed.Some? && |parsed.value.packages| > 0 && parsed.value.packages[0] == b.pkg && |parsed.value.channels| > 0
  }

  ghost function PlacementsOf(at: nat, b: CfgBundle, parsed: Parsed, k: nat): set<Placement>
    requires k <= |parsed.channels|
  {
    set i | 0 <= i < k :: Placement(at, b, parsed, parsed.channels[i])
  }

  /** What is filed after all bundles: their placements, later ones replacing earlier ones in the same place. */
  ghost function ReplaceAll(done: set<Placement>, at: nat, b: CfgBundle, parsed: Parsed, k: nat): set<Placement>
    requires k <= |parsed.channels|
  {
    if k == 0
    then done
    else Replace(ReplaceAll(done, at, b, parsed, k - 1), Placement(at, b, parsed, parsed.channels[k - 1]))
  }

  ghost function Filed(json: Json, bundles: seq<CfgBundle>): set<Placement>
    requires forall b | b in bundles :: ParsedOnce(json, b.properties).Some?
  {
    if bundles == [] then {}
    else
      var b := bundles[|bundles| - 1];
      var parsed := ParsedOnce(json, b.properties).value;
      ReplaceAll(Filed(json, bundles[..|bundles| - 1]), |bundles| - 1, b, parsed, |parsed.channels|)
  }

  method FileBundle(packages: seq<CfgPackage>, m: Index, at: nat, b: CfgBundle, parsed: Parsed,
                    ghost done: set<Placement>)
    returns (m': Index)
    requires Files(packages, m, done) && FindPackage(packages, b.pkg).Some?
    ensures Files(packages, m', ReplaceAll(done, at, b, parsed, |parsed.channels|))
  {
    m' := m;
    for k := 0 to |parsed.channels|
      invariant Files(packages, m', ReplaceAll(done, at, b, parsed, k))
    {
      assert PackageKept(packages, m', b.pkg);
      FilesStep(packages, m', ReplaceAll(done, at, b, parsed, k), Placement(at, b, parsed, parsed.channels[k]));
      m' := FileOne(packages, m', Placement(at, b, parsed, parsed.channels[k]));
    }
  }

  lemma NothingFiled(packages: seq<CfgPackage>, m: Index)
    requires PackagesAdded(packages, m)
    ensures Files(packages, m, {})
  {
    forall name
      ensures PackageKept(packages, m, name)
    {
    }
  }

  /** None on the first bundle that fails a check. */
  method FileBundles(json: Json, packages: seq<CfgPackage>, bundles: seq<CfgBundle>, start: Index)
    returns (r: Option<Index>)
    requires PackagesAdded(packages, start)
    ensures r.Some? <==> forall b | b in bundles :: Accepted(json, packages, b)
    ensures r.Some? ==> Files(packages, r.value, Filed(json, bundles))
  {
    var m := start;
    NothingFiled(packages, m);
    for n := 0 to |bundles|
      invariant forall b | b in bundles[..n] :: Accepted(json, packages, b)
      invariant Files(packages, m, Filed(json, bundles[..n]))
    {
      var b := bundles[n];
      assert bundles[..n + 1][..n] == bundles[..n] && bundles[..n + 1] == bundles[..n] + [b];
      assert PackageKept(packages, m, b.pkg);
      assert b in bundles;
      if b.pkg == "" || b.pkg !in m {
        assert !Accepted(json, packages, b);
        return None;
      }
      var parsed := ParseProperties(json, b.properties);
      if parsed.None? || |parsed.value.packages| == 0 || b.pkg != parsed.value.packages[0]
        || |parsed.value.channels| == 0 {
        assert !Accepted(json, packages, b);
        return None;
      }
      m := FileBundle(packages, m, n, b, parsed.value, Filed(json, bundles[..n]));
    }
    assert bundles[..|bundles|] == bundles;
    return Some(m);
  }

  // ---- Distinct names --------------------------------------------------------------------------

  ghost predicate DistinctBundles(bundles: seq<CfgBundle>) {
    forall i, j | 0 <= i < j < |bundles| :: bundles[i].pkg != bundles[j].pkg || bundles[i].name != bundles[j].name
  }

  ghost predicate DistinctPackages(packages: seq<CfgPackage>) {
    forall i, j | 0 <= i < j < |packages| :: packages[i].name != packages[j].name
  }

  ghost predicate IsPlacement(json: Json, bundles: seq<CfgBundle>, x: Placement) {
    x.at < |bundles| && bundles[x.at] == x.b && ParsedOnce(json, x.b.properties) == Some(x.parsed)
      && x.c in x.parsed.channels
  }

  lemma {:induction false} ReplaceAllAdds(done: set<Placement>, at: nat, b: CfgBundle, parsed: Parsed, k: nat)
    requires k <= |parsed.channels| && DistinctChannels(parsed.channels)
    requires forall y | y in done :: y.b.pkg != b.pkg || y.b.name != b.name
    ensures ReplaceAll(done, at, b, parsed, k) == done + PlacementsOf(at, b, parsed, k)
  {
    if k > 0 {
      ReplaceAllAdds(done, at, b, parsed, k - 1);
      var before, x := done + PlacementsOf(at, b, parsed, k - 1), Placement(at, b, parsed, parsed.channels[k - 1]);
      forall y | y in before
        ensures !SamePlace(x, y)
      {
        if y !in done {
          var i :| 0 <= i < k - 1 && y == Placement(at, b, parsed, parsed.channels[i]);
        }
      }
      assert PlacementsOf(at, b, parsed, k) == PlacementsOf(at, b, parsed, k - 1) + {x};
    }
  }

  /** With distinct names nothing is replaced: exactly all placements are filed. */
  lemma {:induction false} FiledMembers(json: Json, bundles: seq<CfgBundle>)
    requires DistinctBundles(bundles) && forall b | b in bundles :: ParsedOnce(json, b.properties).Some?
    ensures forall x :: x in Filed(json, bundles) <==> IsPlacement(json, bundles, x)
  {
    if bundles != [] {
      var n := |bundles| - 1;
      var b := bundles[n];
      var parsed := ParsedOnce(json, b.properties).value;
      assert bundles == bundles[..n] + [b];
      FiledMembers(json, bundles[..n]);
      var done := Filed(json, bundles[..n]);
      forall y | y in done
        ensures y.b.pkg != b.pkg || y.b.name != b.name
      {
        assert bundles[y.at] == y.b;
      }
      ReplaceAllAdds(done, n, b, parsed, |parsed.channels|);
      forall x
        ensures x in Filed(json, bundles) <==> IsPlacement(json, bundles, x)
      {
        LastPlacements(json, bundles, n, x);
      }
    }
  }

  lemma LastPlacements(json: Json, bundles: seq<CfgBundle>, n: nat, x: Placement)
    requires n + 1 == |bundles| && ParsedOnce(json, bundles[n].properties).Some?
    ensures var parsed := ParsedOnce(json, bundles[n].properties).value;
            IsPlacement(json, bundles, x) <==>
              IsPlacement(json, bundles[..n], x) || x in PlacementsOf(n, bundles[n], parsed, |parsed.channels|)
  {
    var parsed := ParsedOnce(json, bundles[n].properties).value;
    assert bundles == bundles[..n] + [bundles[n]];
    if x.at == n && x.b == bundles[n] && x.parsed == parsed && x.c in parsed.channels {
      var i :| 0 <= i < |parsed.channels| && parsed.channels[i] == x.c;
      assert x == Placement(n, bundles[n], parsed, parsed.channels[i]);
    }
  }

  // ---- Validation ------------------------------------------------------------------------------

  /** The default channel of a package that has no bundle in it: it is created empty. */
  function WithDefault(p: ModelPackage, default: string): ModelPackage {
    if default != "" && p.defaultChannel.None?
    then p.(defaultChannel := Some(default), channels := p.channels[default := Channel(default, map[])]) else p
  }

  function WithDefaults(packages: seq<CfgPackage>, m: Index): Index {
    map k | k in m :: WithDefault(m[k], DefaultName(packages, m[k].name))
  }

  predicate PayloadOk(json: Json, p: Payload) {
    && ParseAll(json, p.properties).Some? && |ParseAll(json, p.properties).value.packages| == 1
    && (p.image != "" || p.objects != [])
  }

  /** A bundle's own fields are valid exactly if all its properties decode, one names its package and it has content. */
  lemma PayloadOkIff(json: Json, p: Payload)
    ensures PayloadOk(json, p) <==>
              && (forall q | q in p.properties :: Decodes(json, q))
              && |ValuesOf(p.properties, TYPE_PACKAGE)| == 1
              && !(p.image == "" && p.objects == [])
  {
    ParseContents(json, p.properties);
  }

  ghost predicate ValidPackage(json: Json, p: ModelPackage) {
    && p.name != "" && p.channels != map[] && p.defaultChannel.Some? && p.defaultChannel.value in p.channels
    && forall ch | ch in p.channels ::
         p.channels[ch].name == ch && Validated(p.channels[ch], (x: Payload) => PayloadOk(json, x))
  }

  ghost predicate ValidIndex(json: Json, m: Index) {
    forall k | k in m :: m[k].name == k && ValidPackage(json, m[k])
  }

  method ValidatePackage(json: Json, p: ModelPackage) returns (ok: bool)
    ensures ok <==> ValidPackage(json, p)
  {
    ok := p.name != "" && p.channels != map[] && p.defaultChannel.Some? && p.defaultChannel.value in p.channels;
    var rest := p.channels.Keys;
    while rest != {}
      invariant rest <= p.channels.Keys
      invariant ok <==> p.name != "" && p.channels != map[] &&
                        p.defaultChannel.Some? && p.defaultChannel.value in p.channels &&
                        forall ch | ch in p.channels && ch !in rest ::
                          p.channels[ch].name == ch && Validated(p.channels[ch], (x: Payload) => PayloadOk(json, x))
      decreases |rest|
    {
      var ch :| ch in rest;
      rest := rest - {ch};
      var valid := Model.Validate(p.channels[ch], (x: Payload) => PayloadOk(json, x));
      ok := ok && valid && p.channels[ch].name == ch;
    }
  }

  method ValidateIndex(json: Json, m: Index) returns (ok: bool)
    ensures ok <==> ValidIndex(json, m)
  {
    ok := true;
    var rest := m.Keys;
    while rest != {}
      invariant rest <= m.Keys
      invariant ok <==> forall k | k in m && k !in rest :: m[k].name == k && ValidPackage(json, m[k])
      decreases |rest|
    {
      var k :| k in rest;
      rest := rest - {k};
      var valid := ValidatePackage(json, m[k]);
      ok := ok && valid && m[k].name == k;
    }
  }

  lemma EmptyDefaultInvalid(json: Json, p: ModelPackage, default: string)
    requires default != "" && p.defaultChannel.None?
    ensures !ValidPackage(json, WithDefault(p, default))
  {
    var full := WithDefault(p, default);
    assert default in full.channels && full.channels[default].bundles == map[];
  }

  /** An index that validates has no channel that was created empty. */
  lemma NoEmptyDefault(json: Json, packages: seq<CfgPackage>, m: Index)
    requires ValidIndex(json, WithDefaults(packages, m))
    ensures WithDefaults(packages, m) == m
  {
    var full := WithDefaults(packages, m);
    forall k | k in m && DefaultName(packages, m[k].name) != "" && m[k].defaultChannel.None?
      ensures !ValidPackage(json, full[k])
    {
      EmptyDefaultInvalid(json, m[k], DefaultName(packages, m[k].name));
    }
  }

  // ---- Normalizing -----------------------------------------------------------------------------

  /** A place in the index where a bundle is filed. */
  datatype Spot = Spot(pkg: string, ch: string, name: string)

  function Spots(m: Index): set<Spot> {
    set pkg, ch, name | pkg in m && ch in m[pkg].channels && name in m[pkg].channels[ch].bundles :: Spot(pkg, ch, name)
  }

  function PayloadAt(m: Index, s: Spot): Payload
    requires s in Spots(m)
  {
    m[s.pkg].channels[s.ch].bundles[s.name].payload
  }

  /** The copies that share a property list. */
  ghost function Sharing(m: Index, list: nat): set<Spot> {
    set s | s in Spots(m) && PayloadAt(m, s).list == list
  }

  ghost predicate SharedLists(m: Index) {
    forall s, t | s in Spots(m) && t in Spots(m) && PayloadAt(m, s).list == PayloadAt(m, t).list ::
      PayloadAt(m, s).properties == PayloadAt(m, t).properties
  }

  function Relisted(b: Bundle<Payload>, lists: map<nat, seq<Property>>): Bundle<Payload> {
    if b.payload.list in lists then b.(payload := b.payload.(properties := lists[b.payload.list])) else b
  }

  function RelistedChannel(c: Channel<Payload>, lists: map<nat, seq<Property>>): Channel<Payload> {
    c.(bundles := map k | k in c.bundles :: Relisted(c.bundles[k], lists))
  }

  function RelistedPackage(p: ModelPackage, lists: map<nat, seq<Property>>): ModelPackage {
    p.(channels := map ch | ch in p.channels :: RelistedChannel(p.channels[ch], lists))
  }

  /** The index with the property lists that are given. */
  function RelistedIndex(m: Index, lists: map<nat, seq<Property>>): Index {
    map k | k in m :: RelistedPackage(m[k], lists)
  }

  /** A list is normalized once for each of the copies that share it and are not left. */
  ghost predicate ListIs(json: Json, m: Index, lists: map<nat, seq<Property>>, left: set<Spot>, list: nat,
                         props: seq<Property>) {
    list in lists && lists[list] == NormalizedTimes(json, props, |Sharing(m, list) - left|)
  }

  ghost predicate NormalizedLists(json: Json, m: Index, lists: map<nat, seq<Property>>, left: set<Spot>) {
    forall s | s in Spots(m) :: ListIs(json, m, lists, left, PayloadAt(m, s).list, PayloadAt(m, s).properties)
  }

  lemma OneFewer(left: set<Spot>, s: Spot)
    requires s in left
    ensures |left - {s}| < |left|
  {
  }

  lemma OneMoreCopy(m: Index, left: set<Spot>, s: Spot, list: nat)
    requires left <= Spots(m) && s in left
    ensures |Sharing(m, list) - (left - {s})|
            == |Sharing(m, list) - left| + if PayloadAt(m, s).list == list then 1 else 0
  {
    var before, after := Sharing(m, list) - left, Sharing(m, list) - (left - {s});
    if PayloadAt(m, s).list == list {
      assert after == before + {s};
    } else {
      assert after == before;
    }
  }

  lemma TimesStep(json: Json, lists: map<nat, seq<Property>>, mine: nat, list: nat, props: seq<Property>, k: nat,
                  more: nat)
    requires mine in lists && list in lists && lists[list] == NormalizedTimes(json, props, k)
    requires more == k + if mine == list then 1 else 0
    ensures lists[mine := NormalizedAll(json, lists[mine])][list] == NormalizedTimes(json, props, more)
  {
  }

  lemma ListStep(json: Json, m: Index, lists: map<nat, seq<Property>>, left: set<Spot>, s: Spot, mine: nat, list: nat,
                 props: seq<Property>)
    requires left <= Spots(m) && s in left && mine == PayloadAt(m, s).list && mine in lists
    requires ListIs(json, m, lists, left, list, props)
    ensures ListIs(json, m, lists[mine := NormalizedAll(json, lists[mine])], left - {s}, list, props)
  {
    OneMoreCopy(m, left, s, list);
    TimesStep(json, lists, mine, list, props, |Sharing(m, list) - left|, |Sharing(m, list) - (left - {s})|);
  }

  lemma NormalizedStep(json: Json, m: Index, lists: map<nat, seq<Property>>, left: set<Spot>, s: Spot)
    requires NormalizedLists(json, m, lists, left) && left <= Spots(m) && s in left
    ensures var list := PayloadAt(m, s).list;
            list in lists && NormalizedLists(json, m, lists[list := NormalizedAll(json, lists[list])], left - {s})
  {
    var list := PayloadAt(m, s).list;
    assert ListIs(json, m, lists, left, list, PayloadAt(m, s).properties);
    var lists', left' := lists[list := NormalizedAll(json, lists[list])], left - {s};
    forall t | t in Spots(m)
      ensures ListIs(json, m, lists', left', PayloadAt(m, t).list, PayloadAt(m, t).properties)
    {
      ListStep(json, m, lists, left, s, list, PayloadAt(m, t).list, PayloadAt(m, t).properties);
    }
  }

  lemma NothingNormalized(json: Json, m: Index, lists: map<nat, seq<Property>>)
    requires forall s | s in Spots(m) ::
               PayloadAt(m, s).list in lists && lists[PayloadAt(m, s).list] == PayloadAt(m, s).properties
    ensures NormalizedLists(json, m, lists, Spots(m))
  {
    forall s | s in Spots(m)
      ensures ListIs(json, m, lists, Spots(m), PayloadAt(m, s).list, PayloadAt(m, s).properties)
    {
      assert Sharing(m, PayloadAt(m, s).list) - Spots(m) == {};
    }
  }

  /** Normalize, over the copies in any order. */
  method NormalizeLists(json: Json, m: Index) returns (lists: map<nat, seq<Property>>)
    requires SharedLists(m)
    ensures NormalizedLists(json, m, lists, {})
  {
    lists := map s | s in Spots(m) :: PayloadAt(m, s).list := PayloadAt(m, s).properties;
    NothingNormalized(json, m, lists);
    var left := Spots(m);
    while left != {}
      invariant left <= Spots(m) && NormalizedLists(json, m, lists, left)
      decreases |left|
    {
      var s :| s in left;
      NormalizedStep(json, m, lists, left, s);
      OneFewer(left, s);
      var list := PayloadAt(m, s).list;
      lists := lists[list := NormalizedAll(json, lists[list])];
      left := left - {s};
    }
  }

  /** The index after Normalize: each property list normalized as often as it has copies. */
  ghost predicate IsNormalized(json: Json, m: Index, m': Index) {
    exists lists :: NormalizedLists(json, m, lists, {}) && m' == RelistedIndex(m, lists)
  }

  lemma RelistedAt(m: Index, lists: map<nat, seq<Property>>, s: Spot)
    requires s in Spots(m)
    ensures s in Spots(RelistedIndex(m, lists))
    ensures RelistedIndex(m, lists)[s.pkg].channels[s.ch].bundles[s.name]
              == Relisted(m[s.pkg].channels[s.ch].bundles[s.name], lists)
  {
    var m' := RelistedIndex(m, lists);
    assert s.pkg in m' && s.ch in m'[s.pkg].channels && s.name in m'[s.pkg].channels[s.ch].bundles;
  }

  lemma NormalizedAt(json: Json, m: Index, m': Index, s: Spot)
    requires IsNormalized(json, m, m') && s in Spots(m)
    ensures s in Spots(m')
    ensures var b, b' := m[s.pkg].channels[s.ch].bundles[s.name], m'[s.pkg].channels[s.ch].bundles[s.name];
            var props := NormalizedTimes(json, b.payload.properties, |Sharing(m, b.payload.list)|);
            b' == b.(payload := b.payload.(properties := props))
  {
    var lists :| NormalizedLists(json, m, lists, {}) && m' == RelistedIndex(m, lists);
    var list := PayloadAt(m, s).list;
    assert ListIs(json, m, lists, {}, list, PayloadAt(m, s).properties);
    assert Sharing(m, list) - {} == Sharing(m, list);
    RelistedAt(m, lists, s);
  }

  // ---- The copies of one bundle ----------------------------------------------------------------

  lemma {:induction false} ReplaceAllFrom(done: set<Placement>, at: nat, b: CfgBundle, parsed: Parsed, k: nat,
                                          x: Placement)
    requires k <= |parsed.channels| && x in ReplaceAll(done, at, b, parsed, k)
    ensures x in done || (x.at == at && x.b == b)
  {
    if k > 0 && x != Placement(at, b, parsed, parsed.channels[k - 1]) {
      ReplaceAllFrom(done, at, b, parsed, k - 1, x);
    }
  }

  /** A placement comes from the bundle at its position. */
  lemma {:induction false} FiledAt(json: Json, bundles: seq<CfgBundle>, x: Placement)
    requires (forall b | b in bundles :: ParsedOnce(json, b.properties).Some?) && x in Filed(json, bundles)
    ensures x.at < |bundles| && bundles[x.at] == x.b
  {
    var n := |bundles| - 1;
    var parsed := ParsedOnce(json, bundles[n].properties).value;
    ReplaceAllFrom(Filed(json, bundles[..n]), n, bundles[n], parsed, |parsed.channels|, x);
    if x in Filed(json, bundles[..n]) {
      FiledAt(json, bundles[..n], x);
    }
  }

  /** What is filed at a place comes from a placement. */
  lemma FiledSpot(packages: seq<CfgPackage>, m: Index, done: set<Placement>, s: Spot) returns (x: Placement)
    requires Files(packages, m, done) && s in Spots(m)
    ensures x in done && s == Spot(x.b.pkg, x.c.name, x.b.name)
    ensures m[s.pkg].channels[s.ch].bundles[s.name] == ModelBundle(x)
  {
    assert Lookup(m, s.pkg, s.ch, s.name).Some?;
    assert Taken(done, s.pkg, s.ch, s.name);
    x :| x in done && x.b.pkg == s.pkg && x.c.name == s.ch && x.b.name == s.name;
    assert Lookup(m, x.b.pkg, x.c.name, x.b.name) == Some(ModelBundle(x));
  }

  /** Copies share a property list only if they come from the same declaration. */
  lemma FiledShares(json: Json, packages: seq<CfgPackage>, bundles: seq<CfgBundle>, m: Index)
    requires forall b | b in bundles :: ParsedOnce(json, b.properties).Some?
    requires Files(packages, m, Filed(json, bundles))
    ensures SharedLists(m)
  {
    forall s, t | s in Spots(m) && t in Spots(m) && PayloadAt(m, s).list == PayloadAt(m, t).list
      ensures PayloadAt(m, s).properties == PayloadAt(m, t).properties
    {
      var x := FiledSpot(packages, m, Filed(json, bundles), s);
      var y := FiledSpot(packages, m, Filed(json, bundles), t);
      FiledAt(json, bundles, x);
      FiledAt(json, bundles, y);
    }
  }

  // ---- The conversion --------------------------------------------------------------------------

  /** The model of a config: what was filed, valid, with every property value in its compact form. */
  ghost predicate ToModel(json: Json, cfg: Config, filed: Index, m: Index) {
    && (forall b | b in cfg.bundles :: Accepted(json, cfg.packages, b))
    && Files(cfg.packages, filed, Filed(json, cfg.bundles)) && ValidIndex(json, filed)
    && IsNormalized(json, filed, m)
  }

  ghost predicate IsModelOf(json: Json, cfg: Config, m: Index) {
    exists filed :: ToModel(json, cfg, filed, m)
  }

  /** All bundles can be filed, but what was filed does not validate. */
  ghost predicate FiledInvalid(json: Json, cfg: Config) {
    && (forall b | b in cfg.bundles :: Accepted(json, cfg.packages, b))
    && exists filed ::
         Files(cfg.packages, filed, Filed(json, cfg.bundles)) && !ValidIndex(json, WithDefaults(cfg.packages, filed))
  }

  // ---- Failing -------------------------------------------------------------------------------

  lemma SameLookup(packages: seq<CfgPackage>, m: Index, m': Index, done: set<Placement>, pkg: string, ch: string,
                   name: string)
    requires Files(packages, m, done) && Files(packages, m', done)
    ensures Lookup(m, pkg, ch, name) == Lookup(m', pkg, ch, name)
  {
    if Lookup(m, pkg, ch, name).Some? || Lookup(m', pkg, ch, name).Some? {
      assert Taken(done, pkg, ch, name);
      var x :| x in done && x.b.pkg == pkg && x.c.name == ch && x.b.name == name;
      assert Lookup(m, x.b.pkg, x.c.name, x.b.name) == Some(ModelBundle(x));
    }
  }

  lemma SameChannels(packages: seq<CfgPackage>, m: Index, m': Index, done: set<Placement>, pkg: string, ch: string)
    requires Files(packages, m, done) && Files(packages, m', done) && pkg in m && pkg in m' && ch in m[pkg].channels
    ensures ch in m'[pkg].channels && m'[pkg].channels[ch] == m[pkg].channels[ch]
  {
    var c := m[pkg].channels[ch];
    assert c.bundles != map[];
    forall name
      ensures Lookup(m, pkg, ch, name) == Lookup(m', pkg, ch, name)
    {
      SameLookup(packages, m, m', done, pkg, ch, name);
    }
    var name :| name in c.bundles;
    assert Lookup(m, pkg, ch, name).Some?;
    forall n
      ensures n in c.bundles <==> n in m'[pkg].channels[ch].bundles
      ensures n in c.bundles ==> c.bundles[n] == m'[pkg].channels[ch].bundles[n]
    {
      assert Lookup(m, pkg, ch, n) == Lookup(m', pkg, ch, n);
    }
    assert c.bundles == m'[pkg].channels[ch].bundles;
  }

  lemma SamePackage(packages: seq<CfgPackage>, m: Index, m': Index, done: set<Placement>, pkg: string)
    requires Files(packages, m, done) && Files(packages, m', done) && pkg in m
    ensures pkg in m' && m'[pkg] == m[pkg]
  {
    assert PackageKept(packages, m, pkg) && PackageKept(packages, m', pkg);
    forall ch | ch in m[pkg].channels
      ensures ch in m'[pkg].channels && m'[pkg].channels[ch] == m[pkg].channels[ch]
    {
      SameChannels(packages, m, m', done, pkg, ch);
    }
    forall ch | ch in m'[pkg].channels
      ensures ch in m[pkg].channels
    {
      SameChannels(packages, m', m, done, pkg, ch);
    }
    assert m'[pkg].channels == m[pkg].channels;
  }

  lemma FilesUnique(packages: seq<CfgPackage>, m: Index, m': Index, done: set<Placement>)
    requires Files(packages, m, done) && Files(packages, m', done)
    ensures m == m'
  {
    forall pkg | pkg in m
      ensures pkg in m' && m'[pkg] == m[pkg]
    {
      SamePackage(packages, m, m', done, pkg);
    }
    forall pkg | pkg in m'
      ensures pkg in m
    {
      SamePackage(packages, m', m, done, pkg);
    }
    assert m.Keys == m'.Keys;
  }

  lemma NotInvalid(json: Json, cfg: Config, filed: Index)
    requires forall b | b in cfg.bundles :: Accepted(json, cfg.packages, b)
    requires forall b | b in cfg.bundles :: ParsedOnce(json, b.properties).Some?
    requires Files(cfg.packages, filed, Filed(json, cfg.bundles))
    ensures FiledInvalid(json, cfg) <==> !ValidIndex(json, WithDefaults(cfg.packages, filed))
  {
    if FiledInvalid(json, cfg) {
      var other :| Files(cfg.packages, other, Filed(json, cfg.bundles))
        && !ValidIndex(json, WithDefaults(cfg.packages, other));
      FilesUnique(cfg.packages, filed, other, Filed(json, cfg.bundles));
    }
  }

  /** Fails exactly on a bundle that cannot be filed or on an index that does not validate. */
  method ConvertToModel(json: Json, cfg: Config) returns (r: Option<Index>)
    ensures r.Some? ==> IsModelOf(json, cfg, r.value)
    ensures r.None? <==> (exists b :: b in cfg.bundles && !Accepted(json, cfg.packages, b)) || FiledInvalid(json, cfg)
  {
    var start := AddPackages(cfg.packages);
    var filed := FileBundles(json, cfg.packages, cfg.bundles, start);
    if filed.None? {
      return None;
    }
    NotInvalid(json, cfg, filed.value);
    var full := WithDefaults(cfg.packages, filed.value);
    var ok := ValidateIndex(json, full);
    if !ok {
      return None;
    }
    NoEmptyDefault(json, cfg.packages, filed.value);
    FiledShares(json, cfg.packages, cfg.bundles, full);
    var lists := NormalizeLists(json, full);
    assert IsNormalized(json, full, RelistedIndex(full, lists));
    assert ToModel(json, cfg, full, RelistedIndex(full, lists));
    return Some(RelistedIndex(full, lists));
  }
}
