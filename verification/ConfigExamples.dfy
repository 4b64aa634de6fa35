/** A declarative config with two bundles in one channel, the second replacing the first. */
module ConfigExamples {
  import opened Common
  import opened Model
  import opened Properties
  import opened DeclConfig
  import opened ModelToConfig
  import opened ConfigRoundTrip

  function Declared(name: string, channelValue: string): CfgBundle {
    CfgBundle(name, "p", "img/" + name, [Property(TYPE_PACKAGE, "p"), Property(TYPE_CHANNEL, channelValue)], [], "", [])
  }

  const TWO_BUNDLES :=
    Config([CfgPackage("p", "stable", None, "")], [Declared("b1", "first"), Declared("b2", "second")])

  /** The values decode as the package p and as the channel "stable", where the second one replaces b1. */
  ghost predicate Reads(json: Json) {
    && json.packageName("p") == Some("p")
    && json.channel("first") == Some(ChannelProperty("stable", ""))
    && json.channel("second") == Some(ChannelProperty("stable", "b1"))
  }

  lemma Types()
    ensures TYPE_PACKAGE != TYPE_CHANNEL && TYPE_PACKAGE != TYPE_SKIPS && TYPE_CHANNEL != TYPE_SKIPS && "b1" != "b2"
  {
    assert TYPE_PACKAGE[4] != TYPE_CHANNEL[4] && TYPE_PACKAGE[4] != TYPE_SKIPS[4] && TYPE_CHANNEL[4] != TYPE_SKIPS[4];
    assert "b1"[1] != "b2"[1];
  }

  lemma ParsesAs(json: Json, name: string, value: string, c: ChannelProperty)
    requires Reads(json) && json.channel(value) == Some(c)
    ensures ParsedOnce(json, Declared(name, value).properties) == Some(Parsed(["p"], [c], []))
  {
    Types();
    var props := Declared(name, value).properties;
    assert props[..1] == [props[0]] && props[..1][..0] == [];
    assert ParseAll(json, []) == Some(Parsed([], [], []));
    assert [] + ["p"] == ["p"] && [] + [c] == [c];
    assert ParseOne(json, Parsed([], [], []), props[0]) == Some(Parsed(["p"], [], []));
    assert ParseAll(json, props[..1]) == Some(Parsed(["p"], [], []));
    assert ParseOne(json, Parsed(["p"], [], []), props[1]) == Some(Parsed(["p"], [c], []));
  }

  ghost function First(): Placement {
    var channel := ChannelProperty("stable", "");
    Placement(0, TWO_BUNDLES.bundles[0], Parsed(["p"], [channel], []), channel)
  }

  ghost function Second(): Placement {
    Placement(1, TWO_BUNDLES.bundles[1], Parsed(["p"], [ChannelProperty("stable", "b1")], []),
              ChannelProperty("stable", "b1"))
  }

  lemma BothAccepted(json: Json)
    requires Reads(json)
    ensures forall b | b in TWO_BUNDLES.bundles :: Accepted(json, TWO_BUNDLES.packages, b)
  {
    ParsesAs(json, "b1", "first", ChannelProperty("stable", ""));
    ParsesAs(json, "b2", "second", ChannelProperty("stable", "b1"));
  }

  lemma BothFiled(json: Json)
    requires Reads(json)
    ensures forall b | b in TWO_BUNDLES.bundles :: ParsedOnce(json, b.properties).Some?
    ensures Filed(json, TWO_BUNDLES.bundles) == {First(), Second()}
  {
    Types();
    ParsesAs(json, "b1", "first", ChannelProperty("stable", ""));
    ParsesAs(json, "b2", "second", ChannelProperty("stable", "b1"));
    var bundles := TWO_BUNDLES.bundles;
    assert bundles[..1] == [bundles[0]] && bundles[..1][..0] == [];
    assert Filed(json, bundles[..1]) == {First()} by {
      assert Filed(json, []) == {};
      assert ReplaceAll({}, 0, bundles[0], First().parsed, 1) == {First()};
    }
    assert ReplaceAll({First()}, 1, bundles[1], Second().parsed, 1) == {First(), Second()};
  }

  ghost function Stable(): Channel<Payload> {
    Channel("stable", map["b1" := ModelBundle(First()), "b2" := ModelBundle(Second())])
  }

  ghost function Built(): Index {
    map["p" := ModelPackage("p", "", None, Some("stable"), map["stable" := Stable()])]
  }

  lemma BuiltFiles()
    ensures Files(TWO_BUNDLES.packages, Built(), {First(), Second()})
  {
    Types();
    var packages := TWO_BUNDLES.packages;
    forall name
      ensures PackageKept(packages, Built(), name)
    {
      assert packages[..0] == [];
    }
    assert "b1" in Stable().bundles;
    assert ChannelsKeyed(Built());
    var done := {First(), Second()};
    forall pkg, ch, name | Lookup(Built(), pkg, ch, name).Some?
      ensures Taken(done, pkg, ch, name)
    {
      assert First() in done && Second() in done;
    }
    forall x | x in done
      ensures Lookup(Built(), x.b.pkg, x.c.name, x.b.name) == Some(ModelBundle(x))
    {
    }
  }

  lemma SecondIsHead(c: Channel<Payload>)
    requires c.bundles.Keys == {"b1", "b2"} && c.bundles["b1"].name == "b1" && c.bundles["b2"].name == "b2"
    requires c.bundles["b1"].replacesName == "" && c.bundles["b2"].replacesName == "b1"
    requires c.bundles["b1"].skips == [] && c.bundles["b2"].skips == []
    ensures Sources(c) == {"b2"}
  {
    Types();
    assert Edges(c.bundles["b1"]) == {} && Edges(c.bundles["b2"]) == {"b1"};
    assert "b2" in c.bundles;
    assert Incoming(c) == {"b1"};
  }

  lemma PayloadsOk(json: Json)
    requires Reads(json)
    ensures PayloadOk(json, ModelBundle(First()).payload) && PayloadOk(json, ModelBundle(Second()).payload)
  {
    ParsesAs(json, "b1", "first", ChannelProperty("stable", ""));
    ParsesAs(json, "b2", "second", ChannelProperty("stable", "b1"));
  }

  lemma StableBundles(json: Json, k: string)
    requires Reads(json) && k in Stable().bundles
    ensures var b := Stable().bundles[k];
            b.name == k && b.name != "" && "" !in b.skips && PayloadOk(json, b.payload)
  {
    Types();
    PayloadsOk(json);
  }

  lemma StableHead()
    ensures Stable().bundles != map[] && Sources(Stable()) == {"b2"}
  {
    Types();
    assert Stable().bundles.Keys == {"b1", "b2"};
    SecondIsHead(Stable());
  }

  lemma BuiltValid(json: Json)
    requires Reads(json)
    ensures ValidIndex(json, WithDefaults(TWO_BUNDLES.packages, Built()))
  {
    assert WithDefaults(TWO_BUNDLES.packages, Built()) == Built();
    StableHead();
    forall k | k in Stable().bundles
      ensures Stable().bundles[k].name == k && BundleOk(Stable().bundles[k], (x: Payload) => PayloadOk(json, x))
    {
      StableBundles(json, k);
    }
  }

  /** The config converts, and in every model of it b2 is the head of the channel. */
  lemma TwoBundlesConvert(json: Json, m: Index)
    requires Reads(json)
    ensures forall b | b in TWO_BUNDLES.bundles :: Accepted(json, TWO_BUNDLES.packages, b)
    ensures !FiledInvalid(json, TWO_BUNDLES)
    ensures IsModelOf(json, TWO_BUNDLES, m) ==>
              "p" in m && "stable" in m["p"].channels && Sources(m["p"].channels["stable"]) == {"b2"}
  {
    BothAccepted(json);
    BothFiled(json);
    BuiltFiles();
    BuiltValid(json);
    NotInvalid(json, TWO_BUNDLES, Built());
    if IsModelOf(json, TWO_BUNDLES, m) {
      ModelHead(json, m);
    }
  }

  lemma ModelHead(json: Json, m: Index)
    requires Reads(json) && IsModelOf(json, TWO_BUNDLES, m)
    ensures "p" in m && "stable" in m["p"].channels && Sources(m["p"].channels["stable"]) == {"b2"}
  {
    var filed :| ToModel(json, TWO_BUNDLES, filed, m);
    BothFiled(json);
    BuiltFiles();
    FilesUnique(TWO_BUNDLES.packages, filed, Built(), {First(), Second()});
    var lists :| NormalizedLists(json, filed, lists, {}) && m == RelistedIndex(filed, lists);
    RelistedHead(lists);
  }

  lemma RelistedHead(lists: map<nat, seq<Property>>)
    ensures var m := RelistedIndex(Built(), lists);
            "p" in m && "stable" in m["p"].channels && Sources(m["p"].channels["stable"]) == {"b2"}
  {
    Types();
    var c := RelistedChannel(Stable(), lists);
    assert RelistedIndex(Built(), lists)["p"].channels["stable"] == c;
    assert c.bundles.Keys == {"b1", "b2"};
    SecondIsHead(c);
  }
}
