/** Bundle properties: internal/property/property.go and internal/declcfg/properties.go. */
module Properties {
  import opened Common

  /** The value is JSON text. */
  datatype Property = Property(typ: string, value: string)

  datatype ChannelProperty = ChannelProperty(name: string, replacesName: string)

  const TYPE_PACKAGE := "olm.package"
  const TYPE_CHANNEL := "olm.channel"
  const TYPE_SKIPS := "olm.skips"

  /**
    What the JSON library makes of a value: the package name, channel or skip it encodes, whether it decodes as a
    value of another type, and its compact form. None is an error.
  */
  datatype Json = Json(
    packageName: string -> Option<string>,
    channel: string -> Option<ChannelProperty>,
    skip: string -> Option<string>,
    decodes: (string, string) -> bool,
    compact: string -> Option<string>)

  // ---- Parse -----------------------------------------------------------------------------------

  datatype Parsed = Parsed(packages: seq<string>, channels: seq<ChannelProperty>, skips: seq<string>)

  function ParseOne(json: Json, out: Parsed, p: Property): Option<Parsed> {
    if p.typ == TYPE_PACKAGE then
      match json.packageName(p.value)
      case None => None
      case Some(name) => Some(out.(packages := out.packages + [name]))
    else if p.typ == TYPE_CHANNEL then
      match json.channel(p.value)
      case None => None
      case Some(c) => Some(out.(channels := out.channels + [c]))
    else if p.typ == TYPE_SKIPS then
      match json.skip(p.value)
      case None => None
      case Some(s) => Some(out.(skips := out.skips + [s]))
    else if json.decodes(p.typ, p.value) then Some(out)
    else None
  }

  /** The typed contents of a property list, in order; None if any value does not decode. */
  function ParseAll(json: Json, props: seq<Property>): Option<Parsed> {
    if props == [] then Some(Parsed([], [], []))
    else
      match ParseAll(json, props[..|props| - 1])
      case None => None
      case Some(out) => ParseOne(json, out, props[|props| - 1])
  }

  lemma {:induction false} ParseFailsEarly(json: Json, props: seq<Property>, n: nat)
    requires n <= |props| && ParseAll(json, props[..n]).None?
    ensures ParseAll(json, props).None?
    decreases |props|
  {
    if n < |props| {
      assert props[..|props| - 1][..n] == props[..n];
      ParseFailsEarly(json, props[..|props| - 1], n);
    } else {
      assert props[..n] == props;
    }
  }

  /** The value decodes as one of its type. */
  predicate Decodes(json: Json, p: Property) {
    if p.typ == TYPE_PACKAGE then json.packageName(p.value).Some?
    else if p.typ == TYPE_CHANNEL then json.channel(p.value).Some?
    else if p.typ == TYPE_SKIPS then json.skip(p.value).Some?
    else json.decodes(p.typ, p.value)
  }

  /** The values of the properties of one type, in their order. */
  function ValuesOf(props: seq<Property>, typ: string): seq<string> {
    if props == [] then []
    else
      var n := |props| - 1;
      ValuesOf(props[..n], typ) + if props[n].typ == typ then [props[n].value] else []
  }

  /** Each list holds what the values of its type decode to, in their order. */
  ghost predicate DecodesTo(json: Json, props: seq<Property>, out: Parsed) {
    var packages, channels, skips := ValuesOf(props, TYPE_PACKAGE), ValuesOf(props, TYPE_CHANNEL),
      ValuesOf(props, TYPE_SKIPS);
    && |out.packages| == |packages| && |out.channels| == |channels| && |out.skips| == |skips|
    && (forall i | 0 <= i < |packages| :: json.packageName(packages[i]) == Some(out.packages[i]))
    && (forall i | 0 <= i < |channels| :: json.channel(channels[i]) == Some(out.channels[i]))
    && (forall i | 0 <= i < |skips| :: json.skip(skips[i]) == Some(out.skips[i]))
  }

  /** Parsing fails exactly if some value does not decode, and otherwise gives the decoded values. */
  lemma {:induction false} ParseContents(json: Json, props: seq<Property>)
    ensures ParseAll(json, props).Some? <==> forall p | p in props :: Decodes(json, p)
    ensures ParseAll(json, props).Some? ==> DecodesTo(json, props, ParseAll(json, props).value)
  {
    if props != [] {
      var n := |props| - 1;
      ParseContents(json, props[..n]);
      assert props == props[..n] + [props[n]];
      assert ParseAll(json, props).Some? <==> ParseAll(json, props[..n]).Some? && Decodes(json, props[n]);
    }
  }

  method Parse(json: Json, props: seq<Property>) returns (r: Option<Parsed>)
    ensures r == ParseAll(json, props)
    ensures r.Some? <==> forall p | p in props :: Decodes(json, p)
    ensures r.Some? ==> DecodesTo(json, props, r.value)
  {
    ParseContents(json, props);
    var out := Parsed([], [], []);
    for n := 0 to |props|
      invariant ParseAll(json, props[..n]) == Some(out)
    {
      assert props[..n + 1][..n] == props[..n];
      var next := ParseOne(json, out, props[n]);
      if next.None? {
        ParseFailsEarly(json, props, n + 1);
        return None;
      }
      out := next.value;
    }
    assert props[..|props|] == props;
    return Some(out);
  }

  predicate DistinctChannels(channels: seq<ChannelProperty>) {
    forall i, j | 0 <= i < j < |channels| :: channels[i].name != channels[j].name
  }

  /** parseProperties: no channel may be listed twice. */
  function ParsedOnce(json: Json, props: seq<Property>): Option<Parsed> {
    match ParseAll(json, props)
    case None => None
    case Some(out) => if DistinctChannels(out.channels) then Some(out) else None
  }

  method ParseProperties(json: Json, props: seq<Property>) returns (r: Option<Parsed>)
    ensures r == ParsedOnce(json, props)
  {
    r := Parse(json, props);
    if r.None? {
      return;
    }
    var channels := r.value.channels;
    var seen: set<string> := {};
    for n := 0 to |channels|
      invariant seen == set i | 0 <= i < n :: channels[i].name
      invariant forall i, j | 0 <= i < j < n :: channels[i].name != channels[j].name
    {
      if channels[n].name in seen {
        return None;
      }
      seen := seen + {channels[n].name};
    }
  }

  // ---- Deduplicate -----------------------------------------------------------------------------

  /** Each element once, where it occurs first. */
  function FirstOccurrences(props: seq<Property>): seq<Property> {
    if props == [] then []
    else
      var n := |props| - 1;
      FirstOccurrences(props[..n]) + if props[n] in props[..n] then [] else [props[n]]
  }

  method Deduplicate(props: seq<Property>) returns (out: seq<Property>)
    ensures out == FirstOccurrences(props)
  {
    out := [];
    var seen: set<Property> := {};
    for n := 0 to |props|
      invariant out == FirstOccurrences(props[..n])
      invariant seen == set p | p in props[..n]
    {
      assert props[..n + 1][..n] == props[..n];
      assert props[..n + 1] == props[..n] + [props[n]];
      if props[n] !in seen {
        seen, out := seen + {props[n]}, out + [props[n]];
      }
    }
    assert props[..|props|] == props;
  }

  /** The same elements, none twice. */
  lemma {:induction false} FirstOccurrencesFacts(props: seq<Property>)
    ensures forall p :: p in FirstOccurrences(props) <==> p in props
    ensures forall i, j | 0 <= i < j < |FirstOccurrences(props)| ::
              FirstOccurrences(props)[i] != FirstOccurrences(props)[j]
  {
    if props != [] {
      var n := |props| - 1;
      FirstOccurrencesFacts(props[..n]);
      assert props == props[..n] + [props[n]];
    }
  }

  /** Appending what is there already changes nothing. */
  lemma {:induction false} NothingNew(props: seq<Property>, more: seq<Property>)
    requires forall p | p in more :: p in props
    ensures FirstOccurrences(props + more) == FirstOccurrences(props)
    decreases |more|
  {
    if more == [] {
      assert props + more == props;
    } else {
      var all, n := props + more, |more| - 1;
      assert all[..|all| - 1] == props + more[..n];
      assert all[|all| - 1] == more[n];
      assert more[n] in props + more[..n];
      NothingNew(props, more[..n]);
    }
  }

  // ---- Normalizing -----------------------------------------------------------------------------

  /** property.Build re-encodes the value; an error leaves the property as it is. */
  function Normalized(json: Json, p: Property): Property {
    match json.compact(p.value)
    case None => p
    case Some(value) => p.(value := value)
  }

  function NormalizedAll(json: Json, props: seq<Property>): (r: seq<Property>)
    ensures |r| == |props| && forall i | 0 <= i < |props| :: r[i] == Normalized(json, props[i])
  {
    seq(|props|, i requires 0 <= i < |props| => Normalized(json, props[i]))
  }

  /** Normalizing again and again. */
  function NormalizedTimes(json: Json, props: seq<Property>, k: nat): seq<Property> {
    if k == 0 then props else NormalizedAll(json, NormalizedTimes(json, props, k - 1))
  }

  /** The compact form of a value is its own compact form. */
  ghost predicate CompactOnce(json: Json) {
    forall v: string | json.compact(v).Some? :: json.compact(json.compact(v).value) == json.compact(v)
  }

  /** Then normalizing twice is normalizing once. */
  lemma {:induction false} TimesIsOnce(json: Json, props: seq<Property>, k: nat)
    requires CompactOnce(json) && k > 0
    ensures NormalizedTimes(json, props, k) == NormalizedAll(json, props)
  {
    if k == 1 {
      assert NormalizedTimes(json, props, 0) == props;
    } else {
      TimesIsOnce(json, props, k - 1);
      var once := NormalizedAll(json, props);
      forall i | 0 <= i < |props|
        ensures Normalized(json, once[i]) == once[i]
      {
        assert json.compact(props[i].value).Some? || once[i] == props[i];
      }
    }
  }
}
