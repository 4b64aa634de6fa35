/** Adding a bundle to the graph of its package: pkg/registry/bundlegraphloader.go, AddBundleToGraph. */
module GraphInsert {
  import opened Common
  import opened Semver
  import opened Graph
  import opened Registry

  function NewKey(b: RegistryBundle): BundleKey {
    BundleKey(b.image, b.version, b.name)
  }

  function DefaultFor(b: RegistryBundle, graph: PackageGraph): string {
    if b.defaultChannel != "" then b.defaultChannel
    else if graph.defaultChannel != "" then graph.defaultChannel
    else SelectDefaultChannel(b.channels)
  }

  predicate Fits(channels: map<string, ChannelGraph>, name: string, v: Version) {
    name in channels ==> forall k | k in channels[name].nodes :: !Conflicts(k, v)
  }

  /** The bundle can be added: it has a version, a default channel is known, and no channel already has the version. */
  ghost predicate Addable(b: RegistryBundle, graph: PackageGraph) {
    && b.version.Text?
    && DefaultFor(b, graph) != ""
    && NoRepeats(b.channels)
    && forall name | name in b.channels :: Fits(graph.channels, name, b.version.version)
  }

  /** The named channel after the addition: a single node if it is new, else the old one with the key inserted. */
  ghost predicate ChannelHasNew(before: map<string, ChannelGraph>, name: string, key: BundleKey, v: Version,
                                skippatch: bool, after: map<string, ChannelGraph>)
  {
    && name in after
    && if name in before then Inserted(before[name], key, v, skippatch, after[name])
       else after[name] == ChannelGraph(key, map[key := {}])
  }

  ghost predicate ChannelsHaveNew(before: map<string, ChannelGraph>, names: seq<string>, key: BundleKey, v: Version,
                                  skippatch: bool, after: map<string, ChannelGraph>)
  {
    && (forall name | name in names :: ChannelHasNew(before, name, key, v, skippatch, after))
    && (forall name | name !in names :: name in before <==> name in after)
    && (forall name | name !in names && name in before :: after[name] == before[name])
  }

  ghost predicate AddedTo(b: RegistryBundle, graph: PackageGraph, skippatch: bool, graph': PackageGraph)
    requires b.version.Text?
  {
    && graph'.name == (if graph.name == "" then b.pkg else graph.name)
    && graph'.defaultChannel == DefaultFor(b, graph)
    && ChannelsHaveNew(graph.channels, b.channels, NewKey(b), b.version.version, skippatch, graph'.channels)
  }

  /** A channel that has the new node already refuses it a second time. */
  lemma SecondTimeConflicts(before: map<string, ChannelGraph>, name: string, key: BundleKey, v: Version,
                            skippatch: bool, after: map<string, ChannelGraph>)
    requires key.version == Text(v) && ChannelHasNew(before, name, key, v, skippatch, after)
    ensures !Fits(after, name, v)
  {
    CompareFlip(v, v);
    assert key in after[name].nodes;
    assert Conflicts(key, v);
  }

  lemma OneMoreChannel(before: map<string, ChannelGraph>, names: seq<string>, name: string, key: BundleKey, v: Version,
                       skippatch: bool, middle: map<string, ChannelGraph>, c: ChannelGraph)
    requires ChannelsHaveNew(before, names, key, v, skippatch, middle) && name !in names
    requires if name in before
             then Inserted(before[name], key, v, skippatch, c)
             else c == ChannelGraph(key, map[key := {}])
    ensures ChannelsHaveNew(before, names + [name], key, v, skippatch, middle[name := c])
  {
    var after := middle[name := c];
    forall n | n in names + [name]
      ensures ChannelHasNew(before, n, key, v, skippatch, after)
    {
      if n != name {
        assert ChannelHasNew(before, n, key, v, skippatch, middle);
      }
    }
  }

  lemma NoRepeatsStep(names: seq<string>, name: string)
    ensures NoRepeats(names + [name]) <==> NoRepeats(names) && name !in names
  {
    var more := names + [name];
    assert forall i | 0 <= i < |names| :: more[i] == names[i];
    if NoRepeats(more) {
      assert forall i | 0 <= i < |names| :: more[i] != more[|names|];
    }
  }

  /** The loop over the bundle's channels; fails exactly on a repeated channel or a channel with a conflict. */
  method AddToChannels(before: map<string, ChannelGraph>, names: seq<string>, key: BundleKey, v: Version,
                       skippatch: bool)
    returns (after: map<string, ChannelGraph>, ok: bool)
    requires key.version == Text(v)
    ensures ok <==> NoRepeats(names) && forall name | name in names :: Fits(before, name, v)
    ensures ok ==> ChannelsHaveNew(before, names, key, v, skippatch, after)
  {
    after := before;
    for n := 0 to |names|
      invariant NoRepeats(names[..n]) && forall name | name in names[..n] :: Fits(before, name, v)
      invariant ChannelsHaveNew(before, names[..n], key, v, skippatch, after)
    {
      var name := names[n];
      assert names[..n + 1] == names[..n] + [name];
      NoRepeatsStep(names[..n], name);
      if name in names[..n] {
        SecondTimeConflicts(before, name, key, v, skippatch, after);
      }
      var c := ChannelGraph(key, map[key := {}]);
      if name in after {
        var r := InsertNode(after[name], key, v, skippatch);
        if r.None? {
          assert !Fits(after, name, v);
          RepeatOrConflict(before, names, n, key, v, skippatch, after);
          return after, false;
        }
        c := r.value;
      }
      OneMoreChannel(before, names[..n], name, key, v, skippatch, after, c);
      after := after[name := c];
    }
    assert names[..|names|] == names;
    ok := true;
  }

  lemma RepeatOrConflict(before: map<string, ChannelGraph>, names: seq<string>, n: nat, key: BundleKey, v: Version,
                         skippatch: bool, after: map<string, ChannelGraph>)
    requires n < |names| && ChannelsHaveNew(before, names[..n], key, v, skippatch, after) && !Fits(after, names[n], v)
    ensures !(NoRepeats(names) && forall name | name in names :: Fits(before, name, v))
  {
    if names[n] in names[..n] {
      var i :| 0 <= i < n && names[i] == names[n];
    } else {
      assert names[n] in names && !Fits(before, names[n], v);
    }
  }

  method AddBundleToGraph(b: RegistryBundle, graph: PackageGraph, skippatch: bool) returns (r: Option<PackageGraph>)
    ensures r.Some? <==> Addable(b, graph)
    ensures r.Some? ==> AddedTo(b, graph, skippatch, r.value)
  {
    if !b.version.Text? {
      return None;
    }
    var name := if graph.name == "" then b.pkg else graph.name;
    var default := if b.defaultChannel != "" then b.defaultChannel else graph.defaultChannel;
    if default == "" {
      if SelectDefaultChannel(b.channels) == "" {
        return None;
      }
      default := SelectDefaultChannel(b.channels);
    }
    var channels, ok := AddToChannels(graph.channels, b.channels, NewKey(b), b.version.version, skippatch);
    if !ok {
      return None;
    }
    return Some(PackageGraph(name, default, channels));
  }
}
