/** The bundle as the loaders receive it: pkg/registry/bundle.go, reduced to what the upgrade graph depends on. */
module Registry {
  import opened Common
  import opened Semver
  import opened Tables

  /** A version that is unreadable or does not parse is Malformed; a missing one is NoVersion. */
  datatype RegistryBundle = RegistryBundle(
    name: string, pkg: string, image: string, version: VersionText,
    replacesName: string, skips: seq<string>, substitutesFor: string,
    channels: seq<string>, defaultChannel: string)

  function RowFor(b: RegistryBundle): BundleRow {
    BundleRow(b.image, b.version, b.replacesName, b.skips, b.substitutesFor)
  }

  /** SelectDefaultChannel: the first of the channels in lexicographic order, or "". */
  function SelectDefaultChannel(channels: seq<string>): string {
    if channels == [] then ""
    else
      var rest := SelectDefaultChannel(channels[1..]);
      if |channels| == 1 || CompareStrings(channels[0], rest) <= 0 then channels[0] else rest
  }

  lemma {:induction false} SelectsLeast(channels: seq<string>)
    requires channels != []
    ensures SelectDefaultChannel(channels) in channels
    ensures forall c | c in channels :: CompareStrings(SelectDefaultChannel(channels), c) <= 0
  {
    if |channels| > 1 {
      SelectsLeast(channels[1..]);
      var rest := SelectDefaultChannel(channels[1..]);
      CompareStringsFlip(channels[0], rest);
      forall c | c in channels
        ensures CompareStrings(SelectDefaultChannel(channels), c) <= 0
      {
        if c != channels[0] {
          assert c in channels[1..];
          if SelectDefaultChannel(channels) == channels[0] {
            CompareStringsTransitive(channels[0], rest, c);
          }
        }
      }
    }
  }
}
