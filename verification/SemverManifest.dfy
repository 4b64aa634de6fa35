/** Choosing channel heads and the default channel by version: pkg/registry/populator.go, SemverPackageManifest. */
module SemverManifest {
  import opened Common
  import opened Semver
  import opened Registry
  import opened ReplacesLoader
  import opened HeadCandidates
  import opened HeadContests

  // ---- Channel heads ---------------------------------------------------------------------------

  /** The candidate is bundle h: it beats every other one met, or has been counted more than once. */
  ghost predicate HeadIs(bundles: seq<RegistryBundle>, met: set<nat>, c: Candidate, h: nat)
    requires forall i | i in met :: i < |bundles|
  {
    && h in met && c.name == bundles[h].name && Parsed(bundles[h]) == Some(c.version) && c.count >= 1
    && forall i | i in met && i != h :: Beats(c.version, bundles[i]) || (Ties(c.version, bundles[i]) && c.count > 1)
  }

  ghost predicate HasHead(bundles: seq<RegistryBundle>, met: set<nat>, ch: string, heads: map<string, Candidate>)
    requires forall i | i in met :: i < |bundles|
  {
    if ch in heads then exists h :: HeadIs(bundles, met, heads[ch], h) else met == {}
  }

  ghost predicate HeadsHold(bundles: seq<RegistryBundle>, n: nat, k: nat, heads: map<string, Candidate>)
    requires n <= |bundles| && (n < |bundles| ==> k <= |bundles[n].channels|)
  {
    forall ch :: HasHead(bundles, Met(bundles, n, k, ch), ch, heads)
  }

  lemma ChallengeHolds(bundles: seq<RegistryBundle>, met: set<nat>, n: nat, current: Candidate, head: Candidate, h: nat)
    requires n < |bundles| && (forall i | i in met :: i < |bundles|) && current.count >= 1
    requires current.name == bundles[n].name && Parsed(bundles[n]) == Some(current.version)
    requires HeadIs(bundles, met, head, h) && Challenge(current, head).Some?
    ensures exists h' :: HeadIs(bundles, met + {n}, Challenge(current, head).value.1, h')
  {
    var c, next := BuildIdCompare(current.version, head.version).value, Challenge(current, head).value.1;
    BuildIdOrder(current.version, head.version);
    var h' := if c < 0 then h else n;
    forall i | i in met + {n} && i != h'
      ensures Beats(next.version, bundles[i]) || (Ties(next.version, bundles[i]) && next.count > 1)
    {
      if c > 0 {
        BeatsOn(current.version, head.version, bundles[i]);
      }
    }
    assert HeadIs(bundles, met + {n}, next, h');
  }

  /** The channel's head changed as it should, the others have what they had. */
  lemma HeadsStep(bundles: seq<RegistryBundle>, n: nat, k: nat, heads: map<string, Candidate>, c: Candidate)
    requires n < |bundles| && k < |bundles[n].channels| && HeadsHold(bundles, n, k, heads)
    requires exists h :: HeadIs(bundles, Met(bundles, n, k, bundles[n].channels[k]) + {n}, c, h)
    ensures HeadsHold(bundles, n, k + 1, heads[bundles[n].channels[k] := c])
  {
    var m := k + 1;
    forall ch
      ensures HasHead(bundles, Met(bundles, n, m, ch), ch, heads[bundles[n].channels[k] := c])
    {
      MetStep(bundles, n, k, ch);
      assert HasHead(bundles, Met(bundles, n, k, ch), ch, heads);
    }
  }

  lemma HeadsNext(bundles: seq<RegistryBundle>, n: nat, heads: map<string, Candidate>)
    requires n < |bundles| && HeadsHold(bundles, n, |bundles[n].channels|, heads)
    ensures HeadsHold(bundles, n + 1, 0, heads)
  {
    var m := n + 1;
    forall ch
      ensures HasHead(bundles, Met(bundles, m, 0, ch), ch, heads)
    {
      MetNext(bundles, n, ch);
      assert HasHead(bundles, Met(bundles, n, |bundles[n].channels|, ch), ch, heads);
    }
  }

  /** The versions can be told apart. */
  predicate Apart(a: Option<Version>, b: Option<Version>) {
    a.Some? && b.Some? && BuildIdCompare(a.value, b.value).Some? && BuildIdCompare(a.value, b.value).value != 0
  }

  /** The bundle's version differs from those before it, and it lists no channel twice. */
  ghost predicate Uncontested(bundles: seq<RegistryBundle>, n: nat)
    requires n < |bundles|
  {
    && (forall i | 0 <= i < n :: Apart(Parsed(bundles[n]), Parsed(bundles[i])))
    && NoRepeats(bundles[n].channels)
  }

  ghost predicate CountedOnce(heads: map<string, Candidate>) {
    forall ch | ch in heads :: heads[ch].count == 1
  }

  lemma MeetsEarlier(bundles: seq<RegistryBundle>, n: nat, k: nat, current: Candidate, head: Candidate, h: nat)
    requires n < |bundles| && k < |bundles[n].channels| && Uncontested(bundles, n)
    requires Parsed(bundles[n]) == Some(current.version)
    requires HeadIs(bundles, Met(bundles, n, k, bundles[n].channels[k]), head, h)
    ensures Challenge(current, head).Some? && Challenge(current, head).value.0 == current
    ensures Challenge(current, head).value.1 in {current, head}
  {
    assert h < n;
  }

  /** What is known within the loop over one bundle's channels. */
  ghost predicate Entered(bundles: seq<RegistryBundle>, n: nat, k: nat, first: Candidate,
                          before: map<string, Candidate>, heads: map<string, Candidate>, current: Candidate)
    requires n < |bundles| && k <= |bundles[n].channels|
  {
    && HeadsHold(bundles, n, k, heads) && CountsExact(bundles, n, k, heads) && CurrentExact(bundles, n, k, current)
    && current == Candidate(bundles[n].name, first.version, current.count)
    && (forall j | 0 <= j < k :: ComparesAt(bundles, n, j))
    && (Uncontested(bundles, n) && CountedOnce(before) ==> current == first && CountedOnce(heads))
  }

  lemma EnterNew(bundles: seq<RegistryBundle>, n: nat, k: nat, first: Candidate, before: map<string, Candidate>,
                 heads: map<string, Candidate>, current: Candidate)
    requires Listed(bundles, n, k) && Entered(bundles, n, k, first, before, heads, current)
    requires first.count == 1 && bundles[n].channels[k] !in heads
    ensures Entered(bundles, n, k + 1, first, before, heads[bundles[n].channels[k] := current], current)
  {
    var met := Met(bundles, n, k, bundles[n].channels[k]);
    assert HasHead(bundles, met, bundles[n].channels[k], heads);
    assert HeadIs(bundles, met + {n}, current, n);
    HeadsStep(bundles, n, k, heads, current);
    FirstInChannel(bundles, n, k, current);
    CountsStep(bundles, n, k, heads, current);
  }

  /** A channel that has a head: the comparison decides as the positions say. */
  lemma MeetHead(bundles: seq<RegistryBundle>, n: nat, k: nat, heads: map<string, Candidate>, current: Candidate)
    requires Listed(bundles, n, k) && bundles[n].channels[k] in heads && current.name == bundles[n].name
    requires HeadsHold(bundles, n, k, heads) && CountsExact(bundles, n, k, heads)
    requires CurrentExact(bundles, n, k, current)
    ensures var ch := bundles[n].channels[k];
            var outcome := Challenge(current, heads[ch]);
            && (outcome.Some? <==> ComparesAt(bundles, n, k))
            && (outcome.Some? ==> && HeadsHold(bundles, n, k + 1, heads[ch := outcome.value.1])
                                  && CountsExact(bundles, n, k + 1, heads[ch := outcome.value.1])
                                  && CurrentExact(bundles, n, k + 1, outcome.value.0))
  {
    var ch := bundles[n].channels[k];
    var met, outcome := Met(bundles, n, k, ch), Challenge(current, heads[ch]);
    assert HasHead(bundles, met, ch, heads);
    var h: nat :| HeadIs(bundles, met, heads[ch], h);
    ChallengeExact(bundles, n, k, current, heads[ch]);
    if outcome.Some? {
      ChallengeHolds(bundles, met, n, current, heads[ch], h);
      HeadsStep(bundles, n, k, heads, outcome.value.1);
      CountsStep(bundles, n, k, heads, outcome.value.1);
    }
  }

  /** A bundle whose version is new ties with no head. */
  lemma MeetNothing(bundles: seq<RegistryBundle>, n: nat, k: nat, heads: map<string, Candidate>, current: Candidate)
    requires Listed(bundles, n, k) && bundles[n].channels[k] in heads && HeadsHold(bundles, n, k, heads)
    requires Uncontested(bundles, n) && Parsed(bundles[n]) == Some(current.version)
    ensures var outcome := Challenge(current, heads[bundles[n].channels[k]]);
            && outcome.Some? && outcome.value.0 == current
            && (current.count == 1 && CountedOnce(heads) ==>
                  CountedOnce(heads[bundles[n].channels[k] := outcome.value.1]))
  {
    var ch := bundles[n].channels[k];
    assert HasHead(bundles, Met(bundles, n, k, ch), ch, heads);
    var h: nat :| HeadIs(bundles, Met(bundles, n, k, ch), heads[ch], h);
    MeetsEarlier(bundles, n, k, current, heads[ch], h);
  }

  lemma EnterOld(bundles: seq<RegistryBundle>, n: nat, k: nat, first: Candidate, before: map<string, Candidate>,
                 heads: map<string, Candidate>, current: Candidate)
    requires Listed(bundles, n, k) && Entered(bundles, n, k, first, before, heads, current)
    requires first.count == 1 && bundles[n].channels[k] in heads
    ensures var outcome := Challenge(current, heads[bundles[n].channels[k]]);
            && (outcome.Some? <==> ComparesAt(bundles, n, k))
            && (Uncontested(bundles, n) ==> outcome.Some?)
            && (outcome.Some? ==> var heads' := heads[bundles[n].channels[k] := outcome.value.1];
                                  Entered(bundles, n, k + 1, first, before, heads', outcome.value.0))
  {
    var outcome := Challenge(current, heads[bundles[n].channels[k]]);
    MeetHead(bundles, n, k, heads, current);
    if outcome.Some? {
      EnteredNext(bundles, n, k, first, before, heads, current, outcome.value.1, outcome.value.0);
    } else if Uncontested(bundles, n) {
      MeetNothing(bundles, n, k, heads, current);
    }
  }

  lemma EnteredNext(bundles: seq<RegistryBundle>, n: nat, k: nat, first: Candidate, before: map<string, Candidate>,
                    heads: map<string, Candidate>, current: Candidate, head': Candidate, current': Candidate)
    requires Listed(bundles, n, k) && Entered(bundles, n, k, first, before, heads, current) && first.count == 1
    requires bundles[n].channels[k] in heads
    requires Challenge(current, heads[bundles[n].channels[k]]) == Some((current', head'))
    requires var heads' := heads[bundles[n].channels[k] := head'];
             HeadsHold(bundles, n, k + 1, heads') && CountsExact(bundles, n, k + 1, heads')
    requires CurrentExact(bundles, n, k + 1, current') && ComparesAt(bundles, n, k)
    ensures Entered(bundles, n, k + 1, first, before, heads[bundles[n].channels[k] := head'], current')
  {
    if Uncontested(bundles, n) {
      MeetNothing(bundles, n, k, heads, current);
    }
  }

  /** The loop over one bundle's channels; ok is false when two versions cannot be compared. */
  method EnterChannels(bundles: seq<RegistryBundle>, n: nat, first: Candidate, heads: map<string, Candidate>)
    returns (heads': map<string, Candidate>, current: Candidate, ok: bool)
    requires n < |bundles| && HeadsHold(bundles, n, 0, heads) && CountsExact(bundles, n, 0, heads)
    requires first == Candidate(bundles[n].name, first.version, 1) && Parsed(bundles[n]) == Some(first.version)
    ensures ok ==> HeadsHold(bundles, n + 1, 0, heads')
    ensures current == Candidate(first.name, first.version, current.count) && current.count >= 1
    ensures Uncontested(bundles, n) && CountedOnce(heads) ==> ok && current == first && CountedOnce(heads')
    ensures ok <==> forall k | 0 <= k < |bundles[n].channels| :: ComparesAt(bundles, n, k)
    ensures ok ==> CountsExact(bundles, n + 1, 0, heads') && CurrentExact(bundles, n, |bundles[n].channels|, current)
  {
    heads', current, ok := heads, first, true;
    for k := 0 to |bundles[n].channels|
      invariant Entered(bundles, n, k, first, heads, heads', current)
    {
      var ch := bundles[n].channels[k];
      if ch !in heads' {
        EnterNew(bundles, n, k, first, heads, heads', current);
        heads' := heads'[ch := current];
      } else {
        EnterOld(bundles, n, k, first, heads, heads', current);
        var outcome := Challenge(current, heads'[ch]);
        if outcome.None? {
          return heads', current, false;
        }
        heads', current := heads'[ch := outcome.value.1], outcome.value.0;
      }
    }
    HeadsNext(bundles, n, heads');
    CountsNext(bundles, n, heads');
  }

  // ---- The highest bundle and the default channel ----------------------------------------------

  /** The highest bundle so far, if one is at least 0.0.0; if it names a default channel, that one is taken. */
  ghost predicate MaxIs(bundles: seq<RegistryBundle>, n: nat, max: Candidate, at: Option<nat>, default: string)
    requires n <= |bundles|
  {
    match at
    case None => max == NO_MAX && forall i | i in Range(0, n) :: Beats(ZERO, bundles[i])
    case Some(h) =>
      && HeadIs(bundles, Range(0, n), max, h) && (max.version == ZERO || Newer(max.version, ZERO))
      && (bundles[h].defaultChannel != "" ==> default == bundles[h].defaultChannel)
  }

  function NewDefault(b: RegistryBundle, default: string): string {
    if b.defaultChannel != "" then b.defaultChannel else default
  }

  lemma NewMax(bundles: seq<RegistryBundle>, n: nat, current: Candidate, max: Candidate, at: Option<nat>,
               default: string)
    requires n < |bundles| && current.count >= 1 && current.name == bundles[n].name
    requires Parsed(bundles[n]) == Some(current.version)
    requires MaxIs(bundles, n, max, at, default)
    requires BuildIdCompare(current.version, max.version).Some?
    requires BuildIdCompare(current.version, max.version).value >= 0
    ensures MaxIs(bundles, n + 1, Challenge(current, max).value.1, Some(n), NewDefault(bundles[n], default))
  {
    BuildIdOrder(current.version, max.version);
    var next := Challenge(current, max).value.1;
    var m := n + 1;
    forall i | i in Range(0, m) && i != n
      ensures Beats(next.version, bundles[i]) || (Ties(next.version, bundles[i]) && next.count > 1)
    {
      assert i in Range(0, n);
      if next.version != max.version {
        BeatsOn(current.version, max.version, bundles[i]);
      }
    }
    if next.version != ZERO && max.version != ZERO && next.version != max.version {
      NewerTransitive(next.version, max.version, ZERO);
    }
  }

  lemma OldMax(bundles: seq<RegistryBundle>, n: nat, current: Candidate, max: Candidate, at: Option<nat>,
               default: string)
    requires n < |bundles| && Parsed(bundles[n]) == Some(current.version) && MaxIs(bundles, n, max, at, default)
    requires BuildIdCompare(current.version, max.version).Some?
    requires BuildIdCompare(current.version, max.version).value < 0
    ensures MaxIs(bundles, n + 1, max, at, default)
  {
    BuildIdOrder(current.version, max.version);
    assert Beats(max.version, bundles[n]);
    assert forall i | i in Range(0, n + 1) :: i == n || i in Range(0, n);
  }

  // ---- The manifest ----------------------------------------------------------------------------

  /** The bundle beats every other one of the channel. */
  ghost predicate StrictHead(bundles: seq<RegistryBundle>, ch: string, h: nat) {
    && h < |bundles| && ch in bundles[h].channels && Parsed(bundles[h]).Some?
    && forall i | 0 <= i < |bundles| && i != h && ch in bundles[i].channels ::
         Beats(Parsed(bundles[h]).value, bundles[i])
  }

  ghost predicate IsHeadName(bundles: seq<RegistryBundle>, ch: string, name: string) {
    exists h: nat :: StrictHead(bundles, ch, h) && bundles[h].name == name
  }

  /** The bundle beats every other one, and is at least 0.0.0. */
  ghost predicate Highest(bundles: seq<RegistryBundle>, h: nat) {
    && h < |bundles| && Parsed(bundles[h]).Some?
    && (Parsed(bundles[h]).value == ZERO || Newer(Parsed(bundles[h]).value, ZERO))
    && forall i | 0 <= i < |bundles| && i != h :: Beats(Parsed(bundles[h]).value, bundles[i])
  }

  ghost predicate Lists(channels: seq<PackageChannel>, ch: string) {
    exists c :: c in channels && c.name == ch
  }

  /**
    One package; all channels, each with a head that beats the rest of it; a default among them, the highest bundle's
    if it names one.
  */
  ghost predicate IsManifestOf(bundles: seq<RegistryBundle>, m: Manifest) {
    && (forall b | b in bundles :: b.pkg == "" || b.pkg == m.pkg)
    && DistinctNames(m.channels)
    && (forall ch :: Lists(m.channels, ch) <==> Mentions(bundles, ch))
    && (forall c | c in m.channels :: IsHeadName(bundles, c.name, c.currentCsv))
    && Lists(m.channels, m.defaultChannel)
    && (forall h: nat | Highest(bundles, h) && bundles[h].defaultChannel != "" ::
          m.defaultChannel == bundles[h].defaultChannel)
  }

  /** The heads of a successful result do not depend on the order of the bundles. */
  lemma HeadsOrderIndependent(bundles: seq<RegistryBundle>, m: Manifest, bundles': seq<RegistryBundle>, m': Manifest)
    requires IsManifestOf(bundles, m) && IsManifestOf(bundles', m') && forall b :: b in bundles <==> b in bundles'
    ensures forall c :: c in m.channels <==> c in m'.channels
  {
    forall c | c in m.channels
      ensures c in m'.channels
    {
      SameHead(bundles, m, bundles', m', c);
    }
    forall c | c in m'.channels
      ensures c in m.channels
    {
      SameHead(bundles', m', bundles, m, c);
    }
  }

  lemma SameHead(bundles: seq<RegistryBundle>, m: Manifest, bundles': seq<RegistryBundle>, m': Manifest,
                 c: PackageChannel)
    requires IsManifestOf(bundles, m) && IsManifestOf(bundles', m') && (forall b :: b in bundles <==> b in bundles')
    requires c in m.channels
    ensures c in m'.channels
  {
    assert Lists(m.channels, c.name);
    var b :| b in bundles && c.name in b.channels;
    assert b in bundles';
    assert Mentions(bundles', c.name);
    var c' :| c' in m'.channels && c'.name == c.name;
    OneHeadName(bundles, bundles', c.name, c.currentCsv, c'.currentCsv);
  }

  lemma OneHeadName(bundles: seq<RegistryBundle>, bundles': seq<RegistryBundle>, ch: string, name: string,
                    name': string)
    requires (forall b :: b in bundles <==> b in bundles') && IsHeadName(bundles, ch, name)
    requires IsHeadName(bundles', ch, name')
    ensures name == name'
  {
    var h: nat :| StrictHead(bundles, ch, h) && bundles[h].name == name;
    var h': nat :| StrictHead(bundles', ch, h') && bundles'[h'].name == name';
    if bundles[h] != bundles'[h'] {
      assert bundles[h] in bundles' && bundles'[h'] in bundles;
      var i: nat :| i < |bundles'| && bundles'[i] == bundles[h];
      var j: nat :| j < |bundles| && bundles[j] == bundles'[h'];
      BuildIdOrder(Parsed(bundles[h]).value, Parsed(bundles'[h']).value);
    }
  }

  // ---- Collecting the heads --------------------------------------------------------------------

  /** The channels listed so far are heads counted once. */
  ghost predicate Collected(heads: map<string, Candidate>, done: set<string>, channels: seq<PackageChannel>) {
    && DistinctNames(channels)
    && (forall c | c in channels ::
          c.name in done && c.name in heads && c.currentCsv == heads[c.name].name && heads[c.name].count <= 1)
    && (forall ch | ch in done :: Lists(channels, ch))
  }

  lemma CollectedStep(heads: map<string, Candidate>, done: set<string>, channels: seq<PackageChannel>, ch: string)
    requires Collected(heads, done, channels) && ch in heads && ch !in done && heads[ch].count <= 1
    ensures Collected(heads, done + {ch}, channels + [PackageChannel(ch, heads[ch].name)])
  {
    var c := PackageChannel(ch, heads[ch].name);
    var more := channels + [c];
    DistinctStep(channels, c);
    forall x | x in done + {ch}
      ensures Lists(more, x)
    {
      if x == ch {
        assert c in more;
      } else {
        assert Lists(channels, x);
        var d :| d in channels && d.name == x;
        assert d in more;
      }
    }
  }

  /** The final loop, in any order; fails on a head that was counted more than once. */
  method CollectHeads(heads: map<string, Candidate>) returns (r: Option<seq<PackageChannel>>)
    ensures r.Some? <==> forall ch | ch in heads :: heads[ch].count <= 1
    ensures r.Some? ==> Collected(heads, heads.Keys, r.value)
  {
    var channels: seq<PackageChannel> := [];
    var rest := heads.Keys;
    ghost var done: set<string> := {};
    while rest != {}
      invariant rest <= heads.Keys && done == heads.Keys - rest && Collected(heads, done, channels)
      invariant forall ch | ch in done :: heads[ch].count <= 1
      decreases |rest|
    {
      var ch :| ch in rest;
      if heads[ch].count > 1 {
        return None;
      }
      CollectedStep(heads, done, channels, ch);
      rest, done := rest - {ch}, done + {ch};
      channels := channels + [PackageChannel(ch, heads[ch].name)];
    }
    assert done == heads.Keys;
    return Some(channels);
  }

  ghost predicate OnePackage(bundles: seq<RegistryBundle>, n: nat, pkg: string)
    requires n <= |bundles|
  {
    forall i | 0 <= i < n :: bundles[i].pkg == "" || bundles[i].pkg == pkg
  }

  lemma HeadNames(bundles: seq<RegistryBundle>, heads: map<string, Candidate>, ch: string)
    requires HeadsHold(bundles, |bundles|, 0, heads)
    ensures ch in heads <==> Mentions(bundles, ch)
    ensures ch in heads && heads[ch].count <= 1 ==> IsHeadName(bundles, ch, heads[ch].name)
  {
    var met := Met(bundles, |bundles|, 0, ch);
    assert HasHead(bundles, met, ch, heads);
    if Mentions(bundles, ch) {
      var b :| b in bundles && ch in b.channels;
      var i: nat :| i < |bundles| && bundles[i] == b;
      assert i in met;
    }
    if ch in heads {
      var h: nat :| HeadIs(bundles, met, heads[ch], h);
      assert bundles[h] in bundles;
      if heads[ch].count <= 1 {
        forall i | 0 <= i < |bundles| && i != h && ch in bundles[i].channels
          ensures Beats(Parsed(bundles[h]).value, bundles[i])
        {
          assert i in met;
        }
        assert StrictHead(bundles, ch, h);
      }
    }
  }

  lemma HighestIsMax(bundles: seq<RegistryBundle>, max: Candidate, at: Option<nat>, default: string, h: nat)
    requires MaxIs(bundles, |bundles|, max, at, default) && max.count <= 1 && Highest(bundles, h)
    requires bundles[h].defaultChannel != ""
    ensures default == bundles[h].defaultChannel
  {
    var v := Parsed(bundles[h]).value;
    assert h in Range(0, |bundles|);
    BuildIdOrder(v, ZERO);
    if at.Some? && at.value != h {
      BuildIdOrder(v, max.version);
    }
  }

  lemma ManifestHolds(bundles: seq<RegistryBundle>, heads: map<string, Candidate>, max: Candidate, at: Option<nat>,
                      default: string, channels: seq<PackageChannel>, pkg: string, chosen: string)
    requires HeadsHold(bundles, |bundles|, 0, heads) && MaxIs(bundles, |bundles|, max, at, default) && max.count <= 1
    requires Collected(heads, heads.Keys, channels) && OnePackage(bundles, |bundles|, pkg)
    requires chosen in heads && (default == "" || chosen == default)
    ensures IsManifestOf(bundles, Manifest(pkg, channels, chosen))
  {
    forall ch
      ensures Lists(channels, ch) <==> Mentions(bundles, ch)
    {
      HeadNames(bundles, heads, ch);
    }
    forall c | c in channels
      ensures IsHeadName(bundles, c.name, c.currentCsv)
    {
      HeadNames(bundles, heads, c.name);
    }
    forall h: nat | Highest(bundles, h) && bundles[h].defaultChannel != ""
      ensures chosen == bundles[h].defaultChannel
    {
      HighestIsMax(bundles, max, at, default, h);
    }
  }

  // ---- When there is a manifest ----------------------------------------------------------------

  /** One channel, and no other is named as default; or the highest bundle names a channel that some bundle is in. */
  ghost predicate DefaultClear(bundles: seq<RegistryBundle>) {
    || (exists ch ::
          OnlyChannel(bundles, ch) && forall b | b in bundles :: b.defaultChannel == "" || b.defaultChannel == ch)
    || (exists h: nat ::
          Highest(bundles, h) && bundles[h].defaultChannel != "" && Mentions(bundles, bundles[h].defaultChannel))
  }

  /** One package, distinct comparable versions, no channel listed twice by a bundle, and a clear default. */
  ghost predicate Clear(bundles: seq<RegistryBundle>) {
    && (forall b, c | b in bundles && c in bundles :: b.pkg == c.pkg)
    && (forall b | b in bundles :: Parsed(b).Some? && BuildIdCompare(Parsed(b).value, ZERO).Some?)
    && (forall n | 0 <= n < |bundles| :: Uncontested(bundles, n))
    && DefaultClear(bundles)
  }

  ghost predicate NamedBy(bundles: seq<RegistryBundle>, default: string) {
    default == "" || exists b :: b in bundles && b.defaultChannel == default
  }

  /** The chosen default, once the heads are known. */
  ghost predicate DefaultFound(heads: map<string, Candidate>, default: string) {
    if |heads| == 1 then default == "" || default in heads else default in heads
  }

  lemma OneHeadOnly(bundles: seq<RegistryBundle>, heads: map<string, Candidate>, ch: string)
    requires HeadsHold(bundles, |bundles|, 0, heads) && OnlyChannel(bundles, ch)
    ensures heads.Keys == {ch} && |heads| == 1
  {
    forall c
      ensures c in heads <==> c == ch
    {
      HeadNames(bundles, heads, c);
    }
    assert |heads| == |heads.Keys|;
  }

  lemma ClearDefaultFound(bundles: seq<RegistryBundle>, heads: map<string, Candidate>, max: Candidate, at: Option<nat>,
                          default: string)
    requires DefaultClear(bundles) && HeadsHold(bundles, |bundles|, 0, heads) && NamedBy(bundles, default)
    requires MaxIs(bundles, |bundles|, max, at, default) && max.count <= 1
    ensures DefaultFound(heads, default)
  {
    if h: nat :|
      Highest(bundles, h) && bundles[h].defaultChannel != "" && Mentions(bundles, bundles[h].defaultChannel)
    {
      HighestIsMax(bundles, max, at, default, h);
      HeadNames(bundles, heads, default);
    } else {
      var ch :| OnlyChannel(bundles, ch) && forall b | b in bundles :: b.defaultChannel == "" || b.defaultChannel == ch;
      OneHeadOnly(bundles, heads, ch);
    }
  }

  lemma ClearMax(bundles: seq<RegistryBundle>, n: nat, current: Candidate, max: Candidate, at: Option<nat>,
                 default: string)
    requires Clear(bundles) && n < |bundles| && current.count == 1 && Parsed(bundles[n]) == Some(current.version)
    requires MaxIs(bundles, n, max, at, default) && max.count <= 1
    ensures Challenge(current, max).Some? && Challenge(current, max).value.1.count <= 1
  {
    assert bundles[n] in bundles && Uncontested(bundles, n);
  }

  /** What is known after n bundles; with clear versions nothing was counted twice. */
  ghost predicate Considered(bundles: seq<RegistryBundle>, n: nat, pkg: string, heads: map<string, Candidate>,
                             max: Candidate, at: Option<nat>, default: string)
    requires n <= |bundles|
  {
    && HeadsHold(bundles, n, 0, heads) && MaxIs(bundles, n, max, at, default) && NamedBy(bundles, default)
    && OnePackage(bundles, n, pkg) && pkg == (if n == 0 then "" else bundles[n - 1].pkg)
    && (Clear(bundles) ==> CountedOnce(heads) && max.count <= 1)
    && CountsExact(bundles, n, 0, heads) && MaxExact(bundles, n, max, at) && DefaultIs(bundles, n, default)
  }

  ghost predicate Standing(bundles: seq<RegistryBundle>, n: nat, pkg: string, heads: map<string, Candidate>,
                           max: Candidate, default: string)
    requires n <= |bundles|
  {
    exists at :: Considered(bundles, n, pkg, heads, max, at, default)
  }

  lemma OldMaxExact(bundles: seq<RegistryBundle>, n: nat, current: Candidate, max: Candidate, at: Option<nat>,
                    default: string)
    requires n < |bundles| && Parsed(bundles[n]) == Some(current.version)
    requires MaxExact(bundles, n, max, at) && DefaultIs(bundles, n, default)
    requires BuildIdCompare(current.version, max.version).Some?
    requires BuildIdCompare(current.version, max.version).value < 0
    ensures MaxExact(bundles, n + 1, max, at) && DefaultIs(bundles, n + 1, default)
  {
    BuildIdOrder(current.version, max.version);
    MaxStays(bundles, n, max, at);
    DefaultStays(bundles, n, default);
  }

  lemma NewMaxExact(bundles: seq<RegistryBundle>, n: nat, current: Candidate, max: Candidate, at: Option<nat>,
                    default: string)
    requires n < |bundles| && CurrentExact(bundles, n, |bundles[n].channels|, current)
    requires MaxExact(bundles, n, max, at) && DefaultIs(bundles, n, default)
    requires BuildIdCompare(current.version, max.version).Some?
    requires BuildIdCompare(current.version, max.version).value >= 0
    ensures MaxExact(bundles, n + 1, Challenge(current, max).value.1, Some(n))
    ensures DefaultIs(bundles, n + 1, NewDefault(bundles[n], default))
  {
    MaxRises(bundles, n, current, max, at);
    if bundles[n].defaultChannel != "" {
      DefaultTaken(bundles, n);
    } else {
      DefaultStays(bundles, n, default);
    }
  }

  /** One bundle: its channels, then the maximum and the default channel. */
  method Consider(bundles: seq<RegistryBundle>, n: nat, pkg: string, heads: map<string, Candidate>, max: Candidate,
                  default: string)
    returns (ok: bool, heads': map<string, Candidate>, max': Candidate, default': string)
    requires n < |bundles| && Standing(bundles, n, pkg, heads, max, default)
    ensures ok ==> Standing(bundles, n + 1, bundles[n].pkg, heads', max', default')
    ensures Clear(bundles) ==> ok
    ensures ok <==> Passes(bundles, n)
  {
    ghost var at :| Considered(bundles, n, pkg, heads, max, at, default);
    heads', max', default' := heads, max, default;
    var b := bundles[n];
    assert b in bundles;
    if pkg != "" && pkg != b.pkg {
      assert bundles[n - 1] in bundles;
      return false, heads', max', default';
    }
    var version := Parsed(b);
    if version.None? {
      return false, heads', max', default';
    }
    var current;
    heads', current, ok := EnterChannels(bundles, n, Candidate(b.name, version.value, 1), heads);
    if !ok {
      return;
    }
    if Clear(bundles) {
      ClearMax(bundles, n, current, max, at, default);
    }
    RisesIff(bundles, n, max.version);
    var outcome := Challenge(current, max);
    if outcome.None? {
      return false, heads', max', default';
    }
    if BuildIdCompare(current.version, max.version).value < 0 {
      OldMax(bundles, n, current, max, at, default);
      OldMaxExact(bundles, n, current, max, at, default);
    } else {
      NewMax(bundles, n, current, max, at, default);
      NewMaxExact(bundles, n, current, max, at, default);
      at, max', default' := Some(n), outcome.value.1, NewDefault(b, default);
    }
    assert Considered(bundles, n + 1, b.pkg, heads', max', at, default');
  }

  /** The counts are at most one exactly if nothing is contested. */
  lemma ContestIff(bundles: seq<RegistryBundle>, heads: map<string, Candidate>, max: Candidate, at: Option<nat>)
    requires HeadsHold(bundles, |bundles|, 0, heads) && CountsExact(bundles, |bundles|, 0, heads)
    requires MaxExact(bundles, |bundles|, max, at)
    ensures NoContest(bundles) <==> max.count <= 1 && forall ch | ch in heads :: heads[ch].count <= 1
  {
    forall ch, h: nat, j: nat | LastTop(bundles, |bundles|, 0, ch, h, j)
      ensures ch in heads && (heads[ch].count > 1 <==> Tied(bundles, h, j + 1))
    {
      ChannelContest(bundles, heads, ch, h, j);
    }
    forall h: nat | LastRise(bundles, |bundles|, h)
      ensures at == Some(h)
    {
      if at.Some? {
        RiseUnique(bundles, |bundles|, h, at.value);
      }
    }
    forall ch | ch in heads
      ensures exists h: nat, j: nat :: LastTop(bundles, |bundles|, 0, ch, h, j)
    {
      var h: nat, j: nat :| CountedAt(bundles, |bundles|, 0, ch, heads[ch], h, j);
    }
  }

  lemma ChannelContest(bundles: seq<RegistryBundle>, heads: map<string, Candidate>, ch: string, h: nat, j: nat)
    requires HeadsHold(bundles, |bundles|, 0, heads) && CountsExact(bundles, |bundles|, 0, heads)
    requires LastTop(bundles, |bundles|, 0, ch, h, j)
    ensures ch in heads && (heads[ch].count > 1 <==> Tied(bundles, h, j + 1))
  {
    assert bundles[h] in bundles;
    HeadNames(bundles, heads, ch);
    var i: nat, m: nat :| CountedAt(bundles, |bundles|, 0, ch, heads[ch], i, m);
    LastTopUnique(bundles, |bundles|, 0, ch, h, j, i, m);
  }

  lemma FoundIff(bundles: seq<RegistryBundle>, heads: map<string, Candidate>, default: string)
    requires HeadsHold(bundles, |bundles|, 0, heads)
    ensures DefaultFound(heads, default) <==> DefaultKnown(bundles, default)
  {
    HeadNames(bundles, heads, default);
    if |heads| == 1 {
      var ch :| ch in heads;
      forall c | Mentions(bundles, c)
        ensures c == ch
      {
        HeadNames(bundles, heads, c);
        if c != ch {
          OneKey(heads, c, ch);
        }
      }
      HeadNames(bundles, heads, ch);
      assert OnlyChannel(bundles, ch);
    } else if ch :| OnlyChannel(bundles, ch) {
      OneHeadOnly(bundles, heads, ch);
    }
  }

  /** The checks at the end, and the default channel of a package with one channel. */
  method Conclude(bundles: seq<RegistryBundle>, pkg: string, heads: map<string, Candidate>, max: Candidate,
                  default: string)
    returns (r: Option<Manifest>)
    requires Standing(bundles, |bundles|, pkg, heads, max, default)
    ensures r.Some? ==> IsManifestOf(bundles, r.value) && r.value.pkg == pkg
    ensures r.Some? ==> default != "" || Lists(r.value.channels, "") ==> r.value.defaultChannel == default
    ensures Clear(bundles) ==> r.Some?
    ensures r.Some? <==> NoContest(bundles) && DefaultKnown(bundles, default)
  {
    ghost var at :| Considered(bundles, |bundles|, pkg, heads, max, at, default);
    ContestIff(bundles, heads, max, at);
    FoundIff(bundles, heads, default);
    if max.count > 1 {
      return None;
    }
    var channels := CollectHeads(heads);
    if channels.None? {
      return None;
    }
    if Clear(bundles) {
      ClearDefaultFound(bundles, heads, max, at, default);
    }
    var chosen := default;
    if |heads| == 1 {
      chosen :| chosen in heads;
      if default != "" && default != chosen {
        OneKey(heads, default, chosen);
        return None;
      }
    } else if default !in heads {
      return None;
    }
    ManifestHolds(bundles, heads, max, at, default, channels.value, pkg, chosen);
    ChosenIsDefault(heads, channels.value, default, chosen);
    return Some(Manifest(pkg, channels.value, chosen));
  }

  /** The only channel is the default unless another one is named; a channel without a name may be the default, too. */
  lemma ChosenIsDefault(heads: map<string, Candidate>, channels: seq<PackageChannel>, default: string, chosen: string)
    requires Collected(heads, heads.Keys, channels) && chosen in heads
    requires chosen == default || (default == "" && |heads| == 1)
    ensures default != "" || Lists(channels, "") ==> chosen == default
  {
    if chosen != default {
      OneKey(heads, "", chosen);
    }
  }

  lemma OneDefault(bundles: seq<RegistryBundle>, pkg: string, heads: map<string, Candidate>, max: Candidate,
                   default: string)
    requires Standing(bundles, |bundles|, pkg, heads, max, default)
    ensures forall d | DefaultIs(bundles, |bundles|, d) :: d == default
    ensures DefaultIs(bundles, |bundles|, default)
  {
    forall d | DefaultIs(bundles, |bundles|, d)
      ensures d == default
    {
      DefaultUnique(bundles, |bundles|, d, default);
    }
  }

  lemma NothingConsidered(bundles: seq<RegistryBundle>)
    ensures Standing(bundles, 0, "", map[], NO_MAX, "")
  {
    forall ch
      ensures HasHead(bundles, Met(bundles, 0, 0, ch), ch, map[])
    {
      assert bundles != [] ==> bundles[0].channels[..0] == [];
    }
    assert Considered(bundles, 0, "", map[], NO_MAX, None, "");
  }

  /** The loop over the bundles. */
  method ConsiderAll(bundles: seq<RegistryBundle>)
    returns (ok: bool, pkg: string, heads: map<string, Candidate>, max: Candidate, default: string)
    ensures ok <==> AllPass(bundles, |bundles|)
    ensures ok ==> Standing(bundles, |bundles|, pkg, heads, max, default)
    ensures ok && bundles != [] ==> pkg == bundles[|bundles| - 1].pkg
    ensures Clear(bundles) ==> ok
  {
    ok, pkg, heads, max, default := true, "", map[], NO_MAX, "";
    NothingConsidered(bundles);
    for n := 0 to |bundles|
      invariant ok && Standing(bundles, n, pkg, heads, max, default)
      invariant AllPass(bundles, n)
    {
      ok, heads, max, default := Consider(bundles, n, pkg, heads, max, default);
      if !ok {
        return;
      }
      pkg := bundles[n].pkg;
    }
  }

  lemma NoneMalformed(bundles: seq<RegistryBundle>)
    requires AllPass(bundles, |bundles|)
    ensures forall b | b in bundles :: !b.version.Malformed?
  {
    forall b | b in bundles
      ensures !b.version.Malformed?
    {
      var i :| 0 <= i < |bundles| && bundles[i] == b;
      assert Passes(bundles, i);
    }
  }

  lemma SomeBundle(bundles: seq<RegistryBundle>, m: Manifest)
    requires IsManifestOf(bundles, m)
    ensures bundles != []
  {
    assert Mentions(bundles, m.defaultChannel);
  }

  /** A manifest is produced exactly for the producible lists, and it is the one the versions demand. */
  method SemverPackageManifest(bundles: seq<RegistryBundle>) returns (r: Option<Manifest>)
    ensures r.Some? ==> IsManifestOf(bundles, r.value)
    ensures r.Some? ==> bundles != [] && r.value.pkg == bundles[|bundles| - 1].pkg
    ensures r.Some? ==> forall b | b in bundles :: !b.version.Malformed?
    ensures r.Some? ==>
              forall d | DefaultIs(bundles, |bundles|, d) && (d != "" || Lists(r.value.channels, "")) ::
                r.value.defaultChannel == d
    ensures r.Some? <==> Producible(bundles)
    ensures Clear(bundles) ==> r.Some?
  {
    var ok, pkg, heads, max, default;
    ok, pkg, heads, max, default := ConsiderAll(bundles);
    if !ok {
      return None;
    }
    OneDefault(bundles, pkg, heads, max, default);
    NoneMalformed(bundles);
    r := Conclude(bundles, pkg, heads, max, default);
    if r.Some? {
      SomeBundle(bundles, r.value);
    }
  }

  // ---- The count leaks -------------------------------------------------------------------------

  /** The second bundle ties in its first channel, so it counts as contested in its second, which it has for itself. */
  lemma TieLeaks(bundles: seq<RegistryBundle>, v: Version, w: Version, a: string, b: string)
    requires |bundles| == 3 && Parsed(bundles[0]) == Parsed(bundles[1]) == Some(v) && Parsed(bundles[2]) == Some(w)
    requires bundles[0].channels == [a] && bundles[1].channels == [a, b] && bundles[2].channels == [a]
    requires a != b && Newer(w, v)
    ensures StrictHead(bundles, a, 2) && StrictHead(bundles, b, 1) && !NoContest(bundles)
  {
    assert 0 in Met(bundles, 1, 0, a) && Ties(v, bundles[0]);
    assert bundles[1].channels[..0] == [];
    assert TiesAt(bundles, 1, 0);
    assert Tied(bundles, 1, 2);
    assert 1 in Met(bundles, 3, 0, b) && Ties(v, bundles[1]);
    assert forall i | i in Met(bundles, 3, 0, b) :: i == 1;
    assert LastTop(bundles, 3, 0, b, 1, 1);
  }

  const LEAKING := [RegistryBundle("x", "p", "img/x", Text(Version(1, 0, 0, [], [])), "", [], "", ["a"], "a"),
                    RegistryBundle("y", "p", "img/y", Text(Version(1, 0, 0, [], [])), "", [], "", ["a", "b"], "a"),
                    RegistryBundle("z", "p", "img/z", Text(Version(2, 0, 0, [], [])), "", [], "", ["a"], "a")]

  /** Each channel has a bundle newer than its others, yet there is no manifest. */
  lemma CountLeaks()
    ensures StrictHead(LEAKING, "a", 2) && StrictHead(LEAKING, "b", 1) && !Producible(LEAKING)
  {
    assert "a"[0] != "b"[0];
    TieLeaks(LEAKING, Version(1, 0, 0, [], []), Version(2, 0, 0, [], []), "a", "b");
  }

  lemma OneKey(heads: map<string, Candidate>, a: string, b: string)
    requires |heads| == 1 && a != b && b in heads
    ensures a !in heads
  {
    if a in heads {
      SubsetSize({a, b}, heads.Keys);
    }
  }
}
