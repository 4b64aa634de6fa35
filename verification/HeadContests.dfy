// When a head counts as contested. The count a bundle gathers in one channel stays with it in the channels it lists
// after that one, so the condition speaks of positions: the k-th channel of the n-th bundle.
module HeadContests {
  import opened Common
  import opened Semver
  import opened Registry
  import opened HeadCandidates

  // ---- The condition ---------------------------------------------------------------------------

  /** The version of the bundles met that no other one exceeds. */
  ghost predicate IsTop(bundles: seq<RegistryBundle>, met: set<nat>, v: Version)
    requires forall i | i in met :: i < |bundles|
  {
    && (exists i :: i in met && Ties(v, bundles[i]))
    && forall i | i in met :: Ties(v, bundles[i]) || Beats(v, bundles[i])
  }

  predicate Listed(bundles: seq<RegistryBundle>, n: nat, k: nat) {
    n < |bundles| && k < |bundles[n].channels|
  }

  predicate Before(h: nat, j: nat, n: nat, k: nat) {
    h < n || (h == n && j < k)
  }

  /** The bundle's version is the one the channel's head has at that point. */
  ghost predicate TiesAt(bundles: seq<RegistryBundle>, n: nat, k: nat)
    requires Listed(bundles, n, k)
  {
    Parsed(bundles[n]).Some? && IsTop(bundles, Met(bundles, n, k, bundles[n].channels[k]), Parsed(bundles[n]).value)
  }

  /** The bundle's version can be compared with the one the channel's head has at that point. */
  ghost predicate ComparesAt(bundles: seq<RegistryBundle>, n: nat, k: nat)
    requires Listed(bundles, n, k) && Parsed(bundles[n]).Some?
  {
    forall w | IsTop(bundles, Met(bundles, n, k, bundles[n].channels[k]), w) ::
      BuildIdCompare(Parsed(bundles[n]).value, w).Some?
  }

  /** The bundle ties in one of its first k channels. */
  ghost predicate Tied(bundles: seq<RegistryBundle>, n: nat, k: nat)
    requires n < |bundles| && k <= |bundles[n].channels|
  {
    exists j: nat :: j < k && TiesAt(bundles, n, j)
  }

  /** Of the positions before the k-th channel of the n-th bundle, the last with the channel's newest version. */
  ghost predicate LastTop(bundles: seq<RegistryBundle>, n: nat, k: nat, ch: string, h: nat, j: nat)
    requires n <= |bundles| && (n < |bundles| ==> k <= |bundles[n].channels|)
  {
    && Listed(bundles, h, j) && bundles[h].channels[j] == ch && Before(h, j, n, k)
    && Parsed(bundles[h]).Some? && IsTop(bundles, Met(bundles, n, k, ch), Parsed(bundles[h]).value)
    && forall i: nat, m: nat | Listed(bundles, i, m) && bundles[i].channels[m] == ch && Before(h, j, i, m)
         && Before(i, m, n, k) ::
         !Ties(Parsed(bundles[h]).value, bundles[i])
  }

  lemma TopUnique(bundles: seq<RegistryBundle>, met: set<nat>, v: Version, w: Version)
    requires (forall i | i in met :: i < |bundles|) && IsTop(bundles, met, v) && IsTop(bundles, met, w)
    ensures v == w
  {
    var i :| i in met && Ties(v, bundles[i]);
    var j :| j in met && Ties(w, bundles[j]);
    BuildIdOrder(v, w);
  }

  lemma LastTopUnique(bundles: seq<RegistryBundle>, n: nat, k: nat, ch: string, h: nat, j: nat, i: nat, m: nat)
    requires n <= |bundles| && (n < |bundles| ==> k <= |bundles[n].channels|)
    requires LastTop(bundles, n, k, ch, h, j) && LastTop(bundles, n, k, ch, i, m)
    ensures h == i && j == m
  {
    TopUnique(bundles, Met(bundles, n, k, ch), Parsed(bundles[h]).value, Parsed(bundles[i]).value);
  }

  // ---- The counts ------------------------------------------------------------------------------

  /** The head comes from the last newest position, and is counted more than once exactly if its bundle tied so far. */
  ghost predicate CountedAt(bundles: seq<RegistryBundle>, n: nat, k: nat, ch: string, c: Candidate, h: nat, j: nat)
    requires n <= |bundles| && (n < |bundles| ==> k <= |bundles[n].channels|)
  {
    && LastTop(bundles, n, k, ch, h, j) && Parsed(bundles[h]) == Some(c.version)
    && (c.count > 1 <==> Tied(bundles, h, j + 1))
  }

  ghost predicate HasCount(bundles: seq<RegistryBundle>, n: nat, k: nat, ch: string, c: Candidate)
    requires n <= |bundles| && (n < |bundles| ==> k <= |bundles[n].channels|)
  {
    exists h: nat, j: nat :: CountedAt(bundles, n, k, ch, c, h, j)
  }

  ghost predicate CountsExact(bundles: seq<RegistryBundle>, n: nat, k: nat, heads: map<string, Candidate>)
    requires n <= |bundles| && (n < |bundles| ==> k <= |bundles[n].channels|)
  {
    forall ch | ch in heads :: HasCount(bundles, n, k, ch, heads[ch])
  }

  /** The bundle is counted more than once exactly if it tied so far. */
  ghost predicate CurrentExact(bundles: seq<RegistryBundle>, n: nat, k: nat, current: Candidate)
    requires n < |bundles| && k <= |bundles[n].channels|
  {
    Parsed(bundles[n]) == Some(current.version) && current.count >= 1 && (current.count > 1 <==> Tied(bundles, n, k))
  }

  lemma TiedStep(bundles: seq<RegistryBundle>, n: nat, k: nat)
    requires Listed(bundles, n, k)
    ensures Tied(bundles, n, k + 1) <==> Tied(bundles, n, k) || TiesAt(bundles, n, k)
  {
    if Tied(bundles, n, k) {
      var j: nat :| j < k && TiesAt(bundles, n, j);
      assert j < k + 1;
    }
  }

  lemma TopStays(bundles: seq<RegistryBundle>, n: nat, k: nat, ch: string, v: Version)
    requires Listed(bundles, n, k) && IsTop(bundles, Met(bundles, n, k, ch), v)
    requires ch == bundles[n].channels[k] ==> Beats(v, bundles[n])
    ensures IsTop(bundles, Met(bundles, n, k + 1, ch), v)
  {
    MetStep(bundles, n, k, ch);
    var i :| i in Met(bundles, n, k, ch) && Ties(v, bundles[i]);
    assert i in Met(bundles, n, k + 1, ch);
  }

  lemma LastTopStays(bundles: seq<RegistryBundle>, n: nat, k: nat, ch: string, h: nat, j: nat)
    requires Listed(bundles, n, k) && LastTop(bundles, n, k, ch, h, j)
    requires ch == bundles[n].channels[k] ==> Beats(Parsed(bundles[h]).value, bundles[n])
    ensures LastTop(bundles, n, k + 1, ch, h, j)
  {
    TopStays(bundles, n, k, ch, Parsed(bundles[h]).value);
    if Beats(Parsed(bundles[h]).value, bundles[n]) {
      BuildIdOrder(Parsed(bundles[h]).value, Parsed(bundles[n]).value);
    }
  }

  /** Another channel, or a bundle older than the head: the head stays. */
  lemma HeadStays(bundles: seq<RegistryBundle>, n: nat, k: nat, ch: string, c: Candidate)
    requires Listed(bundles, n, k) && HasCount(bundles, n, k, ch, c)
    requires ch == bundles[n].channels[k] ==> Beats(c.version, bundles[n])
    ensures HasCount(bundles, n, k + 1, ch, c)
  {
    var h: nat, j: nat :| CountedAt(bundles, n, k, ch, c, h, j);
    LastTopStays(bundles, n, k, ch, h, j);
    assert CountedAt(bundles, n, k + 1, ch, c, h, j);
  }

  /** The bundle becomes the head. */
  lemma HeadSet(bundles: seq<RegistryBundle>, n: nat, k: nat, current: Candidate)
    requires Listed(bundles, n, k) && CurrentExact(bundles, n, k + 1, current)
    requires forall i | i in Met(bundles, n, k, bundles[n].channels[k]) ::
               Ties(current.version, bundles[i]) || Beats(current.version, bundles[i])
    ensures HasCount(bundles, n, k + 1, bundles[n].channels[k], current)
  {
    var ch, m := bundles[n].channels[k], k + 1;
    MetStep(bundles, n, k, ch);
    assert n in Met(bundles, n, m, ch);
    assert CountedAt(bundles, n, m, ch, current, n, k);
  }

  lemma TiesIff(bundles: seq<RegistryBundle>, n: nat, k: nat, w: Version)
    requires Listed(bundles, n, k) && Parsed(bundles[n]).Some?
    requires IsTop(bundles, Met(bundles, n, k, bundles[n].channels[k]), w)
    ensures TiesAt(bundles, n, k) <==> Parsed(bundles[n]).value == w
    ensures ComparesAt(bundles, n, k) <==> BuildIdCompare(Parsed(bundles[n]).value, w).Some?
  {
    forall v | IsTop(bundles, Met(bundles, n, k, bundles[n].channels[k]), v)
      ensures v == w
    {
      TopUnique(bundles, Met(bundles, n, k, bundles[n].channels[k]), v, w);
    }
  }

  /** A channel without a head takes the bundle as it is. */
  lemma FirstInChannel(bundles: seq<RegistryBundle>, n: nat, k: nat, current: Candidate)
    requires Listed(bundles, n, k) && CurrentExact(bundles, n, k, current)
    requires Met(bundles, n, k, bundles[n].channels[k]) == {}
    ensures CurrentExact(bundles, n, k + 1, current) && ComparesAt(bundles, n, k)
    ensures HasCount(bundles, n, k + 1, bundles[n].channels[k], current)
  {
    TiedStep(bundles, n, k);
    HeadSet(bundles, n, k, current);
  }

  /** The comparison with the head fails, ties or decides as the positions say, and the counts stay exact. */
  lemma ChallengeExact(bundles: seq<RegistryBundle>, n: nat, k: nat, current: Candidate, head: Candidate)
    requires Listed(bundles, n, k) && CurrentExact(bundles, n, k, current) && head.count >= 1
    requires HasCount(bundles, n, k, bundles[n].channels[k], head)
    ensures ComparesAt(bundles, n, k) <==> Challenge(current, head).Some?
    ensures Challenge(current, head).Some? ==>
              && CurrentExact(bundles, n, k + 1, Challenge(current, head).value.0)
              && HasCount(bundles, n, k + 1, bundles[n].channels[k], Challenge(current, head).value.1)
  {
    var ch := bundles[n].channels[k];
    var h: nat, j: nat :| CountedAt(bundles, n, k, ch, head, h, j);
    TiesIff(bundles, n, k, head.version);
    TiedStep(bundles, n, k);
    BuildIdOrder(current.version, head.version);
    if Challenge(current, head).Some? {
      if BuildIdCompare(current.version, head.version).value < 0 {
        HeadStays(bundles, n, k, ch, head);
      } else {
        forall i | i in Met(bundles, n, k, ch)
          ensures Ties(current.version, bundles[i]) || Beats(current.version, bundles[i])
        {
          if current.version != head.version {
            BeatsOn(current.version, head.version, bundles[i]);
          }
        }
        HeadSet(bundles, n, k, Challenge(current, head).value.0);
      }
    }
  }

  lemma CountsStep(bundles: seq<RegistryBundle>, n: nat, k: nat, heads: map<string, Candidate>, c: Candidate)
    requires Listed(bundles, n, k) && CountsExact(bundles, n, k, heads)
    requires HasCount(bundles, n, k + 1, bundles[n].channels[k], c)
    ensures CountsExact(bundles, n, k + 1, heads[bundles[n].channels[k] := c])
  {
    var m, heads' := k + 1, heads[bundles[n].channels[k] := c];
    forall ch | ch in heads'
      ensures HasCount(bundles, n, m, ch, heads'[ch])
    {
      if ch != bundles[n].channels[k] {
        HeadStays(bundles, n, k, ch, heads[ch]);
      }
    }
  }

  lemma LastTopNext(bundles: seq<RegistryBundle>, n: nat, ch: string, h: nat, j: nat)
    requires n < |bundles| && LastTop(bundles, n, |bundles[n].channels|, ch, h, j)
    ensures LastTop(bundles, n + 1, 0, ch, h, j)
  {
    MetNext(bundles, n, ch);
    forall i: nat, m: nat | Listed(bundles, i, m) && Before(i, m, n + 1, 0)
      ensures Before(i, m, n, |bundles[n].channels|)
    {
    }
  }

  lemma CountsNext(bundles: seq<RegistryBundle>, n: nat, heads: map<string, Candidate>)
    requires n < |bundles| && CountsExact(bundles, n, |bundles[n].channels|, heads)
    ensures CountsExact(bundles, n + 1, 0, heads)
  {
    var m := n + 1;
    forall ch | ch in heads
      ensures HasCount(bundles, m, 0, ch, heads[ch])
    {
      var h: nat, j: nat :| CountedAt(bundles, n, |bundles[n].channels|, ch, heads[ch], h, j);
      LastTopNext(bundles, n, ch, h, j);
      assert CountedAt(bundles, m, 0, ch, heads[ch], h, j);
    }
  }

  // ---- The highest bundle and the default channel ----------------------------------------------

  ghost predicate AtLeastZero(v: Version) {
    v == ZERO || Newer(v, ZERO)
  }

  /** At least 0.0.0 and no older than any bundle before it. */
  ghost predicate Rises(bundles: seq<RegistryBundle>, n: nat)
    requires n < |bundles|
  {
    && Parsed(bundles[n]).Some? && AtLeastZero(Parsed(bundles[n]).value)
    && forall i | 0 <= i < n ::
         Ties(Parsed(bundles[n]).value, bundles[i]) || Beats(Parsed(bundles[n]).value, bundles[i])
  }

  /** The newest version of the first n bundles, or 0.0.0 if none reaches it. */
  ghost predicate IsMaxOf(bundles: seq<RegistryBundle>, n: nat, w: Version)
    requires n <= |bundles|
  {
    && AtLeastZero(w) && (w == ZERO || exists i: nat :: i < n && Ties(w, bundles[i]))
    && forall i | 0 <= i < n :: Ties(w, bundles[i]) || Beats(w, bundles[i])
  }

  ghost predicate ComparesMax(bundles: seq<RegistryBundle>, n: nat)
    requires n < |bundles| && Parsed(bundles[n]).Some?
  {
    forall w | IsMaxOf(bundles, n, w) :: BuildIdCompare(Parsed(bundles[n]).value, w).Some?
  }

  ghost predicate LastRise(bundles: seq<RegistryBundle>, n: nat, h: nat)
    requires n <= |bundles|
  {
    h < n && Rises(bundles, h) && forall i | h < i < n :: Beats(Parsed(bundles[h]).value, bundles[i])
  }

  ghost predicate TiesEarlier(bundles: seq<RegistryBundle>, h: nat)
    requires h < |bundles| && Parsed(bundles[h]).Some?
  {
    exists i: nat :: i < h && Ties(Parsed(bundles[h]).value, bundles[i])
  }

  ghost predicate NamesLast(bundles: seq<RegistryBundle>, n: nat, d: string, h: nat)
    requires n <= |bundles|
  {
    && h < n && Rises(bundles, h) && bundles[h].defaultChannel == d && d != ""
    && forall i | h < i < n && Rises(bundles, i) :: bundles[i].defaultChannel == ""
  }

  /** The default channel named by the last rising bundle that names one; "" if none does. */
  ghost predicate DefaultIs(bundles: seq<RegistryBundle>, n: nat, d: string)
    requires n <= |bundles|
  {
    || (d == "" && forall i | 0 <= i < n && Rises(bundles, i) :: bundles[i].defaultChannel == "")
    || exists h: nat :: NamesLast(bundles, n, d, h)
  }

  lemma MaxUnique(bundles: seq<RegistryBundle>, n: nat, v: Version, w: Version)
    requires n <= |bundles| && IsMaxOf(bundles, n, v) && IsMaxOf(bundles, n, w)
    ensures v == w
  {
    BuildIdOrder(v, w);
  }

  lemma RiseUnique(bundles: seq<RegistryBundle>, n: nat, h: nat, i: nat)
    requires n <= |bundles| && LastRise(bundles, n, h) && LastRise(bundles, n, i)
    ensures h == i
  {
    BuildIdOrder(Parsed(bundles[h]).value, Parsed(bundles[i]).value);
  }

  lemma DefaultUnique(bundles: seq<RegistryBundle>, n: nat, d: string, e: string)
    requires n <= |bundles| && DefaultIs(bundles, n, d) && DefaultIs(bundles, n, e)
    ensures d == e
  {
  }

  /** The highest bundle is the last one to rise, and is counted more than once exactly if it ties anywhere. */
  ghost predicate MaxExact(bundles: seq<RegistryBundle>, n: nat, max: Candidate, at: Option<nat>)
    requires n <= |bundles|
  {
    && IsMaxOf(bundles, n, max.version)
    && match at
       case None => max.count == 0 && forall i | 0 <= i < n :: !Rises(bundles, i)
       case Some(h) =>
         && LastRise(bundles, n, h) && Parsed(bundles[h]) == Some(max.version) && max.count >= 1
         && (max.count > 1 <==> Tied(bundles, h, |bundles[h].channels|) || TiesEarlier(bundles, h))
  }

  lemma RisesIff(bundles: seq<RegistryBundle>, n: nat, w: Version)
    requires n < |bundles| && Parsed(bundles[n]).Some? && IsMaxOf(bundles, n, w)
    ensures ComparesMax(bundles, n) <==> BuildIdCompare(Parsed(bundles[n]).value, w).Some?
    ensures Rises(bundles, n) <==> Parsed(bundles[n]).value == w || Newer(Parsed(bundles[n]).value, w)
  {
    var v := Parsed(bundles[n]).value;
    forall x | IsMaxOf(bundles, n, x)
      ensures x == w
    {
      MaxUnique(bundles, n, x, w);
    }
    BuildIdOrder(v, w);
    if Newer(v, w) {
      forall i | 0 <= i < n
        ensures Beats(v, bundles[i])
      {
        BeatsOn(v, w, bundles[i]);
      }
      if w != ZERO {
        NewerTransitive(v, w, ZERO);
      }
    }
  }

  lemma MaxStays(bundles: seq<RegistryBundle>, n: nat, max: Candidate, at: Option<nat>)
    requires n < |bundles| && MaxExact(bundles, n, max, at) && Beats(max.version, bundles[n])
    ensures MaxExact(bundles, n + 1, max, at) && !Rises(bundles, n)
  {
    RisesIff(bundles, n, max.version);
    BuildIdOrder(max.version, Parsed(bundles[n]).value);
    if max.version != ZERO {
      var i: nat :| i < n && Ties(max.version, bundles[i]);
      assert i < n + 1;
    }
  }

  lemma EarlierTie(bundles: seq<RegistryBundle>, n: nat, max: Candidate, at: Option<nat>)
    requires n < |bundles| && MaxExact(bundles, n, max, at) && Rises(bundles, n)
    ensures TiesEarlier(bundles, n) <==> at.Some? && Parsed(bundles[n]).value == max.version
  {
    var v := Parsed(bundles[n]).value;
    if i: nat :| i < n && Ties(v, bundles[i]) {
      BuildIdOrder(v, max.version);
      BuildIdOrder(v, ZERO);
      RisesIff(bundles, n, max.version);
      if at.None? {
        TieRises(bundles, n, i);
      }
    }
  }

  /** A bundle that ties with a later rising one rises itself. */
  lemma TieRises(bundles: seq<RegistryBundle>, n: nat, i: nat)
    requires i < n < |bundles| && Rises(bundles, n) && Ties(Parsed(bundles[n]).value, bundles[i])
    ensures Rises(bundles, i)
  {
  }

  lemma MaxRises(bundles: seq<RegistryBundle>, n: nat, current: Candidate, max: Candidate, at: Option<nat>)
    requires n < |bundles| && CurrentExact(bundles, n, |bundles[n].channels|, current) && MaxExact(bundles, n, max, at)
    requires BuildIdCompare(current.version, max.version).Some?
    requires BuildIdCompare(current.version, max.version).value >= 0
    ensures MaxExact(bundles, n + 1, Challenge(current, max).value.1, Some(n))
    ensures Rises(bundles, n)
  {
    RisesIff(bundles, n, max.version);
    BuildIdOrder(current.version, max.version);
    EarlierTie(bundles, n, max, at);
    assert Ties(current.version, bundles[n]);
  }

  lemma DefaultStays(bundles: seq<RegistryBundle>, n: nat, d: string)
    requires n < |bundles| && DefaultIs(bundles, n, d) && (!Rises(bundles, n) || bundles[n].defaultChannel == "")
    ensures DefaultIs(bundles, n + 1, d)
  {
    if h: nat :| NamesLast(bundles, n, d, h) {
      assert NamesLast(bundles, n + 1, d, h);
    }
  }

  lemma DefaultTaken(bundles: seq<RegistryBundle>, n: nat)
    requires n < |bundles| && Rises(bundles, n) && bundles[n].defaultChannel != ""
    ensures DefaultIs(bundles, n + 1, bundles[n].defaultChannel)
  {
    assert NamesLast(bundles, n + 1, bundles[n].defaultChannel, n);
  }

  // ---- When there is a manifest ----------------------------------------------------------------

  /** The bundle is of the same package as the one before it, and its version compares wherever it must. */
  ghost predicate Passes(bundles: seq<RegistryBundle>, n: nat)
    requires n < |bundles|
  {
    && (n > 0 ==> bundles[n - 1].pkg == "" || bundles[n - 1].pkg == bundles[n].pkg)
    && Parsed(bundles[n]).Some? && (forall k | 0 <= k < |bundles[n].channels| :: ComparesAt(bundles, n, k))
    && ComparesMax(bundles, n)
  }

  ghost predicate AllPass(bundles: seq<RegistryBundle>, n: nat)
    requires n <= |bundles|
  {
    forall i | 0 <= i < n :: Passes(bundles, i)
  }

  ghost predicate NoContest(bundles: seq<RegistryBundle>) {
    && (forall ch, h: nat, j: nat | LastTop(bundles, |bundles|, 0, ch, h, j) :: !Tied(bundles, h, j + 1))
    && (forall h: nat | LastRise(bundles, |bundles|, h) ::
          !Tied(bundles, h, |bundles[h].channels|) && !TiesEarlier(bundles, h))
  }

  /** The named default is a channel of some bundle; without one there is a single channel. */
  ghost predicate DefaultKnown(bundles: seq<RegistryBundle>, d: string) {
    Mentions(bundles, d) || (d == "" && exists ch :: OnlyChannel(bundles, ch))
  }

  /** Exactly the lists for which a manifest is produced. */
  ghost predicate Producible(bundles: seq<RegistryBundle>) {
    && AllPass(bundles, |bundles|) && NoContest(bundles)
    && (forall d | DefaultIs(bundles, |bundles|, d) :: DefaultKnown(bundles, d))
  }
}
