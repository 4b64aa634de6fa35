// The channel_entry rows of one channel. Both loaders write the same shape: the real entry of the head,
// then per link of the chain a pair of rows for every skipped bundle (a dummy entry for the skipped bundle
// and an extra entry of the skipping bundle that points at it) followed by the real entry of the next link.
module ChannelRows {
  import opened Common
  import opened Tables

  datatype Link = Link(name: string, skips: seq<string>)

  /** The two loaders differ in how far the depth moves on past the skipped bundles of a link. */
  datatype Mode = ReplacesMode | SemverMode

  ghost function Advance(mode: Mode, link: Link): nat {
    if mode.ReplacesMode? then |link.skips| + 1 else 1
  }

  ghost function Size(link: Link): nat {
    1 + 2 * |link.skips|
  }

  /** The id of the n-th real entry; for n == |chain|, the id after the last row. */
  ghost function RealAt(chain: seq<Link>, n: nat, id: nat): nat
    requires n <= |chain|
  {
    if n == 0 then id else RealAt(chain, n - 1, id) + Size(chain[n - 1])
  }

  ghost function DepthAt(mode: Mode, chain: seq<Link>, n: nat, depth: nat): nat
    requires n <= |chain|
  {
    if n == 0 then depth else DepthAt(mode, chain, n - 1, depth) + Advance(mode, chain[n - 1])
  }

  ghost function PointerAt(chain: seq<Link>, n: nat, id: nat): Option<nat>
    requires n < |chain|
  {
    if n + 1 < |chain| then Some(RealAt(chain, n + 1, id)) else None
  }

  ghost predicate HasRow(entries: map<nat, Entry>, i: nat, row: Entry) {
    i in entries && entries[i] == row
  }

  /** The rows of all other channels are the same. */
  ghost predicate SameExcept(entries: map<nat, Entry>, more: map<nat, Entry>, key: ChannelKey) {
    && (forall i | i in entries && entries[i].key != key :: HasRow(more, i, entries[i]))
    && (forall i | i in more && more[i].key != key :: HasRow(entries, i, more[i]))
  }

  ghost predicate SameRows(entries: map<nat, Entry>, more: map<nat, Entry>, key: ChannelKey) {
    && (forall i | i in entries && entries[i].key == key :: HasRow(more, i, entries[i]))
    && (forall i | i in more && more[i].key == key :: HasRow(entries, i, more[i]))
  }

  ghost predicate SkipStored(entries: map<nat, Entry>, key: ChannelKey, link: Link, at: nat, depth: nat, j: nat)
    requires j < |link.skips|
  {
    && HasRow(entries, at + 1 + 2 * j, Entry(key, link.skips[j], None, depth + 1 + j))
    && HasRow(entries, at + 2 + 2 * j, Entry(key, link.name, Some(at + 1 + 2 * j), depth + 1 + j))
  }

  ghost predicate LinkStored(entries: map<nat, Entry>, mode: Mode, key: ChannelKey, chain: seq<Link>, depth: nat,
                             id: nat, n: nat)
    requires n < |chain|
  {
    var at, d := RealAt(chain, n, id), DepthAt(mode, chain, n, depth);
    && HasRow(entries, at, Entry(key, chain[n].name, PointerAt(chain, n, id), d))
    && forall j | 0 <= j < |chain[n].skips| :: SkipStored(entries, key, chain[n], at, d, j)
  }

  /** The rows of the chain lie at consecutive ids, the head's real entry at the given id and depth. */
  ghost predicate Stored(entries: map<nat, Entry>, mode: Mode, key: ChannelKey, chain: seq<Link>, depth: nat, id: nat) {
    forall n | 0 <= n < |chain| :: LinkStored(entries, mode, key, chain, depth, id, n)
  }

  // ---- Where the rows are ----------------------------------------------------------------------

  /** Later links lie strictly behind earlier ones, their skip rows included, and are strictly deeper. */
  lemma {:induction false} RealAtIncreases(mode: Mode, chain: seq<Link>, m: nat, n: nat, depth: nat, id: nat)
    requires m < n <= |chain|
    ensures RealAt(chain, n, id) >= RealAt(chain, m, id) + Size(chain[m])
    ensures DepthAt(mode, chain, n, depth) > DepthAt(mode, chain, m, depth)
    decreases n
  {
    if m < n - 1 {
      RealAtIncreases(mode, chain, m, n - 1, depth, id);
    }
  }

  /** Positions depend on the links before them only. */
  lemma {:induction false} RealAtPrefix(mode: Mode, chain: seq<Link>, longer: seq<Link>, n: nat, depth: nat, id: nat)
    requires n <= |chain| && n <= |longer| && chain[..n] == longer[..n]
    ensures RealAt(chain, n, id) == RealAt(longer, n, id)
    ensures DepthAt(mode, chain, n, depth) == DepthAt(mode, longer, n, depth)
  {
    if n > 0 {
      assert chain[n - 1] == chain[..n][n - 1] == longer[..n][n - 1] == longer[n - 1];
      assert chain[..n - 1] == chain[..n][..n - 1] == longer[..n][..n - 1] == longer[..n - 1];
      RealAtPrefix(mode, chain, longer, n - 1, depth, id);
    }
  }

  /** The part a row plays: the real entry of link n, or one of the two rows of its j-th skip. */
  datatype Place = Real(n: nat) | Dummy(n: nat, j: nat) | Extra(n: nat, j: nat)

  ghost predicate IsPlace(chain: seq<Link>, place: Place) {
    place.n < |chain| && (!place.Real? ==> place.j < |chain[place.n].skips|)
  }

  ghost function IdOf(chain: seq<Link>, place: Place, id: nat): nat
    requires IsPlace(chain, place)
  {
    var at := RealAt(chain, place.n, id);
    match place
    case Real(_) => at
    case Dummy(_, j) => at + 1 + 2 * j
    case Extra(_, j) => at + 2 + 2 * j
  }

  ghost function RowOf(mode: Mode, key: ChannelKey, chain: seq<Link>, depth: nat, id: nat, place: Place): Entry
    requires IsPlace(chain, place)
  {
    var at, d, link := RealAt(chain, place.n, id), DepthAt(mode, chain, place.n, depth), chain[place.n];
    match place
    case Real(n) => Entry(key, link.name, PointerAt(chain, n, id), d)
    case Dummy(_, j) => Entry(key, link.skips[j], None, d + 1 + j)
    case Extra(_, j) => Entry(key, link.name, Some(at + 1 + 2 * j), d + 1 + j)
  }

  /** Every id of the channel's range is the id of some place. */
  lemma {:induction false} Locate(chain: seq<Link>, id: nat, n: nat, k: nat) returns (place: Place)
    requires n <= |chain| && id <= k < RealAt(chain, n, id)
    ensures IsPlace(chain, place) && k == IdOf(chain, place, id)
  {
    var at := RealAt(chain, n - 1, id);
    if k < at {
      place := Locate(chain, id, n - 1, k);
    } else if k == at {
      place := Real(n - 1);
    } else if (k - at) % 2 == 1 {
      place := Dummy(n - 1, (k - at - 1) / 2);
    } else {
      place := Extra(n - 1, (k - at - 2) / 2);
    }
  }

  /** No row plays two parts. */
  lemma PlacesDistinct(chain: seq<Link>, id: nat, a: Place, b: Place)
    requires IsPlace(chain, a) && IsPlace(chain, b) && IdOf(chain, a, id) == IdOf(chain, b, id)
    ensures a == b
  {
    if a.n < b.n {
      RealAtIncreases(SemverMode, chain, a.n, b.n, 0, id);
    } else if b.n < a.n {
      RealAtIncreases(SemverMode, chain, b.n, a.n, 0, id);
    }
  }

  lemma RowAtPlace(entries: map<nat, Entry>, mode: Mode, key: ChannelKey, chain: seq<Link>, depth: nat, id: nat,
                   place: Place)
    requires Stored(entries, mode, key, chain, depth, id) && IsPlace(chain, place)
    ensures HasRow(entries, IdOf(chain, place, id), RowOf(mode, key, chain, depth, id, place))
    ensures id <= IdOf(chain, place, id) < RealAt(chain, |chain|, id)
  {
    assert LinkStored(entries, mode, key, chain, depth, id, place.n);
    RealAtIncreases(mode, chain, place.n, |chain|, depth, id);
    if place.n > 0 {
      RealAtIncreases(mode, chain, 0, place.n, depth, id);
    }
    if !place.Real? {
      assert SkipStored(entries, key, chain[place.n], RealAt(chain, place.n, id), DepthAt(mode, chain, place.n, depth),
        place.j);
    }
  }

  // ---- What every channel written this way satisfies -------------------------------------------

  ghost predicate Deeper(entries: map<nat, Entry>, i: nat)
    requires i in entries && entries[i].replacesId.Some? && entries[i].replacesId.value in entries
  {
    var t := entries[i].replacesId.value;
    entries[t].depth > entries[i].depth || entries[t].replacesId.None?
  }

  /**
    Every row carries the channel's key, the head's entry is strictly above all others, and a pointer
    stays among the rows and leads either strictly deeper or to an entry without a pointer.
  */
  lemma StoredLayered(entries: map<nat, Entry>, mode: Mode, key: ChannelKey, chain: seq<Link>, depth: nat, id: nat,
                      k: nat)
    requires Stored(entries, mode, key, chain, depth, id) && id <= k < RealAt(chain, |chain|, id)
    ensures k in entries && entries[k].key == key
    ensures k == id ==> entries[k].bundle == chain[0].name && entries[k].depth == depth
    ensures k != id ==> entries[k].depth > depth
    ensures entries[k].replacesId.Some? ==>
              && id <= entries[k].replacesId.value < RealAt(chain, |chain|, id)
              && entries[k].replacesId.value in entries
              && Deeper(entries, k)
  {
    var place := Locate(chain, id, |chain|, k);
    RowAtPlace(entries, mode, key, chain, depth, id, place);
    if k == id {
      PlacesDistinct(chain, id, place, Real(0));
    }
    if place.n > 0 {
      RealAtIncreases(mode, chain, 0, place.n, depth, id);
    }
    if place.Real? && place.n + 1 < |chain| {
      RowAtPlace(entries, mode, key, chain, depth, id, Real(place.n + 1));
    } else if place.Extra? {
      RowAtPlace(entries, mode, key, chain, depth, id, Dummy(place.n, place.j));
    }
  }

  // ---- Growing a chain row by row --------------------------------------------------------------

  function WithSkip(chain: seq<Link>, name: string): seq<Link>
    requires |chain| > 0
  {
    var last := chain[|chain| - 1];
    chain[..|chain| - 1] + [last.(skips := last.skips + [name])]
  }

  ghost predicate Extends(entries: map<nat, Entry>, more: map<nat, Entry>, lo: nat) {
    forall i | i in entries && i < lo :: i in more && more[i] == entries[i]
  }

  /** Rows below the changed part keep their links. */
  lemma LinkStoredKept(entries: map<nat, Entry>, more: map<nat, Entry>, mode: Mode, key: ChannelKey,
                       chain: seq<Link>, longer: seq<Link>, depth: nat, id: nat, n: nat)
    requires n + 1 < |chain| <= |longer| && chain[..|chain| - 1] == longer[..|chain| - 1]
    requires LinkStored(entries, mode, key, chain, depth, id, n)
    requires Extends(entries, more, RealAt(chain, n + 1, id))
    ensures LinkStored(more, mode, key, longer, depth, id, n)
  {
    assert chain[..n + 1] == chain[..|chain| - 1][..n + 1] == longer[..n + 1];
    assert chain[..n] == chain[..n + 1][..n] == longer[..n];
    assert chain[n] == chain[..n + 1][n] == longer[n];
    RealAtPrefix(mode, chain, longer, n + 1, depth, id);
    RealAtPrefix(mode, chain, longer, n, depth, id);
    var at, d := RealAt(chain, n, id), DepthAt(mode, chain, n, depth);
    forall j | 0 <= j < |chain[n].skips|
      ensures SkipStored(more, key, chain[n], at, d, j)
    {
      assert SkipStored(entries, key, chain[n], at, d, j);
    }
  }

  /** The pair of rows for one more skip extends the last link by that skip. */
  lemma StoredWithSkip(entries: map<nat, Entry>, more: map<nat, Entry>, mode: Mode, key: ChannelKey, chain: seq<Link>,
                       depth: nat, id: nat, name: string)
    requires |chain| > 0 && Stored(entries, mode, key, chain, depth, id)
    requires var last, end, d := chain[|chain| - 1], RealAt(chain, |chain|, id),
               DepthAt(mode, chain, |chain| - 1, depth);
             more == entries[end := Entry(key, name, None, d + 1 + |last.skips|)]
                            [end + 1 := Entry(key, last.name, Some(end), d + 1 + |last.skips|)]
    ensures Stored(more, mode, key, WithSkip(chain, name), depth, id)
    ensures RealAt(WithSkip(chain, name), |chain|, id) == RealAt(chain, |chain|, id) + 2
    ensures DepthAt(mode, WithSkip(chain, name), |chain| - 1, depth) == DepthAt(mode, chain, |chain| - 1, depth)
  {
    var longer, m := WithSkip(chain, name), |chain| - 1;
    assert chain[..m] == longer[..m];
    RealAtPrefix(mode, chain, longer, m, depth, id);
    forall n | 0 <= n < |longer|
      ensures LinkStored(more, mode, key, longer, depth, id, n)
    {
      assert LinkStored(entries, mode, key, chain, depth, id, n);
      if n < m {
        RealAtIncreases(mode, chain, n, |chain|, depth, id);
        if n + 1 < |chain| - 1 {
          RealAtIncreases(mode, chain, n + 1, |chain|, depth, id);
        }
        LinkStoredKept(entries, more, mode, key, chain, longer, depth, id, n);
      } else {
        LastLinkWithSkip(entries, more, mode, key, chain, depth, id, name);
      }
    }
  }

  lemma LastLinkWithSkip(entries: map<nat, Entry>, more: map<nat, Entry>, mode: Mode, key: ChannelKey, chain: seq<Link>,
                         depth: nat, id: nat, name: string)
    requires |chain| > 0 && LinkStored(entries, mode, key, chain, depth, id, |chain| - 1)
    requires var last, end, d := chain[|chain| - 1], RealAt(chain, |chain|, id),
               DepthAt(mode, chain, |chain| - 1, depth);
             more == entries[end := Entry(key, name, None, d + 1 + |last.skips|)]
                            [end + 1 := Entry(key, last.name, Some(end), d + 1 + |last.skips|)]
    ensures LinkStored(more, mode, key, WithSkip(chain, name), depth, id, |chain| - 1)
  {
    var longer, m := WithSkip(chain, name), |chain| - 1;
    assert chain[..m] == longer[..m];
    RealAtPrefix(mode, chain, longer, m, depth, id);
    var at, d := RealAt(chain, m, id), DepthAt(mode, chain, m, depth);
    forall j | 0 <= j < |longer[m].skips|
      ensures SkipStored(more, key, longer[m], at, d, j)
    {
      if j < |chain[m].skips| {
        assert SkipStored(entries, key, chain[m], at, d, j);
      }
    }
  }

  /** A further real entry, pointed at by the last one, extends the chain by a link without skips. */
  lemma StoredWithLink(entries: map<nat, Entry>, more: map<nat, Entry>, mode: Mode, key: ChannelKey, chain: seq<Link>,
                       depth: nat, id: nat, name: string)
    requires |chain| > 0 && Stored(entries, mode, key, chain, depth, id)
    requires var last, end := RealAt(chain, |chain| - 1, id), RealAt(chain, |chain|, id);
             && last in entries
             && more == entries[end := Entry(key, name, None, DepthAt(mode, chain, |chain|, depth))]
                               [last := entries[last].(replacesId := Some(end))]
    ensures Stored(more, mode, key, chain + [Link(name, [])], depth, id)
    ensures RealAt(chain + [Link(name, [])], |chain|, id) == RealAt(chain, |chain|, id)
    ensures RealAt(chain + [Link(name, [])], |chain| + 1, id) == RealAt(chain, |chain|, id) + 1
    ensures DepthAt(mode, chain + [Link(name, [])], |chain|, depth) == DepthAt(mode, chain, |chain|, depth)
  {
    var longer, m := chain + [Link(name, [])], |chain| - 1;
    assert chain[..|chain|] == longer[..|chain|] && chain[..m] == longer[..m];
    RealAtPrefix(mode, chain, longer, |chain|, depth, id);
    RealAtPrefix(mode, chain, longer, m, depth, id);
    forall n | 0 <= n < |longer|
      ensures LinkStored(more, mode, key, longer, depth, id, n)
    {
      if n < |chain| {
        assert LinkStored(entries, mode, key, chain, depth, id, n);
      }
      if n < m {
        EarlierLinkKept(entries, more, mode, key, chain, depth, id, name, n);
      } else if n == m {
        LastLinkPointed(entries, more, mode, key, chain, depth, id, name);
      } else {
        assert RealAt(longer, n, id) == RealAt(chain, |chain|, id) > RealAt(chain, m, id);
        assert HasRow(more, RealAt(longer, n, id), Entry(key, name, None, DepthAt(mode, longer, n, depth)));
      }
    }
  }

  lemma EarlierLinkKept(entries: map<nat, Entry>, more: map<nat, Entry>, mode: Mode, key: ChannelKey, chain: seq<Link>,
                        depth: nat, id: nat, name: string, n: nat)
    requires n + 1 < |chain| && LinkStored(entries, mode, key, chain, depth, id, n)
    requires var last, end := RealAt(chain, |chain| - 1, id), RealAt(chain, |chain|, id);
             && last in entries
             && more == entries[end := Entry(key, name, None, DepthAt(mode, chain, |chain|, depth))]
                               [last := entries[last].(replacesId := Some(end))]
    ensures LinkStored(more, mode, key, chain + [Link(name, [])], depth, id, n)
  {
    var longer, m := chain + [Link(name, [])], |chain| - 1;
    assert chain[..m] == longer[..m];
    if n + 1 < m {
      RealAtIncreases(mode, chain, n + 1, m, depth, id);
    }
    RealAtIncreases(mode, chain, m, |chain|, depth, id);
    LinkStoredKept(entries, more, mode, key, chain, longer, depth, id, n);
  }

  lemma LastLinkPointed(entries: map<nat, Entry>, more: map<nat, Entry>, mode: Mode, key: ChannelKey, chain: seq<Link>,
                        depth: nat, id: nat, name: string)
    requires |chain| > 0 && LinkStored(entries, mode, key, chain, depth, id, |chain| - 1)
    requires var last, end := RealAt(chain, |chain| - 1, id), RealAt(chain, |chain|, id);
             && last in entries
             && more == entries[end := Entry(key, name, None, DepthAt(mode, chain, |chain|, depth))]
                               [last := entries[last].(replacesId := Some(end))]
    ensures LinkStored(more, mode, key, chain + [Link(name, [])], depth, id, |chain| - 1)
  {
    var longer, m := chain + [Link(name, [])], |chain| - 1;
    assert chain[..|chain|] == longer[..|chain|] && chain[..m] == longer[..m];
    RealAtPrefix(mode, chain, longer, |chain|, depth, id);
    RealAtPrefix(mode, chain, longer, m, depth, id);
    var at, d := RealAt(chain, m, id), DepthAt(mode, chain, m, depth);
    forall j | 0 <= j < |chain[m].skips|
      ensures SkipStored(more, key, longer[m], at, d, j)
    {
      assert SkipStored(entries, key, chain[m], at, d, j);
    }
  }

  /** Rows that are only added to or changed outside the range leave the channel stored. */
  lemma StoredFrame(entries: map<nat, Entry>, more: map<nat, Entry>, mode: Mode, key: ChannelKey, chain: seq<Link>,
                    depth: nat, id: nat)
    requires Stored(entries, mode, key, chain, depth, id)
    requires forall i | i in entries && id <= i < RealAt(chain, |chain|, id) :: i in more && more[i] == entries[i]
    ensures Stored(more, mode, key, chain, depth, id)
  {
    forall n | 0 <= n < |chain|
      ensures LinkStored(more, mode, key, chain, depth, id, n)
    {
      assert LinkStored(entries, mode, key, chain, depth, id, n);
      RowAtPlace(entries, mode, key, chain, depth, id, Real(n));
      var at, d := RealAt(chain, n, id), DepthAt(mode, chain, n, depth);
      forall j | 0 <= j < |chain[n].skips|
        ensures SkipStored(more, key, chain[n], at, d, j)
      {
        assert SkipStored(entries, key, chain[n], at, d, j);
        RowAtPlace(entries, mode, key, chain, depth, id, Dummy(n, j));
        RowAtPlace(entries, mode, key, chain, depth, id, Extra(n, j));
      }
    }
  }
}
