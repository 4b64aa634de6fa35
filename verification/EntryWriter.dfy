/** Inserting channel_entry rows one by one: pkg/sqlite/loadprocs.go and the loops of both loaders. */
module EntryWriter {
  import opened Common
  import opened Tables
  import opened ChannelRows

  /** entries holds the old rows and, at the fresh ids from id up to end, new rows of one channel. */
  ghost predicate Grown(old_: map<nat, Entry>, entries: map<nat, Entry>, key: ChannelKey, id: nat, end: nat) {
    && id == FreshId(old_) && id <= end
    && (forall i | i in old_ :: HasRow(entries, i, old_[i]))
    && (forall i | i in entries && i !in old_ :: id <= i < end && entries[i].key == key)
    && (forall i: nat | id <= i < end :: i in entries)
  }

  lemma GrownFresh(old_: map<nat, Entry>, entries: map<nat, Entry>, key: ChannelKey, id: nat, end: nat)
    requires Grown(old_, entries, key, id, end)
    ensures FreshId(entries) == end
  {
    assert id == end ==> entries == old_;
    assert forall i | i in entries :: i < end;
    assert id < end ==> end - 1 in entries;
    FreshIdUnique(entries, end);
  }

  lemma GrownWithRow(old_: map<nat, Entry>, entries: map<nat, Entry>, key: ChannelKey, id: nat, end: nat, row: Entry)
    requires Grown(old_, entries, key, id, end) && row.key == key
    ensures Grown(old_, entries[end := row], key, id, end + 1)
  {
    GrownFresh(old_, entries, key, id, end);
  }

  lemma GrownPatched(old_: map<nat, Entry>, entries: map<nat, Entry>, key: ChannelKey, id: nat, end: nat, k: nat,
                     row: Entry)
    requires Grown(old_, entries, key, id, end) && row.key == key && id <= k < end
    ensures Grown(old_, entries[k := row], key, id, end)
  {
  }

  method AddChannelEntry(entries: map<nat, Entry>, row: Entry) returns (more: map<nat, Entry>, id: nat)
    ensures id == FreshId(entries)
    ensures more == entries[id := row]
  {
    id := NextId(entries);
    more := entries[id := row];
  }

  method AddReplaces(entries: map<nat, Entry>, target: nat, id: nat) returns (more: map<nat, Entry>)
    ensures id in entries ==> more == entries[id := entries[id].(replacesId := Some(target))]
    ensures id !in entries ==> more == entries
  {
    more := if id in entries then entries[id := entries[id].(replacesId := Some(target))] else entries;
  }

  /** A channel under construction: the rows so far are those of a chain and lie behind the old rows. */
  ghost predicate Building(old_: map<nat, Entry>, entries: map<nat, Entry>, mode: Mode, key: ChannelKey,
                           chain: seq<Link>, top: nat, id: nat)
  {
    && |chain| > 0
    && Stored(entries, mode, key, chain, top, id)
    && Grown(old_, entries, key, id, RealAt(chain, |chain|, id))
  }

  ghost function LastDepth(mode: Mode, chain: seq<Link>, top: nat): nat
    requires |chain| > 0
  {
    DepthAt(mode, chain, |chain| - 1, top)
  }

  ghost function LastId(chain: seq<Link>, id: nat): nat
    requires |chain| > 0
  {
    RealAt(chain, |chain| - 1, id)
  }

  lemma BuildingStart(old_: map<nat, Entry>, entries: map<nat, Entry>, mode: Mode, key: ChannelKey, head: string,
                      top: nat)
    requires entries == old_[FreshId(old_) := Entry(key, head, None, top)]
    ensures Building(old_, entries, mode, key, [Link(head, [])], top, FreshId(old_))
    ensures LastDepth(mode, [Link(head, [])], top) == top
    ensures LastId([Link(head, [])], FreshId(old_)) == FreshId(old_)
  {
    assert RealAt([Link(head, [])], 1, FreshId(old_)) == FreshId(old_) + 1;
    assert LinkStored(entries, mode, key, [Link(head, [])], top, FreshId(old_), 0);
  }

  lemma BuildingWithSkip(old_: map<nat, Entry>, before: map<nat, Entry>, more: map<nat, Entry>, mode: Mode,
                         key: ChannelKey, chain: seq<Link>, top: nat, id: nat, skip: string)
    requires Building(old_, before, mode, key, chain, top, id)
    requires var last, d, end := chain[|chain| - 1], LastDepth(mode, chain, top), FreshId(before);
             more == before[end := Entry(key, skip, None, d + 1 + |last.skips|)]
                           [end + 1 := Entry(key, last.name, Some(end), d + 1 + |last.skips|)]
    ensures Building(old_, more, mode, key, WithSkip(chain, skip), top, id)
    ensures LastDepth(mode, WithSkip(chain, skip), top) == LastDepth(mode, chain, top)
    ensures LastId(WithSkip(chain, skip), id) == LastId(chain, id)
  {
    var end := RealAt(chain, |chain|, id);
    GrownFresh(old_, before, key, id, end);
    assert Stored(more, mode, key, WithSkip(chain, skip), top, id)
      && RealAt(WithSkip(chain, skip), |chain|, id) == end + 2 by {
      StoredWithSkip(before, more, mode, key, chain, top, id, skip);
    }
    assert Grown(old_, more, key, id, end + 2) by {
      GrownWithRow(old_, before, key, id, end, more[end]);
      GrownWithRow(old_, before[end := more[end]], key, id, end + 1, more[end + 1]);
    }
    assert chain[..|chain| - 1] == WithSkip(chain, skip)[..|chain| - 1];
    RealAtPrefix(mode, chain, WithSkip(chain, skip), |chain| - 1, top, id);
  }

  lemma BuildingWithLink(old_: map<nat, Entry>, before: map<nat, Entry>, more: map<nat, Entry>, mode: Mode,
                         key: ChannelKey, chain: seq<Link>, top: nat, id: nat, name: string)
    requires Building(old_, before, mode, key, chain, top, id)
    requires var last, end := LastId(chain, id), FreshId(before);
             && last in before
             && more == before[end := Entry(key, name, None, DepthAt(mode, chain, |chain|, top))]
                              [last := before[last].(replacesId := Some(end))]
    ensures Building(old_, more, mode, key, chain + [Link(name, [])], top, id)
    ensures LastDepth(mode, chain + [Link(name, [])], top) == DepthAt(mode, chain, |chain|, top)
    ensures LastId(chain + [Link(name, [])], id) == FreshId(before)
  {
    var end, last := RealAt(chain, |chain|, id), LastId(chain, id);
    GrownFresh(old_, before, key, id, end);
    StoredWithLink(before, more, mode, key, chain, top, id, name);
    assert Grown(old_, more, key, id, end + 1) by {
      RowAtPlace(before, mode, key, chain, top, id, Real(|chain| - 1));
      GrownWithRow(old_, before, key, id, end, more[end]);
      GrownPatched(old_, before[end := more[end]], key, id, end + 1, last, more[last]);
    }
  }

  /** The last real entry's id is among the rows, so pointing it at a new row completes a link. */
  lemma BuildingNext(old_: map<nat, Entry>, before: map<nat, Entry>, more: map<nat, Entry>, mode: Mode, key: ChannelKey,
                     chain: seq<Link>, top: nat, id: nat, name: string, depth: nat)
    requires Building(old_, before, mode, key, chain, top, id)
    requires depth == DepthAt(mode, chain, |chain|, top)
    requires var last, end := LastId(chain, id), FreshId(before);
             var inserted := before[end := Entry(key, name, None, depth)];
             last in inserted ==> more == inserted[last := inserted[last].(replacesId := Some(end))]
    ensures LastId(chain, id) in before && LastId(chain, id) != FreshId(before)
    ensures Building(old_, more, mode, key, chain + [Link(name, [])], top, id)
    ensures LastDepth(mode, chain + [Link(name, [])], top) == depth
    ensures LastId(chain + [Link(name, [])], id) == FreshId(before)
  {
    assert LinkStored(before, mode, key, chain, top, id, |chain| - 1);
    BuildingWithLink(old_, before, more, mode, key, chain, top, id, name);
  }

  lemma ExtendWithSkip(front: seq<Link>, csv: string, skips: seq<string>, j: nat)
    requires j < |skips|
    ensures WithSkip(front + [Link(csv, skips[..j])], skips[j]) == front + [Link(csv, skips[..j + 1])]
  {
    var chain := front + [Link(csv, skips[..j])];
    assert chain[..|chain| - 1] == front;
    assert skips[..j + 1] == skips[..j] + [skips[j]];
  }

  /** The dummy entry of a skipped bundle, and the extra entry of the skipping one that points at it. */
  method AddSkipPair(entries: map<nat, Entry>, key: ChannelKey, csv: string, skip: string, depth: nat)
    returns (more: map<nat, Entry>)
    ensures var end := FreshId(entries);
            more == entries[end := Entry(key, skip, None, depth)][end + 1 := Entry(key, csv, Some(end), depth)]
  {
    var skippedId, synthesizedId;
    more, skippedId := AddChannelEntry(entries, Entry(key, skip, None, depth));
    FreshIdUnique(more, skippedId + 1);
    more, synthesizedId := AddChannelEntry(more, Entry(key, csv, None, depth));
    more := AddReplaces(more, skippedId, synthesizedId);
  }

  method AddSkipEntries(entries: map<nat, Entry>, key: ChannelKey, csv: string, skips: seq<string>, startDepth: nat,
                        ghost old_: map<nat, Entry>, ghost mode: Mode, ghost front: seq<Link>, ghost top: nat,
                        ghost id: nat)
    returns (more: map<nat, Entry>, depth: nat)
    requires Building(old_, entries, mode, key, front + [Link(csv, [])], top, id)
    requires startDepth == LastDepth(mode, front + [Link(csv, [])], top) + 1
    ensures depth == startDepth + |skips|
    ensures Building(old_, more, mode, key, front + [Link(csv, skips)], top, id)
    ensures LastDepth(mode, front + [Link(csv, skips)], top) + 1 == startDepth
    ensures LastId(front + [Link(csv, skips)], id) == LastId(front + [Link(csv, [])], id)
  {
    more, depth := entries, startDepth;
    for j := 0 to |skips|
      invariant depth == startDepth + j
      invariant Building(old_, more, mode, key, front + [Link(csv, skips[..j])], top, id)
      invariant LastDepth(mode, front + [Link(csv, skips[..j])], top) + 1 == startDepth
      invariant LastId(front + [Link(csv, skips[..j])], id) == LastId(front + [Link(csv, [])], id)
    {
      ghost var before := more;
      more := AddSkipPair(more, key, csv, skips[j], depth);
      BuildingWithSkip(old_, before, more, mode, key, front + [Link(csv, skips[..j])], top, id, skips[j]);
      ExtendWithSkip(front, csv, skips, j);
      depth := depth + 1;
    }
    assert skips[..|skips|] == skips;
  }
}
