/** Adding a bundle that takes part in substitutions: pkg/sqlite/load.go, addSubstitutesFor and appendSkips. */
module Substitutes {
  import opened Common
  import opened Semver
  import opened Tables
  import opened SubstitutionChains
  import Reachability

  type Rows = map<string, BundleRow>

  function LinksOf(rows: Rows): Links {
    map x | x in rows && rows[x].substitutesFor != "" :: rows[x].substitutesFor
  }

  function VersionsOf(rows: Rows): Versions {
    map x | x in rows :: rows[x].version
  }

  ghost predicate Covered(rows: Rows, x: string)
    requires x in rows
  {
    forall y | Over(LinksOf(rows), x, y) :: y in rows[x].skips
  }

  /** Chains ascend, nothing is substituted for twice, and every bundle skips all that lie below it. */
  ghost predicate SubstitutionsSound(rows: Rows) {
    && "" !in rows && Chained(LinksOf(rows), VersionsOf(rows))
    && forall x | x in rows :: Covered(rows, x)
  }

  function SetSubstitute(rows: Rows, x: string, y: string): Rows
    requires x in rows
  {
    rows[x := rows[x].(substitutesFor := y)]
  }

  function SetSkips(rows: Rows, x: string, skips: seq<string>): Rows
    requires x in rows
  {
    rows[x := rows[x].(skips := skips)]
  }

  // ---- Queries ---------------------------------------------------------------------------------

  function Substituters(rows: Rows, y: string): set<string> {
    set x | x in rows && x != "" && rows[x].substitutesFor == y
  }

  function SubstituteOf(rows: Rows, x: string): string {
    if x in rows then rows[x].substitutesFor else ""
  }

  /** The rows of a query, in any order. */
  method Listed(names: set<string>) returns (list: seq<string>)
    ensures forall x :: x in list <==> x in names
    ensures forall i, j | 0 <= i < j < |list| :: list[i] != list[j]
  {
    list := [];
    var rest := names;
    while rest != {}
      invariant rest <= names
      invariant forall x :: x in list <==> x in names && x !in rest
      invariant forall i, j | 0 <= i < j < |list| :: list[i] != list[j]
      decreases |rest|
    {
      var x :| x in rest;
      rest, list := rest - {x}, list + [x];
    }
  }

  /** The one bundle that substitutes for y, if there is one. */
  method TheSubstituter(rows: Rows, y: string) returns (r: Option<string>)
    requires y != "" && "" !in rows && AtMostOneEach(LinksOf(rows))
    ensures r.Some? ==> r.value in LinksOf(rows) && LinksOf(rows)[r.value] == y
    ensures r.None? ==> forall x | x in LinksOf(rows) :: LinksOf(rows)[x] != y
  {
    var list := Listed(Substituters(rows, y));
    if list == [] {
      assert forall x | x in LinksOf(rows) :: LinksOf(rows)[x] == y ==> x in Substituters(rows, y);
      return None;
    }
    assert list[0] in Substituters(rows, y);
    return Some(list[0]);
  }

  // ---- appendSkips -----------------------------------------------------------------------------

  /** Behind the current names come those of the others that are not among them, in their order. */
  ghost predicate SkipsAppended(current: seq<string>, more: seq<string>, r: seq<string>) {
    r == current + Left(more, NamesIn(current))
  }

  lemma AppendedMembers(current: seq<string>, more: seq<string>, r: seq<string>)
    requires SkipsAppended(current, more, r)
    ensures current <= r && forall y :: y in r <==> y in current || y in more
  {
    forall y
      ensures y in r <==> y in current || y in more
    {
      LeftMembers(more, NamesIn(current), y);
    }
  }

  method AppendSkips(current: seq<string>, more: seq<string>) returns (r: seq<string>)
    ensures SkipsAppended(current, more, r)
  {
    r := current;
    for k := 0 to |more|
      invariant SkipsAppended(current, more[..k], r)
    {
      assert more[..k + 1][..k] == more[..k] && more[..k + 1][k] == more[k];
      if more[k] !in current {
        r := r + [more[k]];
      }
    }
    assert more[..|more|] == more;
  }

  // ---- What lies below -------------------------------------------------------------------------

  ghost function UnderSet(links: Links, x: string): set<string> {
    set y | y in links.Values && Over(links, x, y)
  }

  ghost function OverSet(links: Links, y: string): set<string> {
    set x | x in links && Over(links, x, y)
  }

  lemma UnderIsValue(links: Links, x: string, y: string)
    requires Over(links, x, y)
    ensures y in links.Values
  {
    var w := LastStep(links, x, y);
  }

  lemma UnderShrinks(links: Links, ver: Versions, x: string)
    requires Ascending(links, ver) && x in links
    ensures |UnderSet(links, links[x])| < |UnderSet(links, x)|
  {
    var small, big := UnderSet(links, links[x]), UnderSet(links, x);
    forall y | y in small
      ensures y in big && y != links[x]
    {
      StepThenOver(links, x, y);
      OverIsAcyclic(links, ver, links[x], y);
    }
    OverOne(links, x);
    UnderIsValue(links, x, links[x]);
    SubsetSize(small, big - {links[x]});
  }

  lemma OverShrinks(links: Links, ver: Versions, u: string)
    requires Ascending(links, ver) && u in links
    ensures |OverSet(links, u)| < |OverSet(links, links[u])|
  {
    var small, big := OverSet(links, u), OverSet(links, links[u]);
    forall x | x in small
      ensures x in big && x != u
    {
      OverOne(links, u);
      OverTransitive(links, x, u, links[u]);
      OverIsAcyclic(links, ver, x, u);
    }
    OverOne(links, u);
    SubsetSize(small, big - {u});
  }

  /** Follows the substitutions down and adds every name met. */
  method CollectBelow(rows: Rows, n: string, skips: seq<string>) returns (r: seq<string>)
    requires n in rows && Chained(LinksOf(rows), VersionsOf(rows))
    ensures forall y :: y in r <==> y in skips || Over(LinksOf(rows), n, y)
  {
    ghost var links := LinksOf(rows);
    r := skips;
    var t := SubstituteOf(rows, n);
    if t != "" {
      OverOne(links, n);
    }
    forall y | Over(links, n, y)
      ensures t != "" && (y == t || Over(links, t, y))
    {
      FirstStep(links, n, y);
    }
    while t != ""
      invariant t != "" ==> Over(links, n, t)
      invariant forall y | y in skips :: y in r
      invariant forall y | y in r :: y in skips || Over(links, n, y)
      invariant forall y | Over(links, n, y) :: y in r || (t != "" && (y == t || Over(links, t, y)))
      decreases if t == "" then 0 else |UnderSet(links, t)| + 1
    {
      BelowStep(links, VersionsOf(rows), n, t);
      r := r + [t];
      t := SubstituteOf(rows, t);
    }
  }

  lemma BelowStep(links: Links, ver: Versions, n: string, t: string)
    requires Ascending(links, ver) && Over(links, n, t)
    ensures t in links ==> Over(links, n, links[t]) && |UnderSet(links, links[t])| < |UnderSet(links, t)|
    ensures forall y | Over(links, t, y) :: t in links && (y == links[t] || Over(links, links[t], y))
  {
    if t in links {
      OverOne(links, t);
      OverTransitive(links, n, t, links[t]);
      UnderShrinks(links, ver, t);
    }
    forall y | Over(links, t, y)
      ensures t in links && (y == links[t] || Over(links, links[t], y))
    {
      FirstStep(links, t, y);
    }
  }

  // ---- What lies above -------------------------------------------------------------------------

  /** u is the one bundle that substitutes for y, if any. */
  ghost predicate IsSubstituter(links: Links, y: string, u: Option<string>) {
    match u
    case None => forall x | x in links :: links[x] != y
    case Some(x) => x in links && links[x] == y
  }

  /** From y upwards, everything is u or over u. */
  lemma UpStep(links: Links, ver: Versions, y: string, u: Option<string>)
    requires Chained(links, ver) && IsSubstituter(links, y, u)
    ensures forall x :: Over(links, x, y) <==> u.Some? && (x == u.value || Over(links, x, u.value))
    ensures u.Some? ==> !Over(links, y, u.value) && y != u.value && |OverSet(links, u.value)| < |OverSet(links, y)|
  {
    forall x | Over(links, x, y)
      ensures u.Some? && (x == u.value || Over(links, x, u.value))
    {
      var w := LastStep(links, x, y);
      assert u == Some(w);
    }
    if u.Some? {
      OverOne(links, u.value);
      OverIsAcyclic(links, ver, u.value, y);
      OverShrinks(links, ver, u.value);
      forall x | Over(links, x, u.value)
        ensures Over(links, x, y)
      {
        OverTransitive(links, x, u.value, y);
      }
    }
  }

  /** x is over n and the walk up from n is already past it. */
  ghost predicate Passed(links: Links, n: string, u: Option<string>, x: string) {
    Over(links, x, n) && !(u.Some? && (x == u.value || Over(links, x, u.value)))
  }

  ghost predicate RowTransferred(links: Links, n: string, u: Option<string>, add: seq<string>, x: string,
                                 row: BundleRow, row': BundleRow) {
    && row' == row.(skips := row'.skips)
    && if Passed(links, n, u, x) then SkipsAppended(row.skips, add, row'.skips) else row'.skips == row.skips
  }

  ghost predicate Transferred(rows: Rows, n: string, u: Option<string>, add: seq<string>, rows': Rows) {
    && rows'.Keys == rows.Keys
    && forall x | x in rows :: RowTransferred(LinksOf(rows), n, u, add, x, rows[x], rows'[x])
  }

  lemma SameLinks(rows: Rows, rows': Rows)
    requires rows'.Keys == rows.Keys && forall x | x in rows :: rows'[x] == rows[x].(skips := rows'[x].skips)
    ensures LinksOf(rows') == LinksOf(rows) && VersionsOf(rows') == VersionsOf(rows)
  {
  }

  lemma TransferStep(rows: Rows, n: string, v: string, add: seq<string>, rows': Rows, skips: seq<string>,
                     u: Option<string>)
    requires Chained(LinksOf(rows), VersionsOf(rows)) && Over(LinksOf(rows), v, n)
    requires Transferred(rows, n, Some(v), add, rows') && v in rows
    requires IsSubstituter(LinksOf(rows), v, u) && SkipsAppended(rows'[v].skips, add, skips)
    ensures Transferred(rows, n, u, add, SetSkips(rows', v, skips))
    ensures u.Some? ==> Over(LinksOf(rows), u.value, n)
  {
    var links := LinksOf(rows);
    UpStep(links, VersionsOf(rows), v, u);
    if u.Some? {
      OverOne(links, u.value);
      OverTransitive(links, u.value, v, n);
    }
    forall x | x in rows
      ensures RowTransferred(links, n, u, add, x, rows[x], SetSkips(rows', v, skips)[x])
    {
      assert RowTransferred(links, n, Some(v), add, x, rows[x], rows'[x]);
    }
  }

  /** Appends the skips to everything that substitutes, directly or not, for n. */
  method TransferSkips(rows: Rows, n: string, add: seq<string>) returns (rows': Rows)
    requires n in rows && "" !in rows && Chained(LinksOf(rows), VersionsOf(rows))
    ensures Transferred(rows, n, None, add, rows')
  {
    ghost var links := LinksOf(rows);
    rows' := rows;
    var u := TheSubstituter(rows, n);
    UpStep(links, VersionsOf(rows), n, u);
    while u.Some?
      invariant Transferred(rows, n, u, add, rows')
      invariant u.Some? ==> u.value in rows && Over(links, u.value, n)
      decreases if u.None? then 0 else |OverSet(links, u.value)| + 1
    {
      var skips := AppendSkips(rows'[u.value].skips, add);
      SameLinks(rows, rows');
      var next := TheSubstituter(rows', u.value);
      TransferStep(rows, n, u.value, add, rows', skips, next);
      UpStep(links, VersionsOf(rows), u.value, next);
      rows' := SetSkips(rows', u.value, skips);
      u := next;
    }
  }

  /** The newest substitution of a bundle: nothing substitutes for it. */
  method TopOf(rows: Rows, name: string) returns (top: string)
    requires name != "" && "" !in rows && Chained(LinksOf(rows), VersionsOf(rows))
    ensures top == name || Over(LinksOf(rows), top, name)
    ensures IsSubstituter(LinksOf(rows), top, None)
  {
    ghost var links := LinksOf(rows);
    top := name;
    var u := TheSubstituter(rows, name);
    while u.Some?
      invariant IsSubstituter(links, top, u) && (top == name || Over(links, top, name))
      decreases if u.None? then 0 else |OverSet(links, u.value)| + 1
    {
      OverOne(links, u.value);
      if top != name {
        OverTransitive(links, u.value, top, name);
      }
      top := u.value;
      u := TheSubstituter(rows, top);
      UpStep(links, VersionsOf(rows), top, u);
    }
  }

  // ---- Skipping all substitutions of a skipped bundle ------------------------------------------

  /** y is another bundle over x, and n does not lie between them. */
  ghost predicate Gathers(links: Links, n: string, x: string, y: string) {
    y != n && Over(links, y, x) && !(Over(links, y, n) && Over(links, n, x))
  }

  ghost predicate Gathered(links: Links, n: string, skips: set<string>, y: string) {
    exists x :: x in skips && Gathers(links, n, x, y)
  }

  ghost predicate FromSkips(links: Links, n: string, skips: set<string>, acc: set<string>) {
    forall y | y in acc :: y in skips || Gathered(links, n, skips, y)
  }

  /** The walk upwards stops at n, so it meets no bundle beyond n. */
  lemma GathersNext(links: Links, ver: Versions, n: string, skip: string, at: string, u: string)
    requires Ascending(links, ver) && u in links && links[u] == at && u != n
    requires at == skip || Gathers(links, n, skip, at)
    ensures Gathers(links, n, skip, u)
  {
    OverOne(links, u);
    if at != skip {
      OverTransitive(links, u, at, skip);
    }
    if Over(links, u, n) && Over(links, n, skip) {
      FirstStep(links, u, n);
      if at == n {
        OverIsAcyclic(links, ver, n, skip);
      } else if at == skip {
        OverTransitive(links, skip, n, skip);
        OverIsAcyclic(links, ver, skip, skip);
      }
    }
  }

  /** What is closed upwards holds all that is gathered. */
  lemma {:induction false} ClosedGathers(links: Links, ver: Versions, n: string, acc: set<string>, x: string, y: string)
    requires Ascending(links, ver) && ClosedUp(links, n, acc) && x in acc && Gathers(links, n, x, y)
    ensures y in acc
    decreases |UnderSet(links, y)|
  {
    FirstStep(links, y, x);
    var z := links[y];
    if z != x {
      OverOne(links, y);
      if Over(links, z, n) {
        OverTransitive(links, y, z, n);
      }
      UnderShrinks(links, ver, y);
      ClosedGathers(links, ver, n, acc, x, z);
    }
  }

  /** Nothing but n is missing above a member. */
  ghost predicate ClosedUp(links: Links, n: string, acc: set<string>) {
    forall u | u in links && links[u] in acc && u != n :: u in acc
  }

  /** As before, but what substitutes for the given bundle is still to be added. */
  ghost predicate ClosedBut(links: Links, n: string, acc: set<string>, open: string) {
    forall u | u in links && links[u] in acc && u != n && links[u] != open :: u in acc
  }

  method AddUpwards(rows: Rows, n: string, skip: string, acc: set<string>) returns (acc': set<string>)
    requires skip != "" && "" !in rows && Chained(LinksOf(rows), VersionsOf(rows)) && ClosedUp(LinksOf(rows), n, acc)
    ensures acc + {skip} <= acc' && ClosedUp(LinksOf(rows), n, acc')
    ensures forall y | y in acc' :: y in acc || y == skip || Gathers(LinksOf(rows), n, skip, y)
  {
    ghost var links, at := LinksOf(rows), skip;
    acc' := acc + {skip};
    var u := TheSubstituter(rows, skip);
    while u.Some? && u.value != n
      invariant acc + {skip} <= acc' && IsSubstituter(links, at, u) && (at == skip || Gathers(links, n, skip, at))
      invariant ClosedBut(links, n, acc', at)
      invariant forall y | y in acc' :: y in acc || y == skip || Gathers(links, n, skip, y)
      decreases if u.None? then 0 else |OverSet(links, u.value)| + 1
    {
      GathersNext(links, VersionsOf(rows), n, skip, at, u.value);
      acc' := acc' + {u.value};
      at := u.value;
      u := TheSubstituter(rows, u.value);
      UpStep(links, VersionsOf(rows), at, u);
    }
  }

  method CloseSkips(rows: Rows, n: string, skips: seq<string>) returns (r: seq<string>)
    requires "" !in skips && "" !in rows && Chained(LinksOf(rows), VersionsOf(rows))
    ensures forall y | y in skips :: y in r
    ensures forall i, j | 0 <= i < j < |r| :: r[i] != r[j]
    ensures forall y :: y in r <==> y in skips || Gathered(LinksOf(rows), n, NamesIn(skips), y)
    ensures ClosedUp(LinksOf(rows), n, NamesIn(r))
  {
    ghost var links := LinksOf(rows);
    var acc: set<string> := {};
    for k := 0 to |skips|
      invariant forall y | y in skips[..k] :: y in acc
      invariant FromSkips(links, n, NamesIn(skips[..k]), acc)
      invariant ClosedUp(links, n, acc)
    {
      assert skips[..k + 1] == skips[..k] + [skips[k]];
      ghost var before := acc;
      acc := AddUpwards(rows, n, skips[k], acc);
      FromSkipsStep(links, n, NamesIn(skips[..k]), before, skips[k], acc);
      assert NamesIn(skips[..k + 1]) == NamesIn(skips[..k]) + {skips[k]};
    }
    assert skips[..|skips|] == skips;
    r := Listed(acc);
    assert NamesIn(r) == acc;
    GatheredExactly(links, VersionsOf(rows), n, skips, acc);
  }

  lemma GatheredExactly(links: Links, ver: Versions, n: string, skips: seq<string>, acc: set<string>)
    requires Ascending(links, ver) && ClosedUp(links, n, acc) && FromSkips(links, n, NamesIn(skips), acc)
    requires forall y | y in skips :: y in acc
    ensures forall y :: y in acc <==> y in skips || Gathered(links, n, NamesIn(skips), y)
  {
    forall y | Gathered(links, n, NamesIn(skips), y)
      ensures y in acc
    {
      var x :| x in NamesIn(skips) && Gathers(links, n, x, y);
      ClosedGathers(links, ver, n, acc, x, y);
    }
  }

  lemma FromSkipsStep(links: Links, n: string, skips: set<string>, acc: set<string>, skip: string, acc': set<string>)
    requires FromSkips(links, n, skips, acc)
    requires forall y | y in acc' :: y in acc || y == skip || Gathers(links, n, skip, y)
    ensures FromSkips(links, n, skips + {skip}, acc')
  {
    var more := skips + {skip};
    forall y | y in acc'
      ensures y in more || Gathered(links, n, more, y)
    {
      if y in acc && y !in skips {
        var x :| x in skips && Gathers(links, n, x, y);
        assert x in more;
      } else if y !in more {
        assert skip in more;
      }
    }
  }

  // ---- Taking the place in the chain -----------------------------------------------------------

  /** Both versions parse and BuildIdCompare tells them apart. */
  predicate Comparable(a: VersionText, b: VersionText) {
    a.Text? && b.Text? && BuildIdCompare(a.version, b.version).Some? && BuildIdCompare(a.version, b.version).value != 0
  }

  lemma ComparableIff(a: VersionText, b: VersionText)
    ensures Comparable(a, b) <==> NewerText(a, b) || NewerText(b, a)
  {
    if a.Text? && b.Text? {
      BuildIdOrder(a.version, b.version);
    }
  }

  /** The links among the bundles other than n. */
  ghost function OldLinks(rows: Rows, n: string): Links {
    LinksOf(rows - {n})
  }

  /**
    n can be added: the others are sound, n is newer than the bundle it substitutes for and has no substitution
    itself; without substituting for any bundle it may have an earlier added one, which then is newer.
  */
  ghost predicate Admissible(rows: Rows, n: string) {
    && n in rows && n != "" && "" !in rows[n].skips && SubstitutionsSound(rows - {n})
    && var s := rows[n].substitutesFor;
       if s == "" then
         forall x | x in rows && x != n && rows[x].substitutesFor == n :: NewerText(rows[x].version, rows[n].version)
       else
         && s != n && (forall x | x in rows && x != n :: rows[x].substitutesFor != n)
         && (s in rows ==> NewerText(rows[n].version, rows[s].version))
  }

  ghost predicate OneOther(queue: seq<string>, n: string) {
    forall i, j | 0 <= i < j < |queue| :: queue[i] == n || queue[j] == n
  }

  /** The queue holds the bundle other than n that substitutes for p, if there is one, and otherwise n only. */
  ghost predicate Queued(links: Links, n: string, p: string, queue: seq<string>) {
    && (forall x | x in queue :: x == n || (x in links && links[x] == p))
    && (forall x | x in links && links[x] == p :: x in queue)
    && OneOther(queue, n)
  }

  /** n may substitute for p: it is the declared bundle or one over it, and older than n. */
  ghost predicate MaySubstitute(start: Rows, n: string, p: string)
    requires n in start
  {
    && p != "" && p != n && (p == start[n].substitutesFor || Over(OldLinks(start, n), p, start[n].substitutesFor))
    && (p in start ==> NewerText(start[n].version, start[p].version))
  }

  ghost predicate Looking(start: Rows, n: string, p: string, rows: Rows, queue: seq<string>)
    requires n in start
  {
    rows == SetSubstitute(start, n, p) && MaySubstitute(start, n, p) && Queued(OldLinks(start, n), n, p, queue)
  }

  ghost predicate PlacedRows(start: Rows, n: string, p: string, upper: Option<string>, rows: Rows)
    requires n in start
  {
    match upper
    case None => rows == SetSubstitute(start, n, p)
    case Some(o) =>
      && o in start && o != n && rows.Keys == start.Keys
      && rows == SetSkips(SetSubstitute(SetSubstitute(start, n, p), o, n), o, rows[o].skips)
      && SkipsAppended(start[o].skips, start[n].skips + [n], rows[o].skips)
  }

  /** n has found its place under the newer bundle o. */
  ghost predicate Found(start: Rows, n: string, p: string, o: string, rows: Rows, queue: seq<string>)
    requires n in start
  {
    && PlacedRows(start, n, p, Some(o), rows) && p != ""
    && (p == start[n].substitutesFor || Over(OldLinks(start, n), p, start[n].substitutesFor))
    && Fits(OldLinks(start, n), VersionsOf(start), n, p, Some(o))
    && forall x | x in queue :: x == n
  }

  lemma OldChained(start: Rows, n: string)
    requires Admissible(start, n) && start[n].substitutesFor != ""
    ensures Chained(OldLinks(start, n), VersionsOf(start)) && n !in OldLinks(start, n)
    ensures forall x | x in OldLinks(start, n) :: OldLinks(start, n)[x] != n
  {
    assert forall x | x in OldLinks(start, n) ::
      x in start && x != n && start[x].substitutesFor == OldLinks(start, n)[x];
  }

  lemma LinksAfterSet(start: Rows, n: string, p: string)
    requires n in start && p != ""
    ensures LinksOf(SetSubstitute(start, n, p)) == OldLinks(start, n)[n := p]
  {
  }

  /** The bundles that substitute for q once n does. */
  lemma SubstitutersAfterSet(start: Rows, n: string, q: string)
    requires n in start && n != "" && "" !in start && q != ""
    ensures forall x ::
              x in Substituters(SetSubstitute(start, n, q), q) <==>
              x == n || (x in OldLinks(start, n) && OldLinks(start, n)[x] == q)
  {
  }

  lemma OneOtherListed(links: Links, n: string, q: string, list: seq<string>)
    requires AtMostOneEach(links)
    requires forall x | x in list :: x == n || (x in links && links[x] == q)
    requires forall i, j | 0 <= i < j < |list| :: list[i] != list[j]
    ensures OneOther(list, n)
  {
    forall i, j | 0 <= i < j < |list|
      ensures list[i] == n || list[j] == n
    {
      assert list[i] in list && list[j] in list;
    }
  }

  lemma OneOtherAppended(rest: seq<string>, list: seq<string>, n: string)
    requires (forall x | x in rest :: x == n) && OneOther(list, n)
    ensures OneOther(rest + list, n)
  {
    var all := rest + list;
    forall i, j | 0 <= i < j < |all|
      ensures all[i] == n || all[j] == n
    {
      if i < |rest| {
        assert all[i] in rest;
      }
    }
  }

  lemma RestIsNew(queue: seq<string>, n: string)
    requires queue != [] && queue[0] != n && OneOther(queue, n)
    ensures forall x | x in queue[1..] :: x == n
  {
  }

  lemma QueuedRow(start: Rows, n: string, p: string, queue: seq<string>, q: string)
    requires Queued(OldLinks(start, n), n, p, queue) && q in queue && q != n
    ensures q in OldLinks(start, n) && OldLinks(start, n)[q] == p && q in start
  {
  }

  lemma MayMoveUp(start: Rows, n: string, p: string, q: string)
    requires Admissible(start, n) && start[n].substitutesFor != "" && MaySubstitute(start, n, p)
    requires q in OldLinks(start, n) && OldLinks(start, n)[q] == p && q in start
    requires NewerText(start[n].version, start[q].version)
    ensures MaySubstitute(start, n, q)
    ensures |OverSet(OldLinks(start, n), q)| < |OverSet(OldLinks(start, n), p)|
  {
    var s, links := start[n].substitutesFor, OldLinks(start, n);
    OldChained(start, n);
    OverShrinks(links, VersionsOf(start), q);
    OverOne(links, q);
    if p != s {
      OverTransitive(links, q, p, s);
    }
    assert q in start - {n};
  }

  lemma QueuedUp(start: Rows, n: string, p: string, queue: seq<string>, list: seq<string>)
    requires Admissible(start, n) && start[n].substitutesFor != "" && Queued(OldLinks(start, n), n, p, queue)
    requires queue != [] && queue[0] != n && queue[0] != ""
    requires forall x :: x in list <==> x in Substituters(SetSubstitute(start, n, queue[0]), queue[0])
    requires forall i, j | 0 <= i < j < |list| :: list[i] != list[j]
    ensures Queued(OldLinks(start, n), n, queue[0], queue[1..] + list)
  {
    OldChained(start, n);
    SubstitutersAfterSet(start, n, queue[0]);
    RestIsNew(queue, n);
    OneOtherListed(OldLinks(start, n), n, queue[0], list);
    OneOtherAppended(queue[1..], list, n);
  }

  /** An older bundle: n moves up and now substitutes for it. */
  lemma MoveUp(start: Rows, n: string, p: string, rows: Rows, queue: seq<string>, list: seq<string>)
    requires Admissible(start, n) && start[n].substitutesFor != "" && Looking(start, n, p, rows, queue)
    requires queue != [] && queue[0] != n && queue[0] in start && NewerText(start[n].version, start[queue[0]].version)
    requires forall x :: x in list <==> x in Substituters(SetSubstitute(rows, n, queue[0]), queue[0])
    requires forall i, j | 0 <= i < j < |list| :: list[i] != list[j]
    ensures Looking(start, n, queue[0], SetSubstitute(rows, n, queue[0]), queue[1..] + list)
    ensures |OverSet(OldLinks(start, n), queue[0])| < |OverSet(OldLinks(start, n), p)|
  {
    assert SetSubstitute(rows, n, queue[0]) == SetSubstitute(start, n, queue[0]);
    QueuedRow(start, n, p, queue, queue[0]);
    MayMoveUp(start, n, p, queue[0]);
    QueuedUp(start, n, p, queue, list);
  }

  /** A newer bundle: it now substitutes for n, and n stays. */
  lemma StayBelow(start: Rows, n: string, p: string, rows: Rows, queue: seq<string>, skips: seq<string>)
    requires Admissible(start, n) && start[n].substitutesFor != "" && Looking(start, n, p, rows, queue)
    requires queue != [] && queue[0] != n && queue[0] in start && NewerText(start[queue[0]].version, start[n].version)
    requires queue[0] in rows && SkipsAppended(start[queue[0]].skips, start[n].skips + [n], skips)
    ensures Found(start, n, p, queue[0], SetSkips(SetSubstitute(rows, queue[0], n), queue[0], skips), queue[1..])
  {
    OldChained(start, n);
    RestIsNew(queue, n);
    var o := queue[0];
    var rows' := SetSkips(SetSubstitute(rows, o, n), o, skips);
    assert rows'.Keys == start.Keys && rows'[o].skips == skips;
  }

  lemma QueuedDrop(links: Links, n: string, p: string, queue: seq<string>)
    requires n !in links && queue != [] && queue[0] == n && Queued(links, n, p, queue)
    ensures Queued(links, n, p, queue[1..])
  {
  }

  /** No bundle over the substituted one clashes with the version of n. */
  ghost predicate NoRival(start: Rows, n: string)
    requires n in start
  {
    forall x | x in start && x != n && Over(OldLinks(start, n), x, start[n].substitutesFor) ::
      Comparable(start[x].version, start[n].version)
  }

  lemma IsRival(start: Rows, n: string, p: string, q: string)
    requires Admissible(start, n) && MaySubstitute(start, n, p)
    requires q in OldLinks(start, n) && OldLinks(start, n)[q] == p && q in start
    requires !Comparable(start[q].version, start[n].version)
    ensures !NoRival(start, n)
  {
    var links := OldLinks(start, n);
    OverOne(links, q);
    if p != start[n].substitutesFor {
      OverTransitive(links, q, p, start[n].substitutesFor);
    }
  }

  /** Where n is placed: right above the bundle p and below the bundle that substituted for p, if any. */
  ghost predicate Placed(start: Rows, n: string, p: string, upper: Option<string>, rows: Rows)
    requires n in start
  {
    && PlacedRows(start, n, p, upper, rows) && p != ""
    && (p == start[n].substitutesFor || Over(OldLinks(start, n), p, start[n].substitutesFor))
    && Fits(OldLinks(start, n), VersionsOf(start), n, p, upper)
  }

  lemma PlacedOnTop(start: Rows, n: string, p: string, rows: Rows)
    requires Admissible(start, n) && start[n].substitutesFor != "" && Looking(start, n, p, rows, [])
    ensures Placed(start, n, p, None, rows)
  {
    OldChained(start, n);
  }

  lemma PlacedNoRival(start: Rows, n: string, p: string, upper: Option<string>, rows: Rows)
    requires n in start && Placed(start, n, p, upper, rows)
    ensures NoRival(start, n)
  {
    forall x | x in start && x != n && Over(OldLinks(start, n), x, start[n].substitutesFor)
      ensures Comparable(start[x].version, start[n].version)
    {
      SplicePosition(OldLinks(start, n), VersionsOf(start), n, p, upper, start[n].substitutesFor, x);
      ComparableIff(start[x].version, start[n].version);
    }
  }

  /** The loop over the other substitutions of the substituted bundle; fails exactly on a rival version. */
  method Place(start: Rows, n: string) returns (rows: Rows, ok: bool, ghost p: string, ghost upper: Option<string>)
    requires Admissible(start, n) && start[n].substitutesFor != ""
    ensures ok <==> NoRival(start, n)
    ensures ok ==> Placed(start, n, p, upper, rows)
  {
    p, upper := start[n].substitutesFor, None;
    rows := start;
    var queue := Listed(Substituters(start, start[n].substitutesFor));
    StartLooking(start, n, queue);
    while queue != []
      invariant upper.None? ==> Looking(start, n, p, rows, queue)
      invariant upper.Some? ==> Found(start, n, p, upper.value, rows, queue)
      decreases if upper.None? then |OverSet(OldLinks(start, n), p)| + 1 else 0, |queue|
    {
      var q := queue[0];
      if q != n {
        assert q in queue && upper.None?;
        QueuedRow(start, n, p, queue, q);
        ComparableIff(start[q].version, start[n].version);
        if !Comparable(rows[q].version, rows[n].version) {
          IsRival(start, n, p, q);
          return rows, false, p, upper;
        }
        if BuildIdCompare(rows[q].version.version, rows[n].version.version).value < 0 {
          BuildIdOrder(start[q].version.version, start[n].version.version);
          var list := Listed(Substituters(SetSubstitute(rows, n, q), q));
          MoveUp(start, n, p, rows, queue, list);
          rows, queue, p := SetSubstitute(rows, n, q), queue[1..] + list, q;
        } else {
          BuildIdOrder(start[q].version.version, start[n].version.version);
          var skips := AppendSkips(rows[q].skips, rows[n].skips + [n]);
          StayBelow(start, n, p, rows, queue, skips);
          rows, queue, upper := SetSkips(SetSubstitute(rows, q, n), q, skips), queue[1..], Some(q);
        }
      } else {
        if upper.None? {
          OldChained(start, n);
          QueuedDrop(OldLinks(start, n), n, p, queue);
        }
        assert forall x | x in queue[1..] :: x in queue;
        queue := queue[1..];
      }
    }
    ok := true;
    if upper.None? {
      PlacedOnTop(start, n, p, rows);
    }
    PlacedNoRival(start, n, p, upper, rows);
  }

  lemma StartLooking(start: Rows, n: string, queue: seq<string>)
    requires Admissible(start, n) && start[n].substitutesFor != ""
    requires forall x :: x in queue <==> x in Substituters(start, start[n].substitutesFor)
    requires forall i, j | 0 <= i < j < |queue| :: queue[i] != queue[j]
    ensures Looking(start, n, start[n].substitutesFor, start, queue)
  {
    var s := start[n].substitutesFor;
    OldChained(start, n);
    assert SetSubstitute(start, n, s) == start;
    SubstitutersAfterSet(start, n, s);
    OneOtherListed(OldLinks(start, n), n, s, queue);
  }

  // ---- The whole operation ---------------------------------------------------------------------

  /** Bundles that replaced the substituted bundle now replace n. */
  function RenameReplaces(rows: Rows, s: string, n: string): Rows {
    map x | x in rows :: if rows[x].replacesName == s then rows[x].(replacesName := n) else rows[x]
  }

  /** The links afterwards: n is spliced in over the bundle it declares, at the place its version gives it. */
  ghost predicate LinksAdded(rows: Rows, n: string, links: Links)
    requires n in rows
  {
    if rows[n].substitutesFor == "" then links == OldLinks(rows, n)
    else exists p, upper :: SplicedAt(rows, n, p, upper, links)
  }

  ghost predicate SplicedAt(rows: Rows, n: string, p: string, upper: Option<string>, links: Links)
    requires n in rows
  {
    && Fits(OldLinks(rows, n), VersionsOf(rows), n, p, upper)
    && (p == rows[n].substitutesFor || Over(OldLinks(rows, n), p, rows[n].substitutesFor))
    && links == Splice(OldLinks(rows, n), n, p, upper)
  }

  ghost predicate IsTopOf(links: Links, name: string, top: string) {
    if name == "" then top == "" else (top == name || Over(links, top, name)) && IsSubstituter(links, top, None)
  }

  /** What the added bundle skips at least: its declared skips and all that lie below it. */
  ghost predicate SkipBase(rows: Rows, n: string, links: Links, y: string)
    requires n in rows
  {
    y in rows[n].skips || Over(links, n, y)
  }

  /** The base, and what substitutes for a member of it up to the added bundle. */
  ghost predicate Skipped(rows: Rows, n: string, links: Links, y: string)
    requires n in rows
  {
    SkipBase(rows, n, links, y) || exists x :: SkipBase(rows, n, links, x) && Gathers(links, n, x, y)
  }

  /** What becomes of the row of another bundle. */
  ghost predicate OtherAfter(rows: Rows, n: string, links: Links, x: string, row: BundleRow)
    requires n in rows && x in rows
  {
    var s := rows[n].substitutesFor;
    && row.path == rows[x].path && row.version == rows[x].version
    && row.replacesName == (if s != "" && rows[x].replacesName == s then n else rows[x].replacesName)
    && rows[x].skips <= row.skips
    && (if Over(links, x, n)
        then forall y :: y in row.skips <==> y in rows[x].skips || y == n || SkipBase(rows, n, links, y)
        else row.skips == rows[x].skips)
  }

  ghost predicate NewAfter(rows: Rows, n: string, links: Links, row: BundleRow)
    requires n in rows
  {
    && row.path == rows[n].path && row.version == rows[n].version
    && IsTopOf(links, rows[n].replacesName, row.replacesName)
    && NoRepeats(row.skips) && (forall y :: y in row.skips <==> Skipped(rows, n, links, y))
    && ClosedUp(links, n, NamesIn(row.skips))
  }

  ghost predicate SubstitutionAdded(rows: Rows, n: string, rows': Rows)
    requires n in rows
  {
    && rows'.Keys == rows.Keys && LinksAdded(rows, n, LinksOf(rows'))
    && (forall x | x in rows && x != n :: OtherAfter(rows, n, LinksOf(rows'), x, rows'[x]))
    && NewAfter(rows, n, LinksOf(rows'), rows'[n])
  }

  /** What lies below a bundle is old, or n, or below n. */
  ghost predicate UnderSplit(before: Links, links: Links, n: string) {
    forall x, y | x != n && Over(links, x, y) ::
      Over(before, x, y) || (Over(links, x, n) && (y == n || Over(links, n, y)))
  }

  lemma SplicedUnder(rows: Rows, n: string, links: Links)
    requires n in rows && LinksAdded(rows, n, links)
    ensures UnderSplit(OldLinks(rows, n), links, n)
  {
    if rows[n].substitutesFor != "" {
      var p, upper :| SplicedAt(rows, n, p, upper, links);
      forall x, y | x != n && Over(links, x, y)
        ensures Over(OldLinks(rows, n), x, y) || (Over(links, x, n) && (y == n || Over(links, n, y)))
      {
        SpliceUnder(OldLinks(rows, n), n, p, upper, x, y);
      }
    }
  }

  /** The skips still cover everything below, for every bundle. */
  lemma CoverKept(rows: Rows, n: string, rows': Rows, x: string)
    requires Admissible(rows, n) && SubstitutionAdded(rows, n, rows') && x in rows'
    ensures Covered(rows', x)
  {
    var links := LinksOf(rows');
    SplicedUnder(rows, n, links);
    forall y | Over(links, x, y)
      ensures y in rows'[x].skips
    {
      if x == n {
        assert NewAfter(rows, n, links, rows'[n]);
      } else {
        assert OtherAfter(rows, n, links, x, rows'[x]);
        if Over(OldLinks(rows, n), x, y) {
          assert Covered(rows - {n}, x);
          assert y in rows[x].skips;
        }
      }
    }
  }

  lemma ChainsKept(rows: Rows, n: string, links: Links)
    requires Admissible(rows, n) && LinksAdded(rows, n, links)
    ensures Chained(links, VersionsOf(rows))
  {
    if rows[n].substitutesFor != "" {
      var p, upper :| SplicedAt(rows, n, p, upper, links);
      SpliceChained(OldLinks(rows, n), VersionsOf(rows), n, p, upper);
    } else {
      assert forall x | x in links :: x in rows && x != n && rows[x].substitutesFor == links[x];
    }
  }

  lemma VersionsKept(rows: Rows, n: string, rows': Rows)
    requires n in rows && SubstitutionAdded(rows, n, rows')
    ensures VersionsOf(rows') == VersionsOf(rows)
  {
    forall x | x in rows
      ensures rows'[x].version == rows[x].version
    {
      assert x != n ==> OtherAfter(rows, n, LinksOf(rows'), x, rows'[x]);
    }
  }

  /** Adding a bundle keeps the chains and their skips in order. */
  lemma AdditionKeepsSound(rows: Rows, n: string, rows': Rows)
    requires Admissible(rows, n) && SubstitutionAdded(rows, n, rows')
    ensures SubstitutionsSound(rows')
  {
    ChainsKept(rows, n, LinksOf(rows'));
    VersionsKept(rows, n, rows');
    assert "" !in rows - {n};
    forall x | x in rows'
      ensures Covered(rows', x)
    {
      CoverKept(rows, n, rows', x);
    }
  }

  /** The walk up from a skipped bundle ends at the new one: without declared skips it skips nothing over itself. */
  lemma NothingAboveSkipped(rows: Rows, n: string, rows': Rows, y: string)
    requires Admissible(rows, n) && SubstitutionAdded(rows, n, rows') && rows[n].skips == []
    requires Over(LinksOf(rows'), y, n)
    ensures y !in rows'[n].skips
  {
    var links := LinksOf(rows');
    ChainsKept(rows, n, links);
    OverIsAcyclic(links, VersionsOf(rows), y, n);
    assert !Skipped(rows, n, links, y);
  }

  /** The new bundle sits at its BuildIdCompare position among all that substitute for the same bundle. */
  lemma SitsByVersion(rows: Rows, n: string, rows': Rows, x: string)
    requires Admissible(rows, n) && rows[n].substitutesFor != "" && SubstitutionAdded(rows, n, rows')
    ensures Over(LinksOf(rows'), n, rows[n].substitutesFor)
    ensures x in rows && Over(OldLinks(rows, n), x, rows[n].substitutesFor) ==>
              if NewerText(rows[x].version, rows[n].version) then Over(LinksOf(rows'), x, n)
              else NewerText(rows[n].version, rows[x].version) && Over(LinksOf(rows'), n, x)
  {
    var s, before, ver := rows[n].substitutesFor, OldLinks(rows, n), VersionsOf(rows);
    var p, upper :| SplicedAt(rows, n, p, upper, LinksOf(rows'));
    UnderSplice(before, ver, n, p, upper, s);
    if x in rows && Over(before, x, s) {
      SplicePosition(before, ver, n, p, upper, s, x);
    }
  }

  /** The links once n has its place. */
  lemma PlacedLinks(start: Rows, n: string, p: string, upper: Option<string>, rows: Rows)
    requires n in start && n != "" && Placed(start, n, p, upper, rows)
    ensures rows.Keys == start.Keys && LinksOf(rows) == Splice(OldLinks(start, n), n, p, upper)
  {
    LinksAfterSet(start, n, p);
    if upper.Some? {
      LinksAfterSecond(SetSubstitute(start, n, p), upper.value, n, rows);
    }
  }

  lemma LinksAfterSecond(low: Rows, o: string, n: string, rows: Rows)
    requires o in low && n != "" && rows.Keys == low.Keys
    requires rows == SetSkips(SetSubstitute(low, o, n), o, rows[o].skips)
    ensures LinksOf(rows) == LinksOf(low)[o := n]
  {
  }

  /** So far only substitutions changed, and skips of bundles over n grew. */
  ghost predicate OnlyPlaced(start: Rows, n: string, rows: Rows) {
    && rows.Keys == start.Keys && n in start && rows[n] == start[n].(substitutesFor := rows[n].substitutesFor)
    && forall x | x in start && x != n ::
         OtherPlaced(start[x], rows[x], Over(LinksOf(rows), x, n), NamesIn(start[n].skips) + {n})
  }

  ghost predicate OtherPlaced(row: BundleRow, row': BundleRow, over: bool, more: set<string>) {
    && row' == row.(substitutesFor := row'.substitutesFor, skips := row'.skips)
    && row.skips <= row'.skips && (!over ==> row'.skips == row.skips)
    && forall y | y in row'.skips :: y in row.skips || y in more
  }

  lemma PlacedOnly(start: Rows, n: string, p: string, upper: Option<string>, rows: Rows)
    requires n in start && n != "" && Placed(start, n, p, upper, rows)
    ensures OnlyPlaced(start, n, rows)
  {
    PlacedLinks(start, n, p, upper, rows);
    forall x | x in start && x != n
      ensures OtherPlaced(start[x], rows[x], Over(LinksOf(rows), x, n), NamesIn(start[n].skips) + {n})
    {
      if upper == Some(x) {
        PlacedUpper(start, n, p, x, rows);
      }
    }
  }

  /** The bundle above the new one gains the new name and the skips of the new bundle. */
  lemma PlacedUpper(start: Rows, n: string, p: string, o: string, rows: Rows)
    requires n in start && n != "" && o in start && o != n && PlacedRows(start, n, p, Some(o), rows)
    ensures OtherPlaced(start[o], rows[o], Over(LinksOf(rows), o, n), NamesIn(start[n].skips) + {n})
  {
    assert o in LinksOf(rows) && LinksOf(rows)[o] == n;
    OverOne(LinksOf(rows), o);
    AppendedMembers(start[o].skips, start[n].skips + [n], rows[o].skips);
  }

  lemma SameColumns(rows: Rows, start: Rows, n: string)
    requires start.Keys == rows.Keys
    requires forall x | x in rows :: start[x] == rows[x].(replacesName := start[x].replacesName)
    ensures OldLinks(start, n) == OldLinks(rows, n) && VersionsOf(start) == VersionsOf(rows)
    ensures VersionsOf(start - {n}) == VersionsOf(rows - {n})
  {
  }

  lemma RenamedAdmissible(rows: Rows, n: string, start: Rows)
    requires Admissible(rows, n) && start.Keys == rows.Keys
    requires forall x | x in rows :: start[x] == rows[x].(replacesName := start[x].replacesName)
    ensures Admissible(start, n)
  {
    SameColumns(rows, start, n);
    forall x | x in start - {n}
      ensures Covered(start - {n}, x)
    {
      assert Covered(rows - {n}, x);
    }
  }

  lemma RenamedRival(rows: Rows, n: string, start: Rows)
    requires n in rows && start.Keys == rows.Keys
    requires forall x | x in rows :: start[x] == rows[x].(replacesName := start[x].replacesName)
    ensures NoRival(start, n) <==> NoRival(rows, n)
  {
    SameColumns(rows, start, n);
  }

  // ---- After n has its place -------------------------------------------------------------------

  ghost predicate Renamed(rows: Rows, n: string, start: Rows) {
    && n in rows && start.Keys == rows.Keys && start[n] == rows[n].(replacesName := start[n].replacesName)
    && forall x | x in rows && x != n ::
         start[x] == rows[x].(
           replacesName := if rows[n].substitutesFor != "" && rows[x].replacesName == rows[n].substitutesFor
                           then n else rows[x].replacesName)
  }

  ghost predicate Ready(rows: Rows, n: string, start: Rows, placed: Rows) {
    && Renamed(rows, n, start) && OnlyPlaced(start, n, placed)
    && "" !in rows && "" !in rows[n].skips
    && LinksAdded(rows, n, LinksOf(placed)) && Chained(LinksOf(placed), VersionsOf(placed))
  }

  /** The row of another bundle at the end. */
  lemma OtherFinal(rows: Rows, n: string, start: Rows, placed: Rows, skips: seq<string>, rows1: Rows, x: string)
    requires Renamed(rows, n, start) && x in rows && x != n
    requires OnlyPlaced(start, n, placed) && Transferred(placed, n, None, skips + [n], rows1)
    requires forall y :: y in skips <==> y in rows[n].skips || Over(LinksOf(placed), n, y)
    ensures OtherAfter(rows, n, LinksOf(placed), x, rows1[x])
  {
    assert OtherPlaced(start[x], placed[x], Over(LinksOf(placed), x, n), NamesIn(start[n].skips) + {n});
    assert RowTransferred(LinksOf(placed), n, None, skips + [n], x, placed[x], rows1[x]);
    if Over(LinksOf(placed), x, n) {
      AppendedMembers(placed[x].skips, skips + [n], rows1[x].skips);
    }
  }

  lemma LinksAreNames(rows: Rows, x: string, y: string)
    requires Over(LinksOf(rows), x, y)
    ensures y != ""
  {
    var w := LastStep(LinksOf(rows), x, y);
  }

  lemma NewFinal(rows: Rows, n: string, links: Links, skips: seq<string>, closed: seq<string>, row: BundleRow)
    requires n in rows && row.path == rows[n].path && row.version == rows[n].version && row.skips == closed
    requires IsTopOf(links, rows[n].replacesName, row.replacesName) && ClosedUp(links, n, NamesIn(closed))
    requires forall y :: y in skips <==> y in rows[n].skips || Over(links, n, y)
    requires NoRepeats(closed) && forall y :: y in closed <==> y in skips || Gathered(links, n, NamesIn(skips), y)
    ensures NewAfter(rows, n, links, row)
  {
    forall y
      ensures Gathered(links, n, NamesIn(skips), y) <==>
              exists x :: SkipBase(rows, n, links, x) && Gathers(links, n, x, y)
    {
      if Gathered(links, n, NamesIn(skips), y) {
        var x :| x in NamesIn(skips) && Gathers(links, n, x, y);
        assert SkipBase(rows, n, links, x);
      }
      if x :| SkipBase(rows, n, links, x) && Gathers(links, n, x, y) {
        assert x in NamesIn(skips);
      }
    }
  }

  method Settle(rows: Rows, n: string, ghost start: Rows, placed: Rows) returns (rows': Rows)
    requires Ready(rows, n, start, placed)
    ensures SubstitutionAdded(rows, n, rows')
  {
    ghost var links := LinksOf(placed);
    var skips := CollectBelow(placed, n, rows[n].skips);
    var rows1 := TransferSkips(placed, n, skips + [n]);
    SameLinks(placed, rows1);
    forall y | Over(links, n, y)
      ensures y != ""
    {
      LinksAreNames(placed, n, y);
    }
    var closed := CloseSkips(rows1, n, skips);
    var top := "";
    if rows[n].replacesName != "" {
      top := TopOf(rows1, rows[n].replacesName);
    }
    forall x | x in rows && x != n
      ensures OtherAfter(rows, n, links, x, rows1[x])
    {
      OtherFinal(rows, n, start, placed, skips, rows1, x);
    }
    assert RowTransferred(links, n, None, skips + [n], n, placed[n], rows1[n]);
    rows' := rows1[n := rows1[n].(replacesName := top, skips := closed)];
    SameButNew(rows1, n, rows');
    NewFinal(rows, n, links, skips, closed, rows'[n]);
  }

  lemma SameButNew(rows: Rows, n: string, rows': Rows)
    requires n in rows && n in rows' && rows' == rows[n := rows'[n]]
    requires rows'[n].substitutesFor == rows[n].substitutesFor
    ensures LinksOf(rows') == LinksOf(rows)
  {
  }

  lemma ReadyAlone(rows: Rows, n: string)
    requires Admissible(rows, n) && rows[n].substitutesFor == ""
    ensures Ready(rows, n, rows, rows)
  {
    assert LinksOf(rows) == OldLinks(rows, n);
    assert "" !in rows - {n};
    ChainsKept(rows, n, LinksOf(rows));
  }

  lemma ReadyPlaced(rows: Rows, n: string, start: Rows, p: string, upper: Option<string>, placed: Rows)
    requires Admissible(rows, n) && rows[n].substitutesFor != "" && Renamed(rows, n, start)
    requires Placed(start, n, p, upper, placed)
    ensures Ready(rows, n, start, placed)
  {
    PlacedOnly(start, n, p, upper, placed);
    PlacedSplice(rows, n, start, p, upper, placed);
    assert "" !in rows - {n};
    ChainsKept(rows, n, LinksOf(placed));
    PlacedVersions(start, n, placed);
  }

  lemma PlacedSplice(rows: Rows, n: string, start: Rows, p: string, upper: Option<string>, placed: Rows)
    requires n in rows && n != "" && rows[n].substitutesFor != "" && Renamed(rows, n, start)
    requires Placed(start, n, p, upper, placed)
    ensures VersionsOf(start) == VersionsOf(rows) && LinksAdded(rows, n, LinksOf(placed))
  {
    SameColumns(rows, start, n);
    PlacedLinks(start, n, p, upper, placed);
    assert SplicedAt(rows, n, p, upper, LinksOf(placed));
  }

  lemma PlacedVersions(start: Rows, n: string, placed: Rows)
    requires OnlyPlaced(start, n, placed)
    ensures VersionsOf(placed) == VersionsOf(start)
  {
    forall x | x in start
      ensures placed[x].version == start[x].version
    {
      assert x != n ==>
          OtherPlaced(start[x], placed[x], Over(LinksOf(placed), x, n), NamesIn(start[n].skips) + {n});
    }
  }

  /** Fails, without a change, exactly on a rival version; otherwise all substitution chains stay in order. */
  method AddSubstitutesFor(rows: Rows, n: string) returns (rows': Rows, ok: bool)
    requires Admissible(rows, n)
    ensures ok <==> rows[n].substitutesFor == "" || NoRival(rows, n)
    ensures ok ==> SubstitutionAdded(rows, n, rows') && SubstitutionsSound(rows')
  {
    if rows[n].substitutesFor == "" {
      ReadyAlone(rows, n);
      rows' := Settle(rows, n, rows, rows);
    } else {
      var start := RenameReplaces(rows, rows[n].substitutesFor, n);
      RenamedAdmissible(rows, n, start);
      RenamedRival(rows, n, start);
      var placed;
      ghost var p, upper;
      placed, ok, p, upper := Place(start, n);
      if !ok {
        return rows, false;
      }
      ReadyPlaced(rows, n, start, p, upper, placed);
      rows' := Settle(rows, n, start, placed);
    }
    AdditionKeepsSound(rows, n, rows');
    ok := true;
  }

  // ---- Deleting bundles ------------------------------------------------------------------------

  lemma FewerOver(links: Links, fewer: Links, x: string, y: string)
    requires fewer.Keys <= links.Keys && (forall z | z in fewer :: fewer[z] == links[z]) && Over(fewer, x, y)
    ensures Over(links, x, y)
  {
    var p :| Reachability.IsPath(Down(fewer), p) && |p| >= 2 && p[0] == x && p[|p| - 1] == y;
    forall i | 0 <= i < |p| - 1
      ensures p[i + 1] in Down(links)(p[i])
    {
      assert p[i + 1] in Down(fewer)(p[i]);
    }
    assert Reachability.IsPath(Down(links), p);
  }

  /** Deleting bundle rows leaves the remaining chains in order. */
  lemma DeletionKeepsSound(rows: Rows, fewer: Rows)
    requires SubstitutionsSound(rows) && fewer.Keys <= rows.Keys && forall x | x in fewer :: fewer[x] == rows[x]
    ensures SubstitutionsSound(fewer)
  {
    assert forall x | x in LinksOf(fewer) :: x in LinksOf(rows) && LinksOf(fewer)[x] == LinksOf(rows)[x];
    assert forall x | x in VersionsOf(fewer) :: x in VersionsOf(rows) && VersionsOf(fewer)[x] == VersionsOf(rows)[x];
    forall x | x in fewer
      ensures Covered(fewer, x)
    {
      assert Covered(rows, x);
      forall y | Over(LinksOf(fewer), x, y)
        ensures y in fewer[x].skips
      {
        FewerOver(LinksOf(rows), LinksOf(fewer), x, y);
      }
    }
  }
}
