/** The in-memory model of a channel and its head: internal/model/model.go. */
module Model {
  import opened Common
  import opened Reachability

  /** A bundle as far as the upgrade graph is concerned; everything else it carries is the payload. */
  datatype Bundle<+P> = Bundle(name: string, replacesName: string, skips: seq<string>, payload: P)

  datatype Channel<+P> = Channel(name: string, bundles: map<string, Bundle<P>>)

  datatype HeadError = NoHead | MultipleHeads

  // ---- The head --------------------------------------------------------------------------------

  function Edges<P>(b: Bundle<P>): set<string> {
    (if b.replacesName == "" then {} else {b.replacesName}) + set s | s in b.skips
  }

  /** Names with an edge from one of the given bundles. */
  ghost function EdgesFrom<P>(c: Channel<P>, from: set<string>): set<string> {
    set k, s | k in from && k in c.bundles && s in Edges(c.bundles[k]) :: s
  }

  lemma EdgesFromOneMore<P>(c: Channel<P>, from: set<string>, k: string)
    requires k in c.bundles
    ensures EdgesFrom(c, from + {k}) == EdgesFrom(c, from) + Edges(c.bundles[k])
  {
  }

  /** Names with an incoming edge. */
  ghost function Incoming<P>(c: Channel<P>): set<string> {
    EdgesFrom(c, c.bundles.Keys)
  }

  /** The bundles without an incoming edge. */
  ghost function Sources<P>(c: Channel<P>): set<string> {
    set k | k in c.bundles && c.bundles[k].name !in Incoming(c)
  }

  function Bump(incoming: map<string, nat>, name: string): map<string, nat> {
    incoming[name := (if name in incoming then incoming[name] else 0) + 1]
  }

  ghost function Count(incoming: map<string, nat>, name: string): nat {
    if name in incoming then incoming[name] else 0
  }

  method CountEdges<P>(incoming: map<string, nat>, b: Bundle<P>) returns (more: map<string, nat>)
    ensures more.Keys == incoming.Keys + Edges(b)
    ensures forall x :: Count(more, x) == Count(incoming, x) + multiset(b.skips)[x] +
                                          if x != "" && x == b.replacesName then 1 else 0
  {
    more := if b.replacesName == "" then incoming else Bump(incoming, b.replacesName);
    ghost var start := more;
    for n := 0 to |b.skips|
      invariant more.Keys == start.Keys + set s | s in b.skips[..n]
      invariant forall x :: Count(more, x) == Count(start, x) + multiset(b.skips[..n])[x]
    {
      assert b.skips[..n + 1] == b.skips[..n] + [b.skips[n]];
      more := Bump(more, b.skips[n]);
    }
    assert b.skips[..|b.skips|] == b.skips;
  }

  method CountIncoming<P>(c: Channel<P>) returns (incoming: map<string, nat>)
    ensures incoming.Keys == Incoming(c)
  {
    incoming := map[];
    var rest := c.bundles.Keys;
    while rest != {}
      invariant rest <= c.bundles.Keys
      invariant incoming.Keys == EdgesFrom(c, c.bundles.Keys - rest)
      decreases |rest|
    {
      var k :| k in rest;
      EdgesFromOneMore(c, c.bundles.Keys - rest, k);
      assert c.bundles.Keys - (rest - {k}) == c.bundles.Keys - rest + {k};
      rest := rest - {k};
      incoming := CountEdges(incoming, c.bundles[k]);
    }
    assert c.bundles.Keys - {} == c.bundles.Keys;
  }

  /** The single bundle without an incoming replaces or skips edge; an error when there is none or several. */
  method Head<P>(c: Channel<P>) returns (r: Result<Bundle<P>, HeadError>)
    ensures r.Ok? <==> exists k :: Sources(c) == {k}
    ensures r.Ok? ==> exists k :: k in c.bundles && Sources(c) == {k} && r.value == c.bundles[k]
    ensures r == Err(NoHead) <==> Sources(c) == {}
  {
    var incoming := CountIncoming(c);
    var heads: seq<string> := [];
    var rest := c.bundles.Keys;
    while rest != {}
      invariant rest <= c.bundles.Keys
      invariant forall k :: k in heads <==> k in Sources(c) && k !in rest
      invariant forall i, j | 0 <= i < j < |heads| :: heads[i] != heads[j]
      decreases |rest|
    {
      var k :| k in rest;
      rest := rest - {k};
      if c.bundles[k].name !in incoming {
        heads := heads + [k];
      }
    }
    assert forall k :: k in Sources(c) <==> k in heads;
    if |heads| == 0 {
      assert Sources(c) == {};
      return Err(NoHead);
    }
    assert heads[0] in heads;
    if |heads| > 1 {
      assert heads[1] in heads && heads[0] != heads[1];
      return Err(MultipleHeads);
    }
    assert Sources(c) == {heads[0]};
    return Ok(c.bundles[heads[0]]);
  }

  // ---- The head spans the channel --------------------------------------------------------------

  ghost predicate Validated<P>(c: Channel<P>, payloadOk: P -> bool) {
    && c.name != ""
    && c.bundles != map[]
    && (exists k :: Sources(c) == {k})
    && (forall k | k in c.bundles :: c.bundles[k].name == k && BundleOk(c.bundles[k], payloadOk))
  }

  predicate BundleOk<P>(b: Bundle<P>, payloadOk: P -> bool) {
    b.name != "" && "" !in b.skips && payloadOk(b.payload)
  }

  /** A valid channel: a name, a single head, bundles filed under nonempty names, nonempty skips, valid payloads. */
  lemma ValidatedIff<P>(c: Channel<P>, payloadOk: P -> bool)
    ensures Validated(c, payloadOk) <==>
              && c.name != "" && (exists k :: Sources(c) == {k}) && "" !in c.bundles
              && (forall k | k in c.bundles :: c.bundles[k].name == k && payloadOk(c.bundles[k].payload))
              && (forall k, s | k in c.bundles && s in c.bundles[k].skips :: s != "")
  {
    if x :| Sources(c) == {x} {
      assert x in Sources(c);
    }
  }

  /** True exactly when validation collects no error. */
  method Validate<P>(c: Channel<P>, payloadOk: P -> bool) returns (ok: bool)
    ensures ok <==> Validated(c, payloadOk)
  {
    ok := c.name != "" && |c.bundles| > 0;
    if |c.bundles| > 0 {
      var head := Head(c);
      ok := ok && head.Ok?;
    }
    var rest := c.bundles.Keys;
    while rest != {}
      invariant rest <= c.bundles.Keys
      invariant ok <==> c.name != "" && c.bundles != map[] && (exists k :: Sources(c) == {k}) &&
                        forall k | k in c.bundles && k !in rest ::
                          c.bundles[k].name == k && BundleOk(c.bundles[k], payloadOk)
      decreases |rest|
    {
      var k :| k in rest;
      rest := rest - {k};
      ok := ok && c.bundles[k].name == k && BundleOk(c.bundles[k], payloadOk);
    }
  }

  /** Bundles are filed under their names. */
  ghost predicate Keyed<P>(c: Channel<P>) {
    forall k | k in c.bundles :: c.bundles[k].name == k
  }

  /** The edges between bundles of the channel. */
  ghost function Within<P>(c: Channel<P>): string -> set<string> {
    k => if k in c.bundles then Edges(c.bundles[k]) * c.bundles.Keys else {}
  }

  ghost predicate Acyclic<P>(c: Channel<P>) {
    forall k | k in c.bundles :: !Reaches(Within(c), k, k)
  }

  lemma PathReaches(succ: string -> set<string>, p: seq<string>, i: nat, j: nat)
    requires IsPath(succ, p) && i < j < |p|
    ensures Reaches(succ, p[i], p[j])
  {
    var q := p[i..j + 1];
    forall n | 0 <= n < |q| - 1
      ensures q[n + 1] in succ(q[n])
    {
      assert p[i + n + 1] in succ(p[i + n]);
    }
    assert IsPath(succ, q);
  }

  /** A path in an acyclic channel repeats no bundle. */
  lemma PathDistinct<P>(c: Channel<P>, p: seq<string>)
    requires Acyclic(c) && IsPath(Within(c), p) && forall i | 0 <= i < |p| :: p[i] in c.bundles
    ensures forall i, j | 0 <= i < j < |p| :: p[i] != p[j]
    ensures |p| <= |c.bundles.Keys|
  {
    forall i, j | 0 <= i < j < |p|
      ensures p[i] != p[j]
    {
      PathReaches(Within(c), p, i, j);
    }
    ListSize(p, c.bundles.Keys);
  }

  /** Going back along incoming edges ends at the head. */
  lemma {:induction false} BackToHead<P>(c: Channel<P>, head: string, p: seq<string>)
    requires Keyed(c) && Acyclic(c) && Sources(c) == {head}
    requires |p| > 0 && IsPath(Within(c), p) && forall i | 0 <= i < |p| :: p[i] in c.bundles
    ensures p[|p| - 1] == head || Reaches(Within(c), head, p[|p| - 1])
    decreases |c.bundles.Keys| - |p|
  {
    if p[0] == head {
      if |p| > 1 {
        PathReaches(Within(c), p, 0, |p| - 1);
      }
    } else {
      var k := Predecessor(c, head, p[0]);
      PathFromPredecessor(Within(c), k, p);
      PathDistinct(c, [k] + p);
      BackToHead(c, head, [k] + p);
    }
  }

  lemma Predecessor<P>(c: Channel<P>, head: string, x: string) returns (k: string)
    requires Keyed(c) && Sources(c) == {head} && x in c.bundles && x != head
    ensures k in c.bundles && x in Within(c)(k)
  {
    assert x !in Sources(c);
    assert c.bundles[x].name == x;
    k :| k in c.bundles && x in Edges(c.bundles[k]);
  }

  lemma PathFromPredecessor(succ: string -> set<string>, k: string, p: seq<string>)
    requires |p| > 0 && IsPath(succ, p) && p[0] in succ(k)
    ensures IsPath(succ, [k] + p)
  {
    var longer := [k] + p;
    forall i | 0 <= i < |longer| - 1
      ensures longer[i + 1] in succ(longer[i])
    {
      if i > 0 {
        assert p[i - 1 + 1] in succ(p[i - 1]);
      }
    }
  }

  /** In a validated channel without cycles every other bundle is reachable from the head. */
  lemma HeadSpansChannel<P>(c: Channel<P>, payloadOk: P -> bool, head: string, k: string)
    requires Validated(c, payloadOk) && Acyclic(c) && Sources(c) == {head}
    requires k in c.bundles && k != head
    ensures Reaches(Within(c), head, k)
  {
    BackToHead(c, head, [k]);
  }
}
