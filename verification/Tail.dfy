/** What lies below a bundle in the upgrade graph: pkg/sqlite/load.go, getTailFromBundle. */
module Tail {
  import opened Common
  import opened Tables
  import opened Reachability

  /** The bundles a name skips or replaces, none for a name without a row. */
  function Supersedes(bundles: map<string, BundleRow>, name: string): set<string> {
    if name !in bundles then {}
    else NamesIn(bundles[name].skips) + if bundles[name].replacesName != "" then {bundles[name].replacesName} else {}
  }

  ghost function Downward(bundles: map<string, BundleRow>): string -> set<string> {
    name => Supersedes(bundles, name)
  }

  /** All names that any row skips or replaces. */
  ghost function Mentioned(bundles: map<string, BundleRow>): set<string> {
    set name, n | name in bundles && n in Supersedes(bundles, name) :: n
  }

  /** The default-channel query: it joins on the channel name alone, so the package may be another one. */
  predicate IsDefaultHead(db: Db, name: string) {
    exists key | key in db.channels && db.channels[key] == name :: Some(key.name) in db.packages.Values
  }

  ghost predicate IsTail(bundles: map<string, BundleRow>, head: string, tail: set<string>) {
    forall n :: n in tail <==> Reaches(Downward(bundles), head, n)
  }

  /** The channel bears the name of a package's default channel, and its head is the given bundle or lies below it. */
  ghost predicate HeadsDefault(db: Db, head: string, key: ChannelKey, pkg: string) {
    && key in db.channels && (db.channels[key] == head || Reaches(Downward(db.bundles), head, db.channels[key]))
    && pkg in db.packages && db.packages[pkg] == Some(key.name)
  }

  ghost predicate MeetsDefaultHead(db: Db, head: string) {
    exists key, pkg :: HeadsDefault(db, head, key, pkg)
  }

  lemma MeetsIff(db: Db, head: string)
    ensures MeetsDefaultHead(db, head) <==>
              IsDefaultHead(db, head) || exists n :: Reaches(Downward(db.bundles), head, n) && IsDefaultHead(db, n)
  {
    if MeetsDefaultHead(db, head) {
      var key, pkg :| HeadsDefault(db, head, key, pkg);
      assert db.packages[pkg] in db.packages.Values;
      assert IsDefaultHead(db, db.channels[key]);
    }
    forall n | IsDefaultHead(db, n) && (n == head || Reaches(Downward(db.bundles), head, n))
      ensures MeetsDefaultHead(db, head)
    {
      var key :| key in db.channels && db.channels[key] == n && Some(key.name) in db.packages.Values;
      var pkg :| pkg in db.packages && db.packages[pkg] == Some(key.name);
      assert HeadsDefault(db, head, key, pkg);
    }
  }

  /** Visits the names that are new and queues them. */
  method Visit(names: seq<string>, visited: set<string>, next: seq<string>)
    returns (visited': set<string>, next': seq<string>)
    ensures visited' == visited + NamesIn(names)
    ensures forall n :: n in next' <==> n in next || (n in names && n !in visited)
    ensures visited' == visited ==> next' == next
  {
    visited', next' := visited, next;
    for k := 0 to |names|
      invariant visited' == visited + NamesIn(names[..k])
      invariant forall n :: n in next' <==> n in next || (n in names[..k] && n !in visited)
      invariant visited' == visited ==> next' == next
    {
      assert names[..k + 1] == names[..k] + [names[k]];
      if names[k] !in visited' {
        visited', next' := visited' + {names[k]}, next' + [names[k]];
      }
    }
    assert names[..|names|] == names;
  }

  /** The names to visit after a bundle, in the order they are queued. */
  function Onward(bundles: map<string, BundleRow>, name: string): (names: seq<string>)
    ensures NamesIn(names) == Supersedes(bundles, name)
  {
    if name !in bundles then []
    else bundles[name].skips + if bundles[name].replacesName != "" then [bundles[name].replacesName] else []
  }

  /** The queue invariant; done holds the names taken off the queue. */
  ghost predicate Searching(db: Db, head: string, done: set<string>, visited: set<string>, next: seq<string>) {
    && visited <= Mentioned(db.bundles)
    && (forall n | n in visited :: Reaches(Downward(db.bundles), head, n))
    && (forall n | n in visited + {head} :: n in done || n in next)
    && (forall n | n in next :: n in visited + {head})
    && (forall n | n in done :: Supersedes(db.bundles, n) <= visited && !IsDefaultHead(db, n))
  }

  lemma SearchStep(db: Db, head: string, done: set<string>, visited: set<string>, next: seq<string>,
                   visited': set<string>, next': seq<string>)
    requires Searching(db, head, done, visited, next) && next != [] && !IsDefaultHead(db, next[0])
    requires visited' == visited + Supersedes(db.bundles, next[0])
    requires forall n :: n in next' <==> n in next[1..] || (n in Supersedes(db.bundles, next[0]) && n !in visited)
    ensures Searching(db, head, done + {next[0]}, visited', next')
  {
    var b := next[0];
    forall n | n in Supersedes(db.bundles, b)
      ensures Reaches(Downward(db.bundles), head, n)
    {
      if b == head {
        ReachesOneStep(Downward(db.bundles), head, n);
      } else {
        ReachesOneMore(Downward(db.bundles), head, b, n);
      }
    }
    assert forall n :: n in next <==> n == b || n in next[1..];
  }

  lemma SearchEnds(db: Db, head: string, done: set<string>, visited: set<string>)
    requires Searching(db, head, done, visited, [])
    ensures IsTail(db.bundles, head, visited) && !MeetsDefaultHead(db, head)
  {
    MeetsIff(db, head);
    assert Closed(Downward(db.bundles), visited);
    forall n | Reaches(Downward(db.bundles), head, n)
      ensures n in visited
    {
      ClosedHoldsReachable(Downward(db.bundles), head, visited, n);
    }
  }

  lemma SmallerRest(all: set<string>, visited: set<string>, visited': set<string>)
    requires visited <= visited' <= all && visited != visited'
    ensures |all - visited'| < |all - visited|
  {
    var n :| n in visited' && n !in visited;
    SubsetSize(all - visited', all - visited - {n});
  }

  /** None is the error for the head of a default channel. The search ends on any rows, cyclic ones included. */
  method GetTail(db: Db, head: string) returns (r: Option<set<string>>)
    ensures r.None? <==> exists key, pkg :: HeadsDefault(db, head, key, pkg)
    ensures r.Some? ==> IsTail(db.bundles, head, r.value)
  {
    var visited: set<string>, next := {}, [head];
    ghost var done: set<string> := {};
    while next != []
      invariant Searching(db, head, done, visited, next)
      decreases |Mentioned(db.bundles) - visited|, |next|
    {
      if IsDefaultHead(db, next[0]) {
        assert next[0] in visited + {head};
        MeetsIff(db, head);
        return None;
      }
      var onward := Onward(db.bundles, next[0]);
      assert forall n :: n in onward <==> n in NamesIn(onward);
      var visited', next' := Visit(onward, visited, next[1..]);
      SearchStep(db, head, done, visited, next, visited', next');
      if visited' != visited {
        SmallerRest(Mentioned(db.bundles), visited, visited');
      }
      done := done + {next[0]};
      visited, next := visited', next';
    }
    SearchEnds(db, head, done, visited);
    r := Some(visited);
  }
}
