/** The nodes of a channel in a manifest directory: pkg/registry/directoryGraphLoader.go, getChannelNodes. */
module DirectoryGraph {
  import opened Common
  import opened Reachability

  /** What a CSV replaces; a name without a CSV replaces nothing. */
  function ReplacedBy(csvs: map<string, seq<string>>, name: string): set<string> {
    if name in csvs then NamesIn(csvs[name]) else {}
  }

  ghost function Successors(csvs: map<string, seq<string>>): string -> set<string> {
    name => ReplacedBy(csvs, name)
  }

  /** The head and everything it reaches. */
  ghost predicate InChannel(csvs: map<string, seq<string>>, head: string, name: string) {
    name == head || Reaches(Successors(csvs), head, name)
  }

  ghost function AllNames(csvs: map<string, seq<string>>, head: string): set<string> {
    {head} + set name, n | name in csvs && n in csvs[name] :: n
  }

  lemma InChannelStep(csvs: map<string, seq<string>>, head: string, name: string, next: string)
    requires InChannel(csvs, head, name) && next in ReplacedBy(csvs, name)
    ensures InChannel(csvs, head, next)
  {
    if name == head {
      ReachesOneStep(Successors(csvs), head, next);
    } else {
      ReachesOneMore(Successors(csvs), head, name, next);
    }
  }

  /** The names visited are nodes with all they replace; what is known of the channel is a node or remains. */
  ghost predicate Visiting(csvs: map<string, seq<string>>, head: string, nodes: map<string, set<string>>,
                           remaining: set<string>) {
    && head in nodes.Keys + remaining && nodes.Keys + remaining <= AllNames(csvs, head)
    && (forall name | name in nodes.Keys + remaining :: InChannel(csvs, head, name))
    && (forall name | name in nodes :: nodes[name] == ReplacedBy(csvs, name) && nodes[name] <= nodes.Keys + remaining)
  }

  lemma VisitStep(csvs: map<string, seq<string>>, head: string, nodes: map<string, set<string>>, remaining: set<string>,
                  name: string)
    requires Visiting(csvs, head, nodes, remaining) && name in remaining && name !in nodes
    ensures var nodes' := nodes[name := ReplacedBy(csvs, name)];
            Visiting(csvs, head, nodes', remaining + (ReplacedBy(csvs, name) - nodes'.Keys) - {name})
  {
    forall next | next in ReplacedBy(csvs, name)
      ensures InChannel(csvs, head, next) && next in AllNames(csvs, head)
    {
      InChannelStep(csvs, head, name, next);
    }
  }

  lemma VisitStart(csvs: map<string, seq<string>>, head: string)
    ensures Visiting(csvs, head, map[], {head} + ReplacedBy(csvs, head))
  {
    forall next | next in ReplacedBy(csvs, head)
      ensures InChannel(csvs, head, next)
    {
      InChannelStep(csvs, head, head, next);
    }
  }

  lemma VisitAgain(csvs: map<string, seq<string>>, head: string, nodes: map<string, set<string>>,
                   remaining: set<string>, name: string)
    requires Visiting(csvs, head, nodes, remaining) && name in nodes
    ensures Visiting(csvs, head, nodes, remaining - {name})
  {
    assert nodes.Keys + (remaining - {name}) == nodes.Keys + remaining;
  }

  lemma OneLess(all: set<string>, nodes: map<string, set<string>>, name: string, replaced: set<string>)
    requires name in all && name !in nodes
    ensures |all - nodes[name := replaced].Keys| < |all - nodes.Keys|
  {
    assert all - nodes[name := replaced].Keys == all - nodes.Keys - {name};
  }

  lemma VisitEnds(csvs: map<string, seq<string>>, head: string, nodes: map<string, set<string>>)
    requires Visiting(csvs, head, nodes, {})
    ensures forall name :: name in nodes <==> InChannel(csvs, head, name)
  {
    assert Closed(Successors(csvs), nodes.Keys);
    forall name | Reaches(Successors(csvs), head, name)
      ensures name in nodes
    {
      ClosedHoldsReachable(Successors(csvs), head, nodes.Keys, name);
    }
  }

  /** The worklist may be taken in any order, and the CSVs may replace each other in cycles or name missing ones. */
  method GetChannelNodes(csvs: map<string, seq<string>>, head: string) returns (nodes: map<string, set<string>>)
    ensures forall name :: name in nodes <==> InChannel(csvs, head, name)
    ensures forall name | name in nodes :: nodes[name] == ReplacedBy(csvs, name)
  {
    nodes := map[];
    var remaining := {head} + ReplacedBy(csvs, head);
    VisitStart(csvs, head);
    while remaining != {}
      invariant Visiting(csvs, head, nodes, remaining)
      decreases |AllNames(csvs, head) - nodes.Keys|, |remaining|
    {
      var name :| name in remaining;
      if name !in nodes {
        VisitStep(csvs, head, nodes, remaining, name);
        OneLess(AllNames(csvs, head), nodes, name, ReplacedBy(csvs, name));
        nodes := nodes[name := ReplacedBy(csvs, name)];
        remaining := remaining + (ReplacedBy(csvs, name) - nodes.Keys);
      } else {
        VisitAgain(csvs, head, nodes, remaining, name);
      }
      remaining := remaining - {name};
    }
    VisitEnds(csvs, head, nodes);
  }
}
