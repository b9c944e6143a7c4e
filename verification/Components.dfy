/** The cycle report of the dependency graph. */
module Components {
  import opened Ordering
  import opened DependencyGraph
  import TarjanInvariant
  import opened SccSearch

  ghost function Links(edges: seq<Edge>): (string, string) -> bool {
    (x, y) => Link(edges, x, y)
  }

  ghost function Reaches(edges: seq<Edge>): (string, string) -> bool {
    (x, y) => Reach(edges, x, y)
  }

  lemma ReachIsClosure(edges: seq<Edge>)
    ensures TarjanInvariant.IsClosure(Links(edges), Reaches(edges))
  {
    var link, reach := Links(edges), Reaches(edges);
    forall x, y | x == y || link(x, y)
      ensures reach(x, y)
    {
      if x == y { ReachSelf(edges, x); } else { ReachLink(edges, x, y); }
    }
    forall x, y, z | reach(x, y) && reach(y, z)
      ensures reach(x, z)
    {
      ReachTrans(edges, x, y, z);
    }
    forall s: set<string>, x, y | TarjanInvariant.Closed(link, s) && x in s && reach(x, y)
      ensures y in s
    {
      assert forall a, b :: Link(edges, a, b) ==> link(a, b);
      ClosedReach(edges, s, x, y);
    }
  }

  /** `cs` lists exactly the maximal sets of at least two mutually reachable modules: each
      once, each sorted, the whole list sorted. */
  ghost predicate ExactComponents(edges: seq<Edge>, cs: seq<seq<string>>) {
    && Sorted(ListLeq, cs)
    && PairwiseDisjoint(cs)
    && (forall c :: c in cs ==> IsComponent(StringLeq, Reaches(edges), c))
    && (forall x, y :: x != y && TarjanInvariant.Mutual(Reaches(edges), x, y) ==> Together(cs, x, y))
  }

  ghost predicate Together(cs: seq<seq<string>>, x: string, y: string) {
    exists c :: c in cs && x in c && y in c
  }

  method BuildGraph(edges: seq<Edge>) returns (nodes: set<string>, adjacency: map<string, set<string>>)
    ensures forall x, y :: Link(edges, x, y) <==> x in adjacency && y in adjacency[x]
    ensures forall x :: x in nodes <==> IsNode(edges, x)
  {
    nodes, adjacency := {}, map[];
    for i := 0 to |edges|
      invariant forall x, y :: Link(edges[..i], x, y) <==> x in adjacency && y in adjacency[x]
      invariant forall x :: x in nodes <==> IsNode(edges[..i], x)
    {
      var edge := edges[i];
      if IsDomainModule(edge.source) && IsDomainModule(edge.target) {
        var before := if edge.source in adjacency then adjacency[edge.source] else {};
        nodes := nodes + {edge.source, edge.target};
        adjacency := adjacency[edge.source := before + {edge.target}];
      }
      LinkStep(edges, i);
    }
    assert edges[..|edges|] == edges;
  }

  lemma LinkStep(edges: seq<Edge>, i: nat)
    requires i < |edges|
    ensures forall x, y :: Link(edges[..i + 1], x, y) <==>
                           Link(edges[..i], x, y) || (edges[i] == Edge(x, y) && IsDomainModule(x) && IsDomainModule(y))
  {
    assert edges[..i + 1] == edges[..i] + [edges[i]];
  }

  /** Sorting the list of lists does not change what it lists. */
  lemma SortedListing(edges: seq<Edge>, nodes: set<string>, cs: seq<seq<string>>)
    requires Listed(StringLeq, Reaches(edges), cs, nodes)
    requires forall x :: x in nodes <==> IsNode(edges, x)
    ensures ExactComponents(edges, Sort(ListLeq, cs))
  {
    var r := Sort(ListLeq, cs);
    ListOrder();
    SortSorted(ListLeq, cs);
    DistinctTransfers(cs, r);
    forall x, y | x != y && TarjanInvariant.Mutual(Reaches(edges), x, y)
      ensures Together(r, x, y)
    {
      ReachIsNode(edges, x, y);
      assert TarjanInvariant.Mutual(Reaches(edges), x, y);
      var c :| c in cs && x in c;
      assert y in c && c in r;
    }
  }

  /** The maximal mutually reachable sets of at least two domain modules. */
  method StronglyConnectedComponents(edges: seq<Edge>) returns (components: seq<seq<string>>)
    ensures ExactComponents(edges, components)
  {
    var nodes, adjacency := BuildGraph(edges);
    StringOrder();
    ReachIsClosure(edges);
    var search := new Search(StringLeq, nodes, adjacency, Links(edges), Reaches(edges));
    forall x, y | Link(edges, x, y)
      ensures y in nodes
    {
      assert IsNode(edges, y);
    }
    search.Run();
    components := Sort(ListLeq, search.components);
    SortedListing(edges, nodes, search.components);
  }

  /** The report is determined by the links alone, whatever order the edges come in. */
  lemma ComponentsUnique(edges: seq<Edge>, a: seq<seq<string>>, b: seq<seq<string>>)
    requires ExactComponents(edges, a) && ExactComponents(edges, b)
    ensures a == b
  {
    ListOrder();
    ComponentsIncluded(edges, a, b);
    ComponentsIncluded(edges, b, a);
    assert multiset(a) == multiset(b) by {
      forall c
        ensures multiset(a)[c] == multiset(b)[c]
      {
        CountDistinct(a, c);
        CountDistinct(b, c);
        assert c in multiset(a) <==> c in a;
        assert c in multiset(b) <==> c in b;
      }
    }
    SortedUnique(ListLeq, a, b);
  }

  lemma ComponentsIncluded(edges: seq<Edge>, a: seq<seq<string>>, b: seq<seq<string>>)
    requires ExactComponents(edges, a) && ExactComponents(edges, b)
    ensures forall c :: c in a ==> c in b
  {
    forall c | c in a
      ensures c in b
    {
      var x, y := c[0], c[1];
      assert x in c && y in c;
      assert TarjanInvariant.Mutual(Reaches(edges), x, y);
      assert Together(b, x, y);
      var d :| d in b && x in d && y in d;
      SameComponent(edges, c, d, x);
    }
  }

  lemma SameComponent(edges: seq<Edge>, c: seq<string>, d: seq<string>, x: string)
    requires IsComponent(StringLeq, Reaches(edges), c) && IsComponent(StringLeq, Reaches(edges), d)
    requires x in c && x in d
    ensures c == d
  {
    StringOrder();
    forall y
      ensures multiset(c)[y] == multiset(d)[y]
    {
      assert y in c <==> y in d;
      CountDistinct(c, y);
      CountDistinct(d, y);
      assert y in multiset(c) <==> y in c;
      assert y in multiset(d) <==> y in d;
    }
    assert multiset(c) == multiset(d);
    SortedUnique(StringLeq, c, d);
  }
}
