/** The cycle check of the architecture gate, and the direct cycles of the report. */
module ArchitectureGate {
  import opened Ordering
  import opened DependencyGraph
  import TarjanInvariant
  import opened SccSearch
  import opened Components

  /** A walk back to its start that passes through at least two modules. */
  ghost predicate Cycle(edges: seq<Edge>, p: seq<string>) {
    Walk(edges, p) && p[0] == p[|p| - 1] && exists x :: x in p && x != p[0]
  }

  predicate Within(p: seq<string>, a: set<string>) {
    forall x :: x in p ==> x in a
  }

  ghost predicate Inside(p: seq<string>, accepted: seq<set<string>>) {
    exists a :: a in accepted && Within(p, a)
  }

  /** Every dependency cycle stays inside one accepted component. */
  ghost predicate CyclesAccepted(edges: seq<Edge>, accepted: seq<set<string>>) {
    forall p :: Cycle(edges, p) ==> Inside(p, accepted)
  }

  lemma WalkSuffix(edges: seq<Edge>, p: seq<string>, i: nat)
    requires Walk(edges, p) && i < |p|
    ensures Reach(edges, p[0], p[i]) && Reach(edges, p[i], p[|p| - 1])
  {
    assert WalkFromTo(edges, p[..i + 1], p[0], p[i]);
    assert WalkFromTo(edges, p[i..], p[i], p[|p| - 1]);
  }

  /** A cycle lies within one reported component. */
  lemma CycleInComponent(edges: seq<Edge>, cs: seq<seq<string>>, p: seq<string>) returns (c: seq<string>)
    requires ExactComponents(edges, cs) && Cycle(edges, p)
    ensures c in cs && forall x :: x in p ==> x in c
  {
    forall x | x in p
      ensures TarjanInvariant.Mutual(Reaches(edges), p[0], x)
    {
      var i :| 0 <= i < |p| && p[i] == x;
      WalkSuffix(edges, p, i);
    }
    var y :| y in p && y != p[0];
    assert Together(cs, p[0], y);
    c :| c in cs && p[0] in c && y in c;
    forall x | x in p
      ensures x in c
    {
      assert TarjanInvariant.Mutual(Reaches(edges), p[0], x);
    }
  }

  /** One closed walk visits all members of a component. */
  lemma {:induction false} Tour(edges: seq<Edge>, c: seq<string>, k: nat) returns (p: seq<string>)
    requires c != [] && k <= |c|
    requires forall x, y :: x in c && y in c ==> Reach(edges, x, y)
    ensures WalkFromTo(edges, p, c[0], c[0]) && forall i :: 0 <= i < k ==> c[i] in p
  {
    if k == 0 {
      p := [c[0]];
    } else {
      var p0 := Tour(edges, c, k - 1);
      assert Reach(edges, c[0], c[k - 1]) && Reach(edges, c[k - 1], c[0]);
      var q :| WalkFromTo(edges, q, c[0], c[k - 1]);
      var r :| WalkFromTo(edges, r, c[k - 1], c[0]);
      JoinWalks(edges, p0, q, c[0], c[0], c[k - 1]);
      var p1 := p0 + q[1..];
      JoinWalks(edges, p1, r, c[0], c[k - 1], c[0]);
      p := p1 + r[1..];
      assert p1[|p1| - 1] in p1;
      assert forall x :: x in p0 ==> x in p1;
      assert forall x :: x in p1 ==> x in p;
    }
  }

  lemma ComponentIsCycle(edges: seq<Edge>, c: seq<string>) returns (p: seq<string>)
    requires IsComponent(StringLeq, Reaches(edges), c)
    ensures Cycle(edges, p) && forall x :: x in c ==> x in p
  {
    forall x, y | x in c && y in c
      ensures Reach(edges, x, y)
    {
      assert TarjanInvariant.Mutual(Reaches(edges), x, y);
    }
    p := Tour(edges, c, |c|);
    assert c[1] in p && c[1] != p[0];
  }

  predicate IsAccepted(c: seq<string>, accepted: seq<set<string>>) {
    exists i :: 0 <= i < |accepted| && Within(c, accepted[i])
  }

  lemma AcceptedInside(c: seq<string>, p: seq<string>, accepted: seq<set<string>>)
    requires forall x :: x in p ==> x in c
    ensures IsAccepted(c, accepted) ==> Inside(p, accepted)
  {
    if i :| 0 <= i < |accepted| && Within(c, accepted[i]) {
      assert accepted[i] in accepted;
    }
  }

  /** No component is rejected exactly when every cycle is accepted. */
  lemma AcceptedIffCyclesAccepted(edges: seq<Edge>, cs: seq<seq<string>>, accepted: seq<set<string>>)
    requires ExactComponents(edges, cs)
    ensures (forall c :: c in cs ==> IsAccepted(c, accepted)) <==> CyclesAccepted(edges, accepted)
  {
    if forall c :: c in cs ==> IsAccepted(c, accepted) {
      forall p | Cycle(edges, p)
        ensures Inside(p, accepted)
      {
        var c := CycleInComponent(edges, cs, p);
        AcceptedInside(c, p, accepted);
      }
    }
    if CyclesAccepted(edges, accepted) {
      forall c | c in cs
        ensures IsAccepted(c, accepted)
      {
        var p := ComponentIsCycle(edges, c);
        assert Inside(p, accepted);
        var a :| a in accepted && Within(p, a);
        var i :| 0 <= i < |accepted| && accepted[i] == a;
      }
    }
  }

  /** The components for which the gate reports a new or expanded dependency cycle. */
  method CycleErrors(edges: seq<Edge>, accepted: seq<set<string>>) returns (errors: seq<seq<string>>)
    ensures errors == [] <==> CyclesAccepted(edges, accepted)
    ensures forall c :: c in errors ==> IsComponent(StringLeq, Reaches(edges), c) && !IsAccepted(c, accepted)
    ensures forall p :: Cycle(edges, p) && !Inside(p, accepted) ==> exists c :: c in errors && Within(p, set x | x in c)
  {
    var cs := StronglyConnectedComponents(edges);
    errors := [];
    for i := 0 to |cs|
      invariant forall c :: c in errors <==> c in cs[..i] && !IsAccepted(c, accepted)
    {
      if !IsAccepted(cs[i], accepted) {
        errors := errors + [cs[i]];
      }
      assert cs[..i + 1] == cs[..i] + [cs[i]];
    }
    assert cs[..|cs|] == cs;
    AcceptedIffCyclesAccepted(edges, cs, accepted);
    assert errors != [] ==> errors[0] in errors;
    forall p | Cycle(edges, p) && !Inside(p, accepted)
      ensures exists c :: c in errors && Within(p, set x | x in c)
    {
      var c := CycleInComponent(edges, cs, p);
      AcceptedInside(c, p, accepted);
    }
  }

  /** The pairs of modules that depend on each other directly, and the components. */
  method DependencyCycles(edges: seq<Edge>) returns (direct: seq<seq<string>>, components: seq<seq<string>>)
    ensures ExactComponents(edges, components) && Sorted(ListLeq, direct)
    ensures forall x, y :: [x, y] in direct <==> x != y && StringLeq(x, y) && Link(edges, x, y) && Link(edges, y, x)
    ensures forall d :: d in direct ==> |d| == 2
    ensures forall d :: d in direct ==> exists c :: c in components && d[0] in c && d[1] in c
    ensures forall d, c, e :: d in direct && c in components && e in components && d[0] in c && d[1] in e ==> c == e
  {
    var domain := set e | e in edges && IsDomainModule(e.source) && IsDomainModule(e.target);
    var pairs := set e | e in domain && e.source != e.target && StringLeq(e.source, e.target)
                         && Edge(e.target, e.source) in domain :: [e.source, e.target];
    ListOrder();
    direct := SortedElements(ListLeq, pairs);
    components := StronglyConnectedComponents(edges);
    forall x, y | x != y && StringLeq(x, y) && Link(edges, x, y) && Link(edges, y, x)
      ensures [x, y] in direct
    {
      assert Edge(x, y) in domain && Edge(y, x) in domain;
      assert [Edge(x, y).source, Edge(x, y).target] in pairs;
    }
    forall d | d in direct
      ensures |d| == 2 && d[0] != d[1] && TarjanInvariant.Mutual(Reaches(edges), d[0], d[1])
    {
      ReachLink(edges, d[0], d[1]);
      ReachLink(edges, d[1], d[0]);
    }
    forall d, c, e | d in direct && c in components && e in components && d[0] in c && d[1] in e
      ensures c == e
    {
      assert TarjanInvariant.Mutual(Reaches(edges), d[0], d[1]);
      assert d[1] in c;
    }
  }
}
