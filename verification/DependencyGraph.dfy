/** Dependency edges between modules and the reachability they generate. */
module DependencyGraph {

  /** One import edge. The file list that accompanies it plays no part in cycle detection. */
  datatype Edge = Edge(source: string, target: string)

  predicate StartsWith(s: string, prefix: string) { prefix <= s }

  predicate IsDomainModule(name: string) {
    || StartsWith(name, "app.") || StartsWith(name, "bridge.")
    || StartsWith(name, "app/") || StartsWith(name, "bridge/")
  }

  lemma PrefixMeaning(s: string, prefix: string)
    ensures StartsWith(s, prefix) <==> exists rest :: s == prefix + rest
  {
    if StartsWith(s, prefix) {
      assert s == prefix + s[|prefix|..];
    }
  }

  /** The domain modules are those under app and bridge, with a dot or a slash behind. */
  lemma DomainMeaning(name: string)
    ensures IsDomainModule(name) <==>
              || (exists rest :: name == "app." + rest) || (exists rest :: name == "bridge." + rest)
              || (exists rest :: name == "app/" + rest) || (exists rest :: name == "bridge/" + rest)
  {
    PrefixMeaning(name, "app.");
    PrefixMeaning(name, "bridge.");
    PrefixMeaning(name, "app/");
    PrefixMeaning(name, "bridge/");
  }

  /** An edge that takes part in cycle detection: both ends are domain modules. */
  ghost predicate Link(edges: seq<Edge>, x: string, y: string) {
    Edge(x, y) in edges && IsDomainModule(x) && IsDomainModule(y)
  }

  /** A module that is an end of some link. */
  ghost predicate IsNode(edges: seq<Edge>, x: string) {
    exists y :: Link(edges, x, y) || Link(edges, y, x)
  }

  ghost predicate Walk(edges: seq<Edge>, p: seq<string>) {
    p != [] && forall i :: 0 <= i < |p| - 1 ==> Link(edges, p[i], p[i + 1])
  }

  ghost predicate WalkFromTo(edges: seq<Edge>, p: seq<string>, x: string, y: string) {
    Walk(edges, p) && p[0] == x && p[|p| - 1] == y
  }

  ghost predicate Reach(edges: seq<Edge>, x: string, y: string) {
    exists p :: WalkFromTo(edges, p, x, y)
  }

  lemma ReachSelf(edges: seq<Edge>, x: string)
    ensures Reach(edges, x, x)
  {
    assert WalkFromTo(edges, [x], x, x);
  }

  lemma ReachLink(edges: seq<Edge>, x: string, y: string)
    requires Link(edges, x, y)
    ensures Reach(edges, x, y)
  {
    assert WalkFromTo(edges, [x, y], x, y);
  }

  lemma JoinWalks(edges: seq<Edge>, p: seq<string>, q: seq<string>, x: string, y: string, z: string)
    requires WalkFromTo(edges, p, x, y) && WalkFromTo(edges, q, y, z)
    ensures WalkFromTo(edges, p + q[1..], x, z)
  {
    var r := p + q[1..];
    forall i | 0 <= i < |r| - 1
      ensures Link(edges, r[i], r[i + 1])
    {
      if i < |p| - 1 {
        assert Link(edges, p[i], p[i + 1]);
      } else {
        var j := i - |p| + 1;
        assert r[i] == q[j] && r[i + 1] == q[j + 1];
        assert Link(edges, q[j], q[j + 1]);
      }
    }
  }

  lemma ReachTrans(edges: seq<Edge>, x: string, y: string, z: string)
    requires Reach(edges, x, y) && Reach(edges, y, z)
    ensures Reach(edges, x, z)
  {
    var p :| WalkFromTo(edges, p, x, y);
    var q :| WalkFromTo(edges, q, y, z);
    JoinWalks(edges, p, q, x, y, z);
  }

  /** No walk leaves a set that no link leaves. */
  lemma {:induction false} ClosedReach(edges: seq<Edge>, s: set<string>, x: string, y: string)
    requires forall a, b :: a in s && Link(edges, a, b) ==> b in s
    requires x in s && Reach(edges, x, y)
    ensures y in s
  {
    var p :| WalkFromTo(edges, p, x, y);
    var i := 0;
    while i < |p| - 1
      invariant 0 <= i <= |p| - 1
      invariant p[i] in s
    {
      assert Link(edges, p[i], p[i + 1]);
      i := i + 1;
    }
  }

  /** A module that reaches a different module is an end of some link. */
  lemma ReachIsNode(edges: seq<Edge>, x: string, y: string)
    requires Reach(edges, x, y) && x != y
    ensures IsNode(edges, x) && IsNode(edges, y)
  {
    var p :| WalkFromTo(edges, p, x, y);
    assert Link(edges, p[0], p[1]);
    assert Link(edges, p[|p| - 2], p[|p| - 1]);
  }
}
