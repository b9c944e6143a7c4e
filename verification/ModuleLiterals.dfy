/** Extraction of module names from the syntax tree of the module list, following
    assigned names through a table that may be cyclic. */
module ModuleLiterals {

  /** A syntax node, as far as the extraction tells nodes apart. `Other` also stands for
      constants that are not strings; a name's context node has no children. */
  datatype Node =
    | Text(value: string)
    | Name(id: string)
    | Starred(inner: Node)
    | Other(children: seq<Node>)

  type Table = map<string, Node>

  predicate IsWordChar(c: char) {
    'a' <= c <= 'z' || 'A' <= c <= 'Z' || '0' <= c <= '9' || c == '_'
  }

  predicate IsSuffixOf(value: string, prefix: string) {
    prefix < value && forall i :: |prefix| <= i < |value| ==> IsWordChar(value[i])
  }

  predicate IsModuleName(value: string) {
    IsSuffixOf(value, "core.") || IsSuffixOf(value, "app.") || IsSuffixOf(value, "bridge.")
  }

  /** `value` is the prefix and one or more word characters. */
  ghost predicate WordBehind(value: string, prefix: string) {
    exists rest :: rest != "" && value == prefix + rest && forall i :: 0 <= i < |rest| ==> IsWordChar(rest[i])
  }

  lemma SuffixMeaning(value: string, prefix: string)
    ensures IsSuffixOf(value, prefix) <==> WordBehind(value, prefix)
  {
    if IsSuffixOf(value, prefix) {
      var rest := value[|prefix|..];
      assert value == prefix + rest && rest != "";
    }
    if rest :| rest != "" && value == prefix + rest && forall i :: 0 <= i < |rest| ==> IsWordChar(rest[i]) {
      assert forall i :: |prefix| <= i < |value| ==> value[i] == rest[i - |prefix|];
    }
  }

  /** A module name is core, app or bridge, a dot, and one or more word characters. */
  lemma ModuleNameMeaning(value: string)
    ensures IsModuleName(value) <==>
              WordBehind(value, "core.") || WordBehind(value, "app.") || WordBehind(value, "bridge.")
  {
    SuffixMeaning(value, "core.");
    SuffixMeaning(value, "app.");
    SuffixMeaning(value, "bridge.");
  }

  /** Terminates on every tree and every table: either a name is resolved that was not
      being resolved, or the node gets smaller. */
  function Literals(node: Node, table: Table, conditional: bool, resolving: set<string>): (r: seq<(string, bool)>)
    ensures forall e :: e in r ==> IsModuleName(e.0)
    decreases table.Keys - resolving, node, 1
  {
    if node.Text? then
      if IsModuleName(node.value) then [(node.value, conditional)] else []
    else if node.Name? && node.id in table && node.id !in resolving then
      Literals(table[node.id], table, conditional, resolving + {node.id})
    else if node.Starred? then
      Literals(node.inner, table, true, resolving)
    else if node.Other? then
      AllLiterals(node.children, table, conditional, resolving)
    else
      []
  }

  function AllLiterals(nodes: seq<Node>, table: Table, conditional: bool, resolving: set<string>)
    : (r: seq<(string, bool)>)
    ensures forall e :: e in r ==> IsModuleName(e.0)
    decreases table.Keys - resolving, nodes, 0
  {
    if nodes == [] then [] else
      Literals(nodes[0], table, conditional, resolving) + AllLiterals(nodes[1..], table, conditional, resolving)
  }

  // ----- what can be reached in the tree -----

  /** From a node to a child, or from a name to what is assigned to it. */
  predicate Step(table: Table, a: Node, b: Node) {
    match a
    case Text(_) => false
    case Name(id) => id in table && b == table[id]
    case Starred(inner) => b == inner
    case Other(children) => b in children
  }

  predicate Walk(table: Table, p: seq<Node>) {
    p != [] && (|p| > 1 ==> Step(table, p[0], p[1]) && Walk(table, p[1..]))
  }

  /** The walk follows no name of `resolving`. */
  predicate Avoids(p: seq<Node>, resolving: set<string>) {
    |p| > 1 ==> (p[0].Name? ==> p[0].id !in resolving) && Avoids(p[1..], resolving)
  }

  /** The walk follows no name of `resolving`, and no name twice. */
  predicate SimpleWalk(table: Table, p: seq<Node>, resolving: set<string>) {
    p != [] && (|p| > 1 ==>
      && Step(table, p[0], p[1])
      && (p[0].Name? ==> p[0].id !in resolving)
      && SimpleWalk(table, p[1..], if p[0].Name? then resolving + {p[0].id} else resolving))
  }

  predicate PassesStar(p: seq<Node>) {
    |p| > 1 && (p[0].Starred? || PassesStar(p[1..]))
  }

  predicate FromTo(p: seq<Node>, a: Node, b: Node) {
    p != [] && p[0] == a && p[|p| - 1] == b
  }

  ghost predicate Reachable(table: Table, node: Node, value: string) {
    exists p :: Walk(table, p) && FromTo(p, node, Text(value))
  }

  // ----- soundness: a reported literal has a simple walk -----

  lemma {:induction false} Sound(node: Node, table: Table, conditional: bool, resolving: set<string>,
                                 e: (string, bool))
    returns (p: seq<Node>)
    requires e in Literals(node, table, conditional, resolving)
    ensures SimpleWalk(table, p, resolving) && FromTo(p, node, Text(e.0))
    ensures e.1 == (conditional || PassesStar(p))
    decreases table.Keys - resolving, node, 1
  {
    if node.Text? {
      p := [node];
    } else {
      var q;
      if node.Name? {
        q := Sound(table[node.id], table, conditional, resolving + {node.id}, e);
      } else if node.Starred? {
        q := Sound(node.inner, table, true, resolving, e);
      } else {
        q := SoundAll(node.children, table, conditional, resolving, e);
      }
      p := [node] + q;
      assert p[1..] == q;
    }
  }

  lemma {:induction false} SoundAll(nodes: seq<Node>, table: Table, conditional: bool, resolving: set<string>,
                                    e: (string, bool))
    returns (p: seq<Node>)
    requires e in AllLiterals(nodes, table, conditional, resolving)
    ensures SimpleWalk(table, p, resolving) && p[0] in nodes && p[|p| - 1] == Text(e.0)
    ensures e.1 == (conditional || PassesStar(p))
    decreases table.Keys - resolving, nodes, 0
  {
    if e in Literals(nodes[0], table, conditional, resolving) {
      p := Sound(nodes[0], table, conditional, resolving, e);
    } else {
      p := SoundAll(nodes[1..], table, conditional, resolving, e);
    }
  }

  // ----- completeness for simple walks -----

  lemma {:induction false} Complete(node: Node, table: Table, conditional: bool, resolving: set<string>, p: seq<Node>,
                                    value: string)
    requires SimpleWalk(table, p, resolving) && FromTo(p, node, Text(value)) && IsModuleName(value)
    ensures (value, conditional || PassesStar(p)) in Literals(node, table, conditional, resolving)
    decreases |p|
  {
    if |p| > 1 {
      var q := p[1..];
      if node.Name? {
        Complete(q[0], table, conditional, resolving + {node.id}, q, value);
      } else if node.Starred? {
        Complete(q[0], table, true, resolving, q, value);
      } else {
        Complete(q[0], table, conditional, resolving, q, value);
        var k :| 0 <= k < |node.children| && node.children[k] == q[0];
        AllContains(node.children, table, conditional, resolving, k, (value, conditional || PassesStar(q)));
      }
    }
  }

  lemma {:induction false} AllContains(nodes: seq<Node>, table: Table, conditional: bool, resolving: set<string>,
                                       k: nat, e: (string, bool))
    requires k < |nodes| && e in Literals(nodes[k], table, conditional, resolving)
    ensures e in AllLiterals(nodes, table, conditional, resolving)
    decreases k
  {
    if k > 0 {
      AllContains(nodes[1..], table, conditional, resolving, k - 1, e);
    }
  }

  /** Exactly the literals at the end of a walk that follows no name twice are reported,
      conditional when the walk passes a starred expression. */
  lemma LiteralsExact(node: Node, table: Table, conditional: bool, resolving: set<string>, value: string, flag: bool)
    ensures (value, flag) in Literals(node, table, conditional, resolving)
       <==> IsModuleName(value) && exists p :: SimpleWalk(table, p, resolving) && FromTo(p, node, Text(value))
                                             && flag == (conditional || PassesStar(p))
  {
    if (value, flag) in Literals(node, table, conditional, resolving) {
      var p := Sound(node, table, conditional, resolving, (value, flag));
    }
    if p :| IsModuleName(value) && SimpleWalk(table, p, resolving) && FromTo(p, node, Text(value))
            && flag == (conditional || PassesStar(p)) {
      Complete(node, table, conditional, resolving, p, value);
    }
  }

  // ----- cutting cycles loses no name -----

  lemma {:induction false} SimpleIsWalk(table: Table, p: seq<Node>, resolving: set<string>)
    requires SimpleWalk(table, p, resolving)
    ensures Walk(table, p)
  {
    if |p| > 1 {
      SimpleIsWalk(table, p[1..], if p[0].Name? then resolving + {p[0].id} else resolving);
    }
  }

  /** From `k` on the walk no longer follows `id`. */
  lemma {:induction false} AfterLast(table: Table, p: seq<Node>, resolving: set<string>, id: string) returns (k: nat)
    requires Walk(table, p) && Avoids(p, resolving) && id in table
    ensures k < |p| && (k > 0 ==> p[k - 1] == Name(id) && p[k] == table[id])
    ensures Walk(table, p[k..]) && Avoids(p[k..], resolving + {id})
    decreases |p|
  {
    k := 0;
    assert p[0..] == p;
    if !Avoids(p, resolving + {id}) {
      k := AfterLast(table, p[1..], resolving, id);
      assert p[1..][k..] == p[k + 1..];
      k := k + 1;
    }
  }

  /** A walk passes a star before or after its `k`-th node. */
  lemma {:induction false} StarSplit(p: seq<Node>, k: nat)
    requires k < |p|
    ensures PassesStar(p) <==> PassesStar(p[..k + 1]) || PassesStar(p[k..])
    decreases k
  {
    if k == 0 {
      assert p[0..] == p;
    } else {
      StarSplit(p[1..], k - 1);
      assert p[..k + 1][1..] == p[1..][..k] && p[k..] == p[1..][k - 1..];
    }
  }

  /** No walk from the expression assigned to `id` back to `id` passes a star. */
  ghost predicate StarFree(table: Table, id: string) {
    id in table ==> forall p :: Walk(table, p) && FromTo(p, table[id], Name(id)) ==> !PassesStar(p)
  }

  ghost predicate NamesStarFree(table: Table, p: seq<Node>) {
    forall k :: 0 <= k < |p| && p[k].Name? ==> StarFree(table, p[k].id)
  }

  /** Cutting the walk at `k` loses no star when `id` has no cycle through one. */
  lemma CutKeepsStar(table: Table, p: seq<Node>, id: string, k: nat)
    requires Walk(table, p) && id in table && p[0] == table[id]
    requires k < |p| && (k > 0 ==> p[k - 1] == Name(id))
    ensures PassesStar(p[k..]) ==> PassesStar(p)
    ensures PassesStar(p) && StarFree(table, id) ==> PassesStar(p[k..])
  {
    if k > 0 {
      StarSplit(p, k - 1);
      WalkPrefix(table, p, k);
      assert FromTo(p[..k], table[id], Name(id));
      assert p[k - 1..][1..] == p[k..];
    } else {
      assert p[0..] == p;
    }
  }

  /** Every walk can be shortened to one that follows no name twice. The short walk passes no
      star that the long one does not, and passes one if the long one does and no name on it
      has a cycle through a star. */
  lemma {:induction false} Shorten(table: Table, p: seq<Node>, resolving: set<string>) returns (q: seq<Node>)
    requires Walk(table, p) && Avoids(p, resolving)
    ensures SimpleWalk(table, q, resolving) && FromTo(q, p[0], p[|p| - 1])
    ensures PassesStar(q) ==> PassesStar(p)
    ensures PassesStar(p) && NamesStarFree(table, p) ==> PassesStar(q)
    decreases |p|
  {
    if |p| == 1 {
      q := p;
    } else {
      var k := 0;
      var resolving' := resolving;
      if p[0].Name? {
        k := AfterLast(table, p[1..], resolving, p[0].id);
        resolving' := resolving + {p[0].id};
        CutKeepsStar(table, p[1..], p[0].id, k);
      }
      var rest := p[1..][k..];
      var tail := Shorten(table, rest, resolving');
      q := [p[0]] + tail;
      assert q[1..] == tail;
      assert NamesStarFree(table, p) ==> NamesStarFree(table, rest) && (p[0].Name? ==> StarFree(table, p[0].id));
    }
  }

  lemma {:induction false} WalkPrefix(table: Table, p: seq<Node>, k: nat)
    requires Walk(table, p) && 0 < k <= |p|
    ensures Walk(table, p[..k])
    decreases k
  {
    if k > 1 {
      WalkPrefix(table, p[1..], k - 1);
      assert p[..k][1..] == p[1..][..k - 1];
    }
  }

  lemma {:induction false} AvoidsNothing(p: seq<Node>)
    ensures Avoids(p, {})
  {
    if |p| > 1 { AvoidsNothing(p[1..]); }
  }

  /** The names returned are exactly the module literals reachable by following children
      and assigned names any number of times. */
  lemma NamesExact(node: Node, table: Table, value: string)
    ensures ((value, true) in Literals(node, table, false, {}) || (value, false) in Literals(node, table, false, {}))
       <==> IsModuleName(value) && Reachable(table, node, value)
  {
    forall flag | (value, flag) in Literals(node, table, false, {})
      ensures IsModuleName(value) && Reachable(table, node, value)
    {
      var p := Sound(node, table, false, {}, (value, flag));
      SimpleIsWalk(table, p, {});
    }
    if IsModuleName(value) && Reachable(table, node, value) {
      var p :| Walk(table, p) && FromTo(p, node, Text(value));
      AvoidsNothing(p);
      var q := Shorten(table, p, {});
      Complete(node, table, false, {}, q, value);
    }
  }

  // ----- the conditional flag -----

  /** An unconditional occurrence is reported exactly when some walk passes no star. */
  lemma UnconditionalExact(node: Node, table: Table, value: string)
    ensures (value, false) in Literals(node, table, false, {})
       <==> IsModuleName(value) && exists p :: Walk(table, p) && FromTo(p, node, Text(value)) && !PassesStar(p)
  {
    if (value, false) in Literals(node, table, false, {}) {
      var p := Sound(node, table, false, {}, (value, false));
      SimpleIsWalk(table, p, {});
    }
    if p :| IsModuleName(value) && Walk(table, p) && FromTo(p, node, Text(value)) && !PassesStar(p) {
      AvoidsNothing(p);
      var q := Shorten(table, p, {});
      Complete(node, table, false, {}, q, value);
    }
  }

  /** A conditional occurrence is reported if some walk passes a star and no name on that walk
      has a cycle through a star. */
  lemma ConditionalFound(node: Node, table: Table, value: string, p: seq<Node>)
    requires IsModuleName(value) && Walk(table, p) && FromTo(p, node, Text(value)) && PassesStar(p)
    requires NamesStarFree(table, p)
    ensures (value, true) in Literals(node, table, false, {})
  {
    AvoidsNothing(p);
    var q := Shorten(table, p, {});
    Complete(node, table, false, {}, q, value);
  }

  /** When no cycle of the table passes a star, a conditional occurrence is reported exactly
      when some walk passes one. */
  lemma ConditionalExact(node: Node, table: Table, value: string)
    requires forall id :: StarFree(table, id)
    ensures (value, true) in Literals(node, table, false, {})
       <==> IsModuleName(value) && exists p :: Walk(table, p) && FromTo(p, node, Text(value)) && PassesStar(p)
  {
    if (value, true) in Literals(node, table, false, {}) {
      var p := Sound(node, table, false, {}, (value, true));
      SimpleIsWalk(table, p, {});
    }
    if p :| IsModuleName(value) && Walk(table, p) && FromTo(p, node, Text(value)) && PassesStar(p) {
      ConditionalFound(node, table, value, p);
    }
  }

  ghost predicate StarredTo(table: Table, node: Node, value: string) {
    exists p :: Walk(table, p) && FromTo(p, node, Text(value)) && PassesStar(p)
  }

  /** Some walk that follows no name twice passes a star. */
  ghost predicate SimplyStarredTo(table: Table, node: Node, value: string) {
    exists p :: SimpleWalk(table, p, {}) && FromTo(p, node, Text(value)) && PassesStar(p)
  }

  /** No conditional occurrence is lost from any node. */
  ghost predicate NoneLost(table: Table) {
    forall node, value :: IsModuleName(value) && StarredTo(table, node, value) ==>
      (value, true) in Literals(node, table, false, {})
  }

  /** Each literal reachable from a name that has a cycle through a star also ends a starred
      walk from that name that follows no name twice. */
  ghost predicate StarCyclesHarmless(table: Table) {
    forall id, value :: !StarFree(table, id) && IsModuleName(value) && Reachable(table, Name(id), value) ==>
      SimplyStarredTo(table, Name(id), value)
  }

  lemma {:induction false} SimpleAvoiding(table: Table, p: seq<Node>, resolving: set<string>, more: set<string>)
    requires SimpleWalk(table, p, resolving) && Avoids(p, more)
    ensures SimpleWalk(table, p, resolving + more)
    decreases |p|
  {
    if |p| > 1 {
      if p[0].Name? {
        SimpleAvoiding(table, p[1..], resolving + {p[0].id}, more);
        assert resolving + {p[0].id} + more == resolving + more + {p[0].id};
      } else {
        SimpleAvoiding(table, p[1..], resolving, more);
      }
    }
  }

  lemma {:induction false} SimpleSuffix(table: Table, p: seq<Node>, resolving: set<string>, k: nat)
    requires SimpleWalk(table, p, resolving) && k < |p|
    ensures SimpleWalk(table, p[k..], resolving)
    decreases |p|
  {
    if k == 0 {
      assert p[0..] == p;
    } else {
      var next := if p[0].Name? then resolving + {p[0].id} else resolving;
      SimpleLess(table, p[1..], resolving, next);
      SimpleSuffix(table, p[1..], resolving, k - 1);
      assert p[1..][k - 1..] == p[k..];
    }
  }

  lemma {:induction false} SimpleLess(table: Table, p: seq<Node>, less: set<string>, more: set<string>)
    requires SimpleWalk(table, p, more) && less <= more
    ensures SimpleWalk(table, p, less)
    decreases |p|
  {
    if |p| > 1 {
      if p[0].Name? {
        SimpleLess(table, p[1..], less + {p[0].id}, more + {p[0].id});
      } else {
        SimpleLess(table, p[1..], less, more);
      }
    }
  }

  lemma {:induction false} JoinWalk(table: Table, p: seq<Node>, q: seq<Node>)
    requires Walk(table, q) && (p == [] || (Walk(table, p) && Step(table, p[|p| - 1], q[0])))
    ensures Walk(table, p + q)
    decreases |p|
  {
    if p == [] {
      assert p + q == q;
    } else {
      assert (p + q)[1..] == p[1..] + q;
      JoinWalk(table, p[1..], q);
    }
  }

  lemma JoinStars(p: seq<Node>, q: seq<Node>)
    requires q != [] && (PassesStar(p) || PassesStar(q))
    ensures PassesStar(p + q)
  {
    var r := p + q;
    assert r[|p|..] == q;
    StarSplit(r, |p|);
    if p != [] {
      assert r[..|p|] == p;
      StarSplit(r, |p| - 1);
    }
  }

  /** A walk whose names before `k` have no cycle through a star, and which from `k` on follows
      no name twice, can be shortened without losing its star. */
  lemma {:induction false} ShortenInto(table: Table, p: seq<Node>, k: nat, resolving: set<string>)
    returns (q: seq<Node>)
    requires Walk(table, p) && Avoids(p, resolving) && PassesStar(p) && k < |p|
    requires NamesStarFree(table, p[..k]) && SimpleWalk(table, p[k..], {})
    ensures SimpleWalk(table, q, resolving) && FromTo(q, p[0], p[|p| - 1]) && PassesStar(q)
    decreases |p|, 0
  {
    if k == 0 {
      assert p[0..] == p;
      SimpleAvoiding(table, p, {}, resolving);
      assert {} + resolving == resolving;
      q := p;
    } else {
      var j := 0;
      var resolving' := resolving;
      assert p[..k][0] == p[0];
      if p[0].Name? {
        j := AfterLast(table, p[1..], resolving, p[0].id);
        resolving' := resolving + {p[0].id};
        CutKeepsStar(table, p[1..], p[0].id, j);
      }
      var rest := p[1..][j..];
      var tail: seq<Node>;
      if p[0].Starred? && !PassesStar(rest) {
        tail := Shorten(table, rest, resolving');
      } else {
        tail := ShortenRest(table, p, k, j, resolving');
      }
      q := [p[0]] + tail;
      assert q[1..] == tail;
    }
  }

  lemma Slices<T>(p: seq<T>, k: nat, j: nat)
    requires 0 < k < |p| && j < |p[1..]|
    ensures var rest := p[1..][j..];
            && rest == p[j + 1..]
            && (j + 1 < k ==> rest[k - 1 - j..] == p[k..] && rest[..k - 1 - j] == p[..k][j + 1..])
            && (k <= j + 1 ==> rest == p[k..][j + 1 - k..])
  {
  }

  lemma NamesSuffix(table: Table, p: seq<Node>, k: nat)
    requires NamesStarFree(table, p) && k <= |p|
    ensures NamesStarFree(table, p[k..])
  {
  }

  lemma {:induction false} ShortenRest(table: Table, p: seq<Node>, k: nat, j: nat, resolving: set<string>)
    returns (q: seq<Node>)
    requires 0 < k < |p| && j < |p[1..]| && Walk(table, p[1..][j..]) && Avoids(p[1..][j..], resolving)
    requires PassesStar(p[1..][j..]) && NamesStarFree(table, p[..k]) && SimpleWalk(table, p[k..], {})
    ensures SimpleWalk(table, q, resolving) && FromTo(q, p[1..][j], p[|p| - 1]) && PassesStar(q)
    decreases |p[1..][j..]|, 1
  {
    var rest := p[1..][j..];
    Slices(p, k, j);
    if j + 1 < k {
      NamesSuffix(table, p[..k], j + 1);
      q := ShortenInto(table, rest, k - 1 - j, resolving);
    } else {
      SimpleSuffix(table, p[k..], {}, j + 1 - k);
      assert rest[0..] == rest && rest[..0] == [];
      q := ShortenInto(table, rest, 0, resolving);
    }
  }

  /** The first name of a walk that has a cycle through a star. */
  lemma {:induction false} FirstBadName(table: Table, p: seq<Node>) returns (k: nat)
    requires !NamesStarFree(table, p)
    ensures k < |p| && p[k].Name? && !StarFree(table, p[k].id) && NamesStarFree(table, p[..k])
    decreases |p|
  {
    var n := |p| - 1;
    if NamesStarFree(table, p[..n]) {
      k := n;
      assert forall i :: 0 <= i < n ==> p[..n][i] == p[i];
    } else {
      k := FirstBadName(table, p[..n]);
      assert p[..n][..k] == p[..k];
    }
  }

  lemma {:induction false} WalkSuffix(table: Table, p: seq<Node>, k: nat)
    requires Walk(table, p) && k < |p|
    ensures Walk(table, p[k..]) && (k > 0 ==> Step(table, p[k - 1], p[k]))
    decreases k
  {
    if k == 0 {
      assert p[0..] == p;
    } else {
      WalkSuffix(table, p[1..], k - 1);
      assert p[1..][k - 1..] == p[k..];
    }
  }

  /** A walk can be led on from its `k`-th node along another one. */
  lemma Reroute(table: Table, p: seq<Node>, k: nat, q: seq<Node>)
    requires Walk(table, p) && k < |p| && Walk(table, q) && q[0] == p[k]
    ensures var r := p[..k] + q;
            && Walk(table, r) && r[0] == p[0] && r[|r| - 1] == q[|q| - 1]
            && r[..k] == p[..k] && r[k..] == q && (PassesStar(q) ==> PassesStar(r))
  {
    WalkSuffix(table, p, k);
    if k > 0 { WalkPrefix(table, p, k); }
    JoinWalk(table, p[..k], q);
    if PassesStar(q) { JoinStars(p[..k], q); }
  }

  lemma HarmlessFinds(node: Node, table: Table, value: string, p: seq<Node>, k: nat)
    requires StarCyclesHarmless(table) && IsModuleName(value) && Walk(table, p) && FromTo(p, node, Text(value))
    requires k < |p| && p[k].Name? && !StarFree(table, p[k].id) && NamesStarFree(table, p[..k])
    ensures (value, true) in Literals(node, table, false, {})
  {
    WalkSuffix(table, p, k);
    assert FromTo(p[k..], p[k], Text(value));
    var q :| SimpleWalk(table, q, {}) && FromTo(q, p[k], Text(value)) && PassesStar(q);
    SimpleIsWalk(table, q, {});
    Reroute(table, p, k, q);
    AvoidsNothing(p[..k] + q);
    var s := ShortenInto(table, p[..k] + q, k, {});
    Complete(node, table, false, {}, s, value);
  }

  lemma LostIfHarmful(table: Table, id: string, value: string)
    requires !StarFree(table, id) && IsModuleName(value) && Reachable(table, Name(id), value)
    ensures StarredTo(table, Name(id), value)
  {
    var c :| Walk(table, c) && FromTo(c, table[id], Name(id)) && PassesStar(c);
    var p :| Walk(table, p) && FromTo(p, Name(id), Text(value));
    var start := [Name(id)] + c;
    assert start[1..] == c;
    assert |p| > 1;
    WalkSuffix(table, p, 1);
    JoinWalk(table, start, p[1..]);
    JoinStars(start, p[1..]);
    assert FromTo(start + p[1..], Name(id), Text(value));
  }

  /** No conditional occurrence is lost from any node exactly when the names that have a cycle
      through a star do no harm. */
  lemma NoneLostIffHarmless(table: Table)
    ensures NoneLost(table) <==> StarCyclesHarmless(table)
  {
    if StarCyclesHarmless(table) {
      forall node, value | IsModuleName(value) && StarredTo(table, node, value)
        ensures (value, true) in Literals(node, table, false, {})
      {
        var p :| Walk(table, p) && FromTo(p, node, Text(value)) && PassesStar(p);
        if NamesStarFree(table, p) {
          ConditionalFound(node, table, value, p);
        } else {
          var k := FirstBadName(table, p);
          HarmlessFinds(node, table, value, p, k);
        }
      }
    }
    if NoneLost(table) {
      forall id, value | !StarFree(table, id) && IsModuleName(value) && Reachable(table, Name(id), value)
        ensures SimplyStarredTo(table, Name(id), value)
      {
        LostIfHarmful(table, id, value);
        var p := Sound(Name(id), table, false, {}, (value, true));
      }
    }
  }

  /** On a cyclic table a conditional occurrence can be lost: `A = [*A, "core.x"]` reaches
      `core.x` through the star, but only the unconditional occurrence is reported. */
  lemma FlagLostOnCycle()
    ensures var list := Other([Starred(Name("A")), Text("core.x")]);
            var table: Table := map["A" := list];
            && ("core.x", true) !in Literals(Name("A"), table, false, {})
            && exists p :: Walk(table, p) && FromTo(p, Name("A"), Text("core.x")) && PassesStar(p)
  {
    var list := Other([Starred(Name("A")), Text("core.x")]);
    var table: Table := map["A" := list];
    var star := Starred(Name("A"));
    calc {
      Literals(Name("A"), table, false, {});
      { assert {} + {"A"} == {"A"}; }
      Literals(list, table, false, {"A"});
      AllLiterals([star, Text("core.x")], table, false, {"A"});
      { assert [star, Text("core.x")][1..] == [Text("core.x")]; }
      Literals(star, table, false, {"A"}) + AllLiterals([Text("core.x")], table, false, {"A"});
      { assert [Text("core.x")][1..] == []; }
      Literals(Text("core.x"), table, false, {"A"});
    }
    var tail := [list, Text("core.x")];
    var p := [Name("A"), list, star, Name("A")] + tail;
    assert Walk(table, tail) by { assert tail[1..] == [Text("core.x")]; }
    assert p[3..] == [Name("A")] + tail && p[3..][1..] == tail;
    assert p[2..][1..] == p[3..] && p[1..][1..] == p[2..];
    assert PassesStar(p[2..]);
    assert Walk(table, p[3..]) && Walk(table, p[2..]) && Walk(table, p[1..]);
    assert Walk(table, p) && PassesStar(p[1..]);
  }
}
