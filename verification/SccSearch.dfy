/** Tarjan's strongly connected components as the recursive search over mutable
    dictionaries that the dependency report runs. */
module SccSearch {
  import opened Ordering
  import opened TarjanInvariant

  /** `c` lists, in order and without repetition, at least two modules, and they are
      exactly the modules on a common cycle with each of its members. */
  ghost predicate IsComponent<V(!new)>(leq: (V, V) -> bool, reach: (V, V) -> bool, c: seq<V>) {
    && |c| > 1
    && Sorted(leq, c)
    && (forall i, j :: 0 <= i < j < |c| ==> c[i] != c[j])
    && forall x, y :: x in c ==> (y in c <==> Mutual(reach, x, y))
  }

  /** No list is repeated, and different lists have no common member. */
  ghost predicate PairwiseDisjoint<V(!new)>(cs: seq<seq<V>>) {
    && (forall i, j :: 0 <= i < j < |cs| ==> cs[i] != cs[j])
    && (forall c, d, x :: c in cs && d in cs && x in c && x in d ==> c == d)
  }

  ghost predicate Covered<V(!new)>(cs: seq<seq<V>>, x: V) {
    exists c :: c in cs && x in c
  }

  /** Every cycle through a module of `done` is listed, and nothing is listed twice. */
  ghost predicate Listed<V(!new)>(leq: (V, V) -> bool, reach: (V, V) -> bool, cs: seq<seq<V>>, done: set<V>) {
    && (forall c :: c in cs ==> IsComponent(leq, reach, c))
    && (forall c, x :: c in cs && x in c ==> x in done)
    && PairwiseDisjoint(cs)
    && (forall x, y {:trigger Mutual(reach, x, y)} :: x in done && x != y && Mutual(reach, x, y) ==> Covered(cs, x))
  }

  /** The stack lists `on` in the order of the numbering. */
  ghost predicate StackLists<V(!new)>(idx: map<V, nat>, on: set<V>, stack: seq<V>) {
    && on <= idx.Keys
    && (forall i :: 0 <= i < |stack| ==> stack[i] in on)
    && (forall x {:trigger x in stack} :: x in on ==> x in stack)
    && (forall i, j :: 0 <= i < j < |stack| ==> idx[stack[i]] < idx[stack[j]])
  }

  /** `component` lists what has been popped from a stack that listed `was`: the youngest
      entries, each once. */
  ghost predicate Popping<V(!new)>(idx: map<V, nat>, was: set<V>, on: set<V>, stack: seq<V>, component: seq<V>) {
    && StackLists(idx, on, stack) && on <= was <= idx.Keys
    && (forall x {:trigger x in component} :: x in component <==> x in was - on)
    && (forall x, y :: x in on && y in was - on ==> idx[x] < idx[y])
    && (forall i, j :: 0 <= i < j < |component| ==> component[i] != component[j])
  }

  lemma PopStack<V(!new)>(idx: map<V, nat>, on: set<V>, stack: seq<V>)
    requires StackLists(idx, on, stack) && stack != []
    ensures var member := stack[|stack| - 1];
            && member in on && StackLists(idx, on - {member}, stack[..|stack| - 1])
            && forall x :: x in on && x != member ==> idx[x] < idx[member]
  {
    var n := |stack| - 1;
    var member := stack[n];
    forall x | x in on && x != member
      ensures idx[x] < idx[member] && x in stack[..n]
    {
      assert x in stack;
      var i :| 0 <= i < |stack| && stack[i] == x;
      assert stack[..n][i] == x;
    }
  }

  lemma PopOne<V(!new)>(idx: map<V, nat>, was: set<V>, on: set<V>, stack: seq<V>, component: seq<V>)
    requires Popping(idx, was, on, stack, component) && stack != []
    ensures var member := stack[|stack| - 1];
            Popping(idx, was, on - {member}, stack[..|stack| - 1], component + [member])
  {
    PopStack(idx, on, stack);
    assert stack[|stack| - 1] !in component;
  }

  /** Once `m` is popped, its segment is. */
  lemma PopLast<V(!new)>(idx: map<V, nat>, was: set<V>, on: set<V>, stack: seq<V>, m: V)
    requires StackLists(idx, on, stack) && on <= was <= idx.Keys && m in on && stack != []
    requires forall x, y :: x in on && y in was - on ==> idx[x] < idx[y]
    ensures stack[|stack| - 1] == m ==>
              was - (on - {m}) == Segment(idx, was, m) && on - {m} == was - Segment(idx, was, m)
    ensures stack[|stack| - 1] != m ==> m in on - {stack[|stack| - 1]}
  {
    PopStack(idx, on, stack);
  }

  lemma ReachOnward<V(!new)>(link: (V, V) -> bool, reach: (V, V) -> bool, open: set<V>, m: V, target: V)
    requires IsClosure(link, reach) && link(m, target) && forall g :: g in open ==> reach(g, m)
    ensures forall g :: g in open ==> reach(g, target)
  {
    forall g | g in open
      ensures reach(g, target)
    {
      assert Via(g, m, target);
    }
  }

  lemma {:induction false} CountDistinct<V(!new)>(s: seq<V>, x: V)
    requires forall i, j :: 0 <= i < j < |s| ==> s[i] != s[j]
    ensures multiset(s)[x] <= 1
  {
    if s != [] {
      assert s == [s[0]] + s[1..];
      CountDistinct(s[1..], x);
      assert s[0] !in s[1..];
    }
  }

  lemma DistinctTransfers<V(!new)>(a: seq<V>, b: seq<V>)
    requires forall i, j :: 0 <= i < j < |a| ==> a[i] != a[j]
    requires multiset(a) == multiset(b)
    ensures forall i, j :: 0 <= i < j < |b| ==> b[i] != b[j]
  {
    forall i, j | 0 <= i < j < |b|
      ensures b[i] != b[j]
    {
      CountDistinct(a, b[i]);
      assert b == b[..i] + [b[i]] + b[i + 1..j] + [b[j]] + b[j + 1..];
    }
  }

  /** Appending a closed component (or leaving out a single module) keeps the list exact. */
  lemma ListComponent<V(!new)>(leq: (V, V) -> bool, reach: (V, V) -> bool, cs: seq<seq<V>>, done: set<V>,
                               segment: set<V>, c: seq<V>)
    requires Listed(leq, reach, cs, done) && done !! segment
    requires Sorted(leq, c) && (forall i, j :: 0 <= i < j < |c| ==> c[i] != c[j])
    requires forall x :: x in c <==> x in segment
    requires forall x, y :: x in segment ==> (y in segment <==> Mutual(reach, x, y))
    ensures Listed(leq, reach, if |c| > 1 then cs + [c] else cs, done + segment)
  {
    var cs' := if |c| > 1 then cs + [c] else cs;
    assert forall d :: d in cs' <==> d in cs || (|c| > 1 && d == c);
    assert |c| > 1 ==> c[0] in c;
    forall x, y | x in done + segment && x != y && Mutual(reach, x, y)
      ensures Covered(cs', x)
    {
      if x in done {
        assert Covered(cs, x);
        var d :| d in cs && x in d;
        assert d in cs';
      } else {
        assert x in c && y in c;
        var i :| 0 <= i < |c| && c[i] == x;
        var j :| 0 <= j < |c| && c[j] == y;
        assert i != j && cs'[|cs|] == c;
      }
    }
  }

  /** Python's `sorted` on a set. */
  method SortedElements<V(!new, ==)>(leq: (V, V) -> bool, s: set<V>) returns (r: seq<V>)
    requires TotalOrder(leq)
    ensures Sorted(leq, r)
    ensures forall x :: x in r <==> x in s
    ensures forall i, j :: 0 <= i < j < |r| ==> r[i] != r[j]
  {
    var rest, list: seq<V> := s, [];
    while rest != {}
      invariant rest <= s
      invariant forall x :: x in list <==> x in s - rest
      invariant forall i, j :: 0 <= i < j < |list| ==> list[i] != list[j]
      decreases rest
    {
      var x :| x in rest;
      list := list + [x];
      rest := rest - {x};
    }
    r := Sort(leq, list);
    SortSorted(leq, list);
    DistinctTransfers(list, r);
  }

  function Min(a: nat, b: nat): nat { if a <= b then a else b }

  /** The value of the search: `on` are the modules on the stack, `order` the visited
      modules in order of discovery. */
  datatype State<V> = State(
    idx: map<V, nat>, low: map<V, nat>, stack: seq<V>, on: set<V>, components: seq<seq<V>>, order: seq<V>)

  /** What holds between any two steps; `open` are the modules whose visit is running. */
  ghost predicate Valid<V(!new)>(link: (V, V) -> bool, reach: (V, V) -> bool, leq: (V, V) -> bool, s: State<V>,
                                 open: set<V>) {
    && s.low.Keys == s.idx.Keys
    && Numbered(s.idx, s.order)
    && Inv(link, reach, s.idx, s.on, open)
    && StackLists(s.idx, s.on, s.stack)
    && Listed(leq, reach, s.components, s.idx.Keys - s.on)
  }

  /** From `s` to `t` no number or low-link changed, and whatever joined the stack is
      numbered later. */
  ghost predicate Grows<V(!new)>(s: State<V>, t: State<V>, except: set<V>) {
    && s.idx.Keys <= t.idx.Keys && s.low.Keys <= t.low.Keys && |s.order| <= |t.order|
    && (forall x :: x in s.idx ==> t.idx[x] == s.idx[x])
    && (forall x :: x in s.low && x !in except ==> t.low[x] == s.low[x])
    && s.on <= t.on <= t.idx.Keys
    && (forall x :: x in t.on && x !in s.on ==> |s.order| <= t.idx[x])
  }

  /** The low-link of `m` is the number of a stack entry that `m` reaches. */
  ghost predicate LowWitness<V(!new)>(reach: (V, V) -> bool, s: State<V>, m: V) {
    exists w :: w in s.on && w in s.idx && m in s.low && s.idx[w] == s.low[m] && reach(m, w)
  }

  /** The low-link of `m` is at most the number of every entry of `below` that is linked
      from the stack above `below`, `m` itself apart. */
  ghost predicate LowBounds<V(!new)>(link: (V, V) -> bool, s: State<V>, m: V, below: set<V>)
    requires m in s.low && below <= s.idx.Keys
  {
    forall x, y :: x in s.on && x !in below && x != m && y in below && link(x, y) ==> s.low[m] <= s.idx[y]
  }

  /** What a visit of `m` has established once its successors `seen` were handled; `below`
      is the stack under `m`. */
  ghost predicate Running<V(!new)>(link: (V, V) -> bool, reach: (V, V) -> bool, s: State<V>, m: V, below: set<V>,
                                   seen: set<V>) {
    && m in s.on && m !in below && below <= s.on <= s.idx.Keys
    && m in s.low && s.low[m] <= s.idx[m] && LowWitness(reach, s, m)
    && (forall x :: x in s.on ==> (x in below <==> s.idx[x] < s.idx[m]))
    && seen <= s.idx.Keys
    && (forall y :: y in seen && y in below ==> s.low[m] <= s.idx[y])
    && LowBounds(link, s, m, below)
  }

  /** What a finished visit of `m` guarantees. */
  ghost predicate Visited<V(!new)>(link: (V, V) -> bool, reach: (V, V) -> bool, s: State<V>, t: State<V>, m: V) {
    && m in t.idx && Grows(s, t, {}) && |s.order| <= t.idx[m]
    && m in t.low && t.low[m] <= t.idx[m]
    && (t.low[m] == t.idx[m] || LowWitness(reach, t, m))
    && (forall x, y :: x in t.on && x !in s.on && y in s.on && link(x, y) ==> t.low[m] <= t.idx[y])
  }

  // ----- entering a module -----

  function Entered<V>(s: State<V>, m: V): State<V> {
    State(s.idx[m := |s.order|], s.low[m := |s.order|], s.stack + [m], s.on + {m}, s.components, s.order + [m])
  }

  lemma EnterValid<V(!new)>(link: (V, V) -> bool, reach: (V, V) -> bool, leq: (V, V) -> bool, s: State<V>,
                            open: set<V>, m: V)
    requires IsClosure(link, reach) && Valid(link, reach, leq, s, open) && m !in s.idx
    requires forall g :: g in open ==> reach(g, m)
    ensures Valid(link, reach, leq, Entered(s, m), open + {m})
  {
    Enter(link, reach, s.idx, |s.order|, s.on, open, m);
    var t := Entered(s, m);
    assert t.idx.Keys - t.on == s.idx.Keys - s.on;
    assert StackLists(t.idx, t.on, t.stack) by {
      assert t.stack[|s.stack|] == m;
      assert forall x {:trigger x in t.stack} :: x in s.on ==> x in s.stack;
    }
  }

  lemma EnterRunning<V(!new)>(link: (V, V) -> bool, reach: (V, V) -> bool, s: State<V>, m: V)
    requires Numbered(s.idx, s.order) && s.on <= s.idx.Keys == s.low.Keys && m !in s.idx && reach(m, m)
    ensures Running(link, reach, Entered(s, m), m, s.on, {})
    ensures Grows(s, Entered(s, m), {m})
  {
    assert m in Entered(s, m).on;
  }

  // ----- following one link of a running visit -----

  function Lowered<V>(s: State<V>, m: V, v: nat): State<V>
    requires m in s.low
  {
    s.(low := s.low[m := Min(s.low[m], v)])
  }

  lemma LoweredValid<V(!new)>(link: (V, V) -> bool, reach: (V, V) -> bool, leq: (V, V) -> bool,
                              s: State<V>, open: set<V>, m: V, v: nat)
    requires Valid(link, reach, leq, s, open) && m in s.low
    ensures Valid(link, reach, leq, Lowered(s, m, v), open)
  {
  }

  lemma LoweredGrows<V(!new)>(b: State<V>, s: State<V>, except: set<V>, m: V, v: nat)
    requires Grows(b, s, except) && except <= {m} && m in s.low
    ensures Grows(b, Lowered(s, m, v), {m})
  {
  }

  /** The target is on the stack. */
  lemma FollowStacked<V(!new)>(link: (V, V) -> bool, reach: (V, V) -> bool, s: State<V>, m: V, below: set<V>,
                               seen: set<V>, target: V)
    requires IsClosure(link, reach) && Running(link, reach, s, m, below, seen)
    requires link(m, target) && target in s.on
    ensures Running(link, reach, Lowered(s, m, s.idx[target]), m, below, seen + {target})
  {
    assert reach(m, target);
    var w :| w in s.on && w in s.idx && m in s.low && s.idx[w] == s.low[m] && reach(m, w);
    var t := Lowered(s, m, s.idx[target]);
    assert LowWitness(reach, t, m) by {
      var v := if s.low[m] <= s.idx[target] then w else target;
      assert v in t.on && t.idx[v] == t.low[m] && reach(m, v);
    }
  }

  /** The target was unvisited, and its visit has returned in `t`. */
  lemma FollowVisited<V(!new)>(link: (V, V) -> bool, reach: (V, V) -> bool, s: State<V>, t: State<V>, m: V,
                               below: set<V>, seen: set<V>, target: V)
    requires IsClosure(link, reach) && Running(link, reach, s, m, below, seen)
    requires Numbered(s.idx, s.order) && link(m, target) && target !in s.idx
    requires Visited(link, reach, s, t, target)
    ensures m in t.low && target in t.low
    ensures Running(link, reach, Lowered(t, m, t.low[target]), m, below, seen + {target})
  {
    var u := Lowered(t, m, t.low[target]);
    assert reach(m, target);
    var w :| w in s.on && w in s.idx && m in s.low && s.idx[w] == s.low[m] && reach(m, w);
    assert LowWitness(reach, u, m) by {
      if t.low[m] <= t.low[target] {
        assert w in u.on && u.idx[w] == u.low[m] && reach(m, w);
      } else {
        var v :| v in t.on && v in t.idx && target in t.low && t.idx[v] == t.low[target] && reach(target, v);
        assert Via(m, target, v);
        assert v in u.on && u.idx[v] == u.low[m] && reach(m, v);
      }
    }
  }

  // ----- leaving a module -----

  /** The low-link is below the module's own number. */
  lemma LeaveValid<V(!new)>(link: (V, V) -> bool, reach: (V, V) -> bool, leq: (V, V) -> bool, s: State<V>,
                            open: set<V>, m: V)
    requires IsClosure(link, reach) && Valid(link, reach, leq, s, open + {m})
    requires LowWitness(reach, s, m) && s.low[m] < s.idx[m]
    requires forall y :: link(m, y) ==> y in s.idx
    ensures Valid(link, reach, leq, s, open)
  {
    var w :| w in s.on && w in s.idx && m in s.low && s.idx[w] == s.low[m] && reach(m, w);
    Leave(link, reach, s.idx, s.on, open, m, w);
  }

  lemma RunningClosable<V(!new)>(link: (V, V) -> bool, reach: (V, V) -> bool, s: State<V>, open: set<V>, m: V,
                                 below: set<V>, seen: set<V>)
    requires Inv(link, reach, s.idx, s.on, open + {m}) && Running(link, reach, s, m, below, seen)
    requires open <= below && s.low[m] == s.idx[m]
    requires forall y :: link(m, y) ==> y in seen
    ensures Closable(link, reach, s.idx, s.on, open, m)
  {
    var segment := Segment(s.idx, s.on, m);
    forall x, y | x in segment && y in s.on - segment
      ensures !link(x, y)
    {
      assert y in below && x !in below;
    }
  }

  /** The component of a closable `m`, listed by `c`, leaves the stack. */
  lemma CloseValid<V(!new)>(link: (V, V) -> bool, reach: (V, V) -> bool, leq: (V, V) -> bool, s: State<V>, t: State<V>,
                            open: set<V>, m: V, c: seq<V>)
    requires IsClosure(link, reach) && Valid(link, reach, leq, s, open + {m})
    requires Closable(link, reach, s.idx, s.on, open, m)
    requires Sorted(leq, c) && (forall i, j :: 0 <= i < j < |c| ==> c[i] != c[j])
    requires forall x :: x in c <==> x in Segment(s.idx, s.on, m)
    requires t.idx == s.idx && t.low == s.low && t.order == s.order
    requires t.on == s.on - Segment(s.idx, s.on, m) && StackLists(t.idx, t.on, t.stack)
    requires t.components == if |c| > 1 then s.components + [c] else s.components
    ensures Valid(link, reach, leq, t, open)
  {
    var segment := Segment(s.idx, s.on, m);
    Close(link, reach, s.idx, s.on, open, m);
    forall x, y | x in segment
      ensures y in segment <==> Mutual(reach, x, y)
    {
      SegmentIsComponent(link, reach, s.idx, s.on, open, m, x, y);
    }
    ListComponent(leq, reach, s.components, s.idx.Keys - s.on, segment, c);
    assert t.idx.Keys - t.on == s.idx.Keys - s.on + segment;
  }

  lemma GrowsTrans<V(!new)>(s: State<V>, t: State<V>, u: State<V>, m: V)
    requires Grows(s, t, {m}) && Grows(t, u, {m})
    ensures Grows(s, u, {m})
    ensures m !in s.low ==> Grows(s, u, {})
  {
  }

  lemma LeaveVisited<V(!new)>(link: (V, V) -> bool, reach: (V, V) -> bool, s: State<V>, t: State<V>, m: V, seen: set<V>)
    requires Running(link, reach, t, m, s.on, seen) && Grows(s, t, {})
    requires forall y :: link(m, y) ==> y in seen
    ensures Visited(link, reach, s, t, m)
  {
  }

  lemma CloseVisited<V(!new)>(link: (V, V) -> bool, reach: (V, V) -> bool, s: State<V>, t: State<V>, u: State<V>, m: V,
                              seen: set<V>)
    requires Running(link, reach, t, m, s.on, seen) && Grows(s, t, {}) && t.low[m] == t.idx[m]
    requires u.idx == t.idx && u.low == t.low && u.order == t.order && u.on == t.on - Segment(t.idx, t.on, m)
    ensures Visited(link, reach, s, u, m)
  {
    forall x
      ensures x in u.on <==> x in s.on
    {
    }
  }

  ghost function Prefix<V>(s: seq<V>, i: nat): set<V>
    requires i <= |s|
  {
    set j | 0 <= j < i :: s[j]
  }

  lemma PrefixStep<V>(s: seq<V>, i: nat)
    requires i < |s|
    ensures Prefix(s, i + 1) == Prefix(s, i) + {s[i]}
  {
  }

  // ----- the search over all modules -----

  ghost predicate FirstNumbered<V(!new)>(modules: seq<V>, i: nat, idx: map<V, nat>) {
    forall j :: 0 <= j < i && j < |modules| ==> modules[j] in idx
  }

  lemma NumberedNext<V(!new)>(modules: seq<V>, i: nat, s: State<V>, t: State<V>)
    requires FirstNumbered(modules, i, s.idx) && i < |modules|
    requires s.idx.Keys <= t.idx.Keys && modules[i] in t.idx
    ensures FirstNumbered(modules, i + 1, t.idx)
  {
  }

  lemma AllNumbered<V(!new)>(modules: seq<V>, nodes: set<V>, idx: map<V, nat>)
    requires FirstNumbered(modules, |modules|, idx) && forall x :: x in nodes ==> x in modules
    ensures nodes <= idx.Keys
  {
    forall x | x in nodes
      ensures x in idx
    {
      var j :| 0 <= j < |modules| && modules[j] == x;
    }
  }

  /** With no visit running and all modules numbered, every component is listed. */
  lemma SearchDone<V(!new)>(link: (V, V) -> bool, reach: (V, V) -> bool, leq: (V, V) -> bool, s: State<V>,
                            nodes: set<V>)
    requires IsClosure(link, reach) && Valid(link, reach, leq, s, {}) && s.idx.Keys == nodes
    ensures s.on == {} && Listed(leq, reach, s.components, nodes)
  {
    NothingOpen(link, reach, s.idx, s.on);
    assert s.idx.Keys - s.on == nodes;
  }

  class Search<V(!new, ==)> {
    const leq: (V, V) -> bool
    const nodes: set<V>
    const adjacency: map<V, set<V>>
    ghost const link: (V, V) -> bool
    ghost const reach: (V, V) -> bool

    var nextIndex: nat
    var indices: map<V, nat>
    var lowlinks: map<V, nat>
    var stack: seq<V>
    var onStack: set<V>
    var components: seq<seq<V>>
    ghost var order: seq<V>  // the visited modules in order of discovery

    ghost predicate Graph() {
      && TotalOrder(leq)
      && IsClosure(link, reach)
      && (forall x, y {:trigger link(x, y)} :: link(x, y) <==> x in adjacency && y in adjacency[x])
      && (forall x, y {:trigger link(x, y)} :: link(x, y) ==> y in nodes)
    }

    ghost function View(): State<V>
      reads this
    {
      State(indices, lowlinks, stack, onStack, components, order)
    }

    ghost predicate Ok(open: set<V>)
      reads this
    {
      && nextIndex == |order|
      && indices.Keys <= nodes
      && Valid(link, reach, leq, View(), open)
    }

    constructor (leq: (V, V) -> bool, nodes: set<V>, adjacency: map<V, set<V>>,
                 ghost link: (V, V) -> bool, ghost reach: (V, V) -> bool)
      ensures this.leq == leq && this.nodes == nodes && this.adjacency == adjacency
      ensures this.link == link && this.reach == reach
      ensures Ok({}) && indices == map[]
    {
      this.leq, this.nodes, this.adjacency := leq, nodes, adjacency;
      this.link, this.reach := link, reach;
      nextIndex, indices, lowlinks := 0, map[], map[];
      stack, onStack, components, order := [], {}, [], [];
    }

    method Visit(m: V, ghost open: set<V>)
      requires Graph() && Ok(open)
      requires m in nodes && m !in indices
      requires forall g :: g in open ==> reach(g, m)
      modifies this
      ensures Ok(open) && Visited(link, reach, old(View()), View(), m)
      decreases nodes - indices.Keys, 1
    {
      ghost var before := View();
      EnterModule(m, open);
      ghost var seen := Explore(m, open + {m}, before);
      ghost var after := View();
      if lowlinks[m] != indices[m] {
        LeaveValid(link, reach, leq, after, open, m);
        LeaveVisited(link, reach, before, after, m, seen);
        return;
      }
      RunningClosable(link, reach, after, open, m, before.on, seen);
      CloseComponent(m, open);
      CloseVisited(link, reach, before, after, View(), m, seen);
    }

    method EnterModule(m: V, ghost open: set<V>)
      requires Graph() && Ok(open)
      requires m in nodes && m !in indices
      requires forall g :: g in open ==> reach(g, m)
      modifies this
      ensures Ok(open + {m}) && View() == Entered(old(View()), m)
      ensures Running(link, reach, View(), m, old(onStack), {}) && Grows(old(View()), View(), {m})
    {
      EnterValid(link, reach, leq, View(), open, m);
      EnterRunning(link, reach, View(), m);
      indices := indices[m := nextIndex];
      lowlinks := lowlinks[m := nextIndex];
      nextIndex := nextIndex + 1;
      stack := stack + [m];
      onStack := onStack + {m};
      order := order + [m];
    }

    method Targets(m: V) returns (targets: seq<V>)
      requires Graph()
      ensures forall y :: link(m, y) ==> y in targets
      ensures forall i :: 0 <= i < |targets| ==> link(m, targets[i])
      ensures Sorted(leq, targets) && forall i, j :: 0 <= i < j < |targets| ==> targets[i] != targets[j]
    {
      targets := SortedElements(leq, if m in adjacency then adjacency[m] else {});
      assert forall i :: 0 <= i < |targets| ==> targets[i] in targets;
    }

    /** Follows every link of `m`, in sorted order. */
    method Explore(m: V, ghost open: set<V>, ghost before: State<V>) returns (ghost seen: set<V>)
      requires Graph() && Ok(open) && Running(link, reach, View(), m, before.on, {})
      requires m !in before.low && Grows(before, View(), {m})
      requires forall g :: g in open ==> reach(g, m)
      modifies this
      ensures Ok(open) && Grows(before, View(), {})
      ensures Running(link, reach, View(), m, before.on, seen)
      ensures forall y :: link(m, y) ==> y in seen
      decreases nodes - indices.Keys, 3
    {
      var targets := Targets(m);
      seen := Prefix(targets, 0);
      for i := 0 to |targets|
        invariant Ok(open) && seen == Prefix(targets, i) && Running(link, reach, View(), m, before.on, seen)
        invariant Grows(before, View(), {m}) && old(indices.Keys) <= indices.Keys
      {
        ghost var now := View();
        assert targets[i] in targets;
        Follow(m, targets[i], open, before.on, seen);
        GrowsTrans(before, now, View(), m);
        PrefixStep(targets, i);
        seen := seen + {targets[i]};
      }
    }

    /** One successor of a running visit. */
    method Follow(m: V, target: V, ghost open: set<V>, ghost below: set<V>, ghost seen: set<V>)
      requires Graph() && Ok(open) && Running(link, reach, View(), m, below, seen)
      requires link(m, target)
      requires forall g :: g in open ==> reach(g, m)
      modifies this
      ensures Ok(open) && Running(link, reach, View(), m, below, seen + {target})
      ensures Grows(old(View()), View(), {m})
      decreases nodes - indices.Keys, 2
    {
      ghost var before := View();
      if target !in indices {
        ReachOnward(link, reach, open, m, target);
        Visit(target, open);
        FollowVisited(link, reach, before, View(), m, below, seen, target);
        LowerLink(before, m, lowlinks[target], open);
      } else if target in onStack {
        FollowStacked(link, reach, before, m, below, seen, target);
        LowerLink(before, m, indices[target], open);
      }
    }

    method LowerLink(ghost before: State<V>, m: V, number: nat, ghost open: set<V>)
      requires Ok(open) && m in lowlinks && Grows(before, View(), {})
      modifies this`lowlinks
      ensures Ok(open) && View() == Lowered(old(View()), m, number) && Grows(before, View(), {m})
    {
      LoweredValid(link, reach, leq, View(), open, m, number);
      LoweredGrows(before, View(), {}, m, number);
      lowlinks := lowlinks[m := Min(lowlinks[m], number)];
    }

    /** Pops the stack down to `m`. */
    method PopDown(m: V) returns (component: seq<V>)
      requires StackLists(indices, onStack, stack) && m in onStack
      modifies this`stack, this`onStack
      ensures StackLists(indices, onStack, stack)
      ensures onStack == old(onStack) - Segment(indices, old(onStack), m)
      ensures forall x :: x in component <==> x in Segment(indices, old(onStack), m)
      ensures forall i, j :: 0 <= i < j < |component| ==> component[i] != component[j]
    {
      component := [];
      while stack != []
        invariant Popping(indices, old(onStack), onStack, stack, component) && m in onStack && m in stack
      {
        var member := stack[|stack| - 1];
        PopOne(indices, old(onStack), onStack, stack, component);
        PopLast(indices, old(onStack), onStack, stack, m);
        stack := stack[..|stack| - 1];
        onStack := onStack - {member};
        component := component + [member];
        if member == m { break; }
      }
    }

    /** What lies above `m` on the stack is its component; single modules are not reported. */
    method CloseComponent(m: V, ghost open: set<V>)
      requires Graph() && Ok(open + {m})
      requires Closable(link, reach, indices, onStack, open, m)
      modifies this`stack, this`onStack, this`components
      ensures Ok(open) && onStack == old(onStack) - Segment(indices, old(onStack), m)
    {
      var component := PopDown(m);
      var c := Sort(leq, component);
      SortSorted(leq, component);
      DistinctTransfers(component, c);
      if |component| > 1 {
        components := components + [c];
      }
      CloseValid(link, reach, leq, old(View()), View(), open, m, c);
    }

    /** Visits every module; each is numbered exactly once, and every component is listed. */
    method Run()
      requires Graph() && Ok({}) && indices == map[]
      modifies this
      ensures Ok({}) && indices.Keys == nodes && onStack == {}
      ensures Listed(leq, reach, components, nodes)
    {
      var modules := SortedElements(leq, nodes);
      for i := 0 to |modules|
        invariant Ok({}) && FirstNumbered(modules, i, indices)
      {
        assert modules[i] in modules;
        ghost var before := View();
        if modules[i] !in indices {
          Visit(modules[i], {});
        }
        NumberedNext(modules, i, before, View());
      }
      AllNumbered(modules, nodes, indices);
      SearchDone(link, reach, leq, View(), nodes);
    }
  }
}
