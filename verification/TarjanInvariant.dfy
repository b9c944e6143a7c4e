/** What Tarjan's search keeps true, stated on values: the numbering `idx`, the set `on`
    of modules on the stack and the modules `open` whose visit is still running. A module
    that is numbered and off the stack belongs to a closed component. The lemmas hold for
    any relation `reach` that is the reflexive-transitive closure of `link`. */
module TarjanInvariant {

  /** A mention of `Via(x, y, z)` asks for the composition of two walks, one of `Inside(s)`
      for the fact that no walk leaves `s`; the verifier uses neither fact unasked. */
  ghost predicate Via<V>(x: V, y: V, z: V) { true }

  ghost predicate Inside<V>(s: set<V>) { true }

  ghost predicate IsClosure<V(!new)>(link: (V, V) -> bool, reach: (V, V) -> bool) {
    && (forall x, y :: x == y || link(x, y) ==> reach(x, y))
    && (forall x, y, z {:trigger Via(x, y, z)} :: reach(x, y) && reach(y, z) ==> reach(x, z))
    && (forall s {:trigger Inside(s)} :: Closed(link, s) ==> forall x, y :: x in s && reach(x, y) ==> y in s)
  }

  ghost predicate Closed<V(!new)>(link: (V, V) -> bool, s: set<V>) {
    forall x, y :: x in s && link(x, y) ==> y in s
  }

  ghost predicate Mutual<V>(reach: (V, V) -> bool, x: V, y: V) {
    reach(x, y) && reach(y, x)
  }

  /** The numbering is the position in `order`: each visited module has its own number, and
      the numbers in use are 0, 1, ..., |order| - 1. */
  ghost predicate Numbered<V(!new)>(idx: map<V, nat>, order: seq<V>) {
    && (forall x :: x in idx ==> idx[x] < |order| && order[idx[x]] == x)
    && (forall k :: 0 <= k < |order| ==> order[k] in idx && idx[order[k]] == k)
  }

  /** A finished module has no unvisited successor; no link leaves the closed components. */
  ghost predicate Colored<V(!new)>(link: (V, V) -> bool, idx: map<V, nat>, on: set<V>, open: set<V>) {
    && open <= on <= idx.Keys
    && (forall x, y :: x in idx && x !in open && link(x, y) ==> y in idx)
    && Closed(link, idx.Keys - on)
  }

  /** On the stack, the earlier module reaches the later one. */
  ghost predicate Forward<V(!new)>(reach: (V, V) -> bool, idx: map<V, nat>, on: set<V>)
    requires on <= idx.Keys
  {
    forall x, y {:trigger reach(x, y)} :: x in on && y in on && idx[x] <= idx[y] ==> reach(x, y)
  }

  ghost predicate ReachesOpen<V(!new)>(reach: (V, V) -> bool, idx: map<V, nat>, open: set<V>, y: V)
    requires open <= idx.Keys && y in idx
  {
    exists g :: g in open && idx[g] <= idx[y] && reach(y, g)
  }

  /** From every stack entry some earlier, still running visit is reachable. */
  ghost predicate Backward<V(!new)>(reach: (V, V) -> bool, idx: map<V, nat>, on: set<V>, open: set<V>)
    requires on <= idx.Keys && open <= idx.Keys
  {
    forall y {:trigger ReachesOpen(reach, idx, open, y)} :: y in on ==> ReachesOpen(reach, idx, open, y)
  }

  ghost predicate Inv<V(!new)>(link: (V, V) -> bool, reach: (V, V) -> bool, idx: map<V, nat>, on: set<V>,
                               open: set<V>) {
    && Colored(link, idx, on, open)
    && Forward(reach, idx, on)
    && Backward(reach, idx, on, open)
  }

  /** Entering `m` from a running visit: every stack entry reaches it. */
  lemma EnterForward<V(!new)>(link: (V, V) -> bool, reach: (V, V) -> bool, idx: map<V, nat>, n: nat, on: set<V>,
                              open: set<V>, m: V)
    requires IsClosure(link, reach)
    requires open <= on <= idx.Keys && m !in idx
    requires forall x :: x in idx ==> idx[x] < n
    requires Forward(reach, idx, on) && Backward(reach, idx, on, open)
    requires forall g :: g in open ==> reach(g, m)
    ensures Forward(reach, idx[m := n], on + {m})
  {
    forall y | y in on
      ensures reach(y, m)
    {
      assert ReachesOpen(reach, idx, open, y);
      var g :| g in open && idx[g] <= idx[y] && reach(y, g);
      assert Via(y, g, m);
    }
  }

  lemma EnterBackward<V(!new)>(reach: (V, V) -> bool, idx: map<V, nat>, n: nat, on: set<V>, open: set<V>, m: V)
    requires open <= on <= idx.Keys && m !in idx && reach(m, m)
    requires Backward(reach, idx, on, open)
    ensures Backward(reach, idx[m := n], on + {m}, open + {m})
  {
    forall y | y in on + {m}
      ensures ReachesOpen(reach, idx[m := n], open + {m}, y)
    {
      if y == m {
        assert m in open + {m};
      } else {
        assert ReachesOpen(reach, idx, open, y);
        var g :| g in open && idx[g] <= idx[y] && reach(y, g);
        assert g in open + {m};
      }
    }
  }

  lemma Enter<V(!new)>(link: (V, V) -> bool, reach: (V, V) -> bool, idx: map<V, nat>, n: nat, on: set<V>, open: set<V>,
                       m: V)
    requires IsClosure(link, reach)
    requires Inv(link, reach, idx, on, open) && m !in idx
    requires forall x :: x in idx ==> idx[x] < n
    requires forall g :: g in open ==> reach(g, m)
    ensures Inv(link, reach, idx[m := n], on + {m}, open + {m})
  {
    EnterForward(link, reach, idx, n, on, open, m);
    EnterBackward(reach, idx, n, on, open, m);
    assert idx[m := n].Keys - (on + {m}) == idx.Keys - on;
  }

  lemma LeaveBackward<V(!new)>(link: (V, V) -> bool, reach: (V, V) -> bool, idx: map<V, nat>, on: set<V>, open: set<V>,
                               m: V, w: V)
    requires IsClosure(link, reach)
    requires open + {m} <= on <= idx.Keys
    requires Backward(reach, idx, on, open + {m})
    requires w in on && idx[w] < idx[m] && reach(m, w)
    ensures Backward(reach, idx, on, open)
  {
    assert ReachesOpen(reach, idx, open + {m}, w);
    var g :| g in open + {m} && idx[g] <= idx[w] && reach(w, g);
    assert g in open && Via(m, w, g);
    forall y | y in on
      ensures ReachesOpen(reach, idx, open, y)
    {
      assert ReachesOpen(reach, idx, open + {m}, y);
      var h :| h in open + {m} && idx[h] <= idx[y] && reach(y, h);
      if h == m {
        assert Via(y, m, g);
      }
    }
  }

  /** `m` is finished, and reaches a stack entry `w` older than itself: it stays on the stack. */
  lemma Leave<V(!new)>(link: (V, V) -> bool, reach: (V, V) -> bool, idx: map<V, nat>, on: set<V>, open: set<V>, m: V,
                       w: V)
    requires IsClosure(link, reach)
    requires Inv(link, reach, idx, on, open + {m})
    requires forall y :: link(m, y) ==> y in idx
    requires w in on && idx[w] < idx[m] && reach(m, w)
    ensures Inv(link, reach, idx, on, open)
  {
    LeaveBackward(link, reach, idx, on, open, m, w);
  }

  /** The stack from `m` upwards. */
  ghost function Segment<V>(idx: map<V, nat>, on: set<V>, m: V): set<V>
    requires on <= idx.Keys && m in idx
  {
    set x | x in on && idx[m] <= idx[x]
  }

  /** `m` is finished, its visit is the latest running one, and no link leads from its
      segment to an older stack entry: the low-link of `m` is its own number. */
  ghost predicate Closable<V(!new)>(link: (V, V) -> bool, reach: (V, V) -> bool, idx: map<V, nat>, on: set<V>,
                                    open: set<V>, m: V) {
    && Inv(link, reach, idx, on, open + {m})
    && (forall y :: link(m, y) ==> y in idx)
    && (forall g :: g in open ==> idx[g] < idx[m])
    && (forall x, y :: x in Segment(idx, on, m) && y in on - Segment(idx, on, m) ==> !link(x, y))
  }

  lemma SegmentClosed<V(!new)>(link: (V, V) -> bool, reach: (V, V) -> bool, idx: map<V, nat>, on: set<V>, open: set<V>,
                               m: V)
    requires Closable(link, reach, idx, on, open, m)
    ensures Closed(link, idx.Keys - on + Segment(idx, on, m))
  {
  }

  lemma SegmentReaches<V(!new)>(link: (V, V) -> bool, reach: (V, V) -> bool, idx: map<V, nat>, on: set<V>,
                                open: set<V>, m: V, x: V)
    requires IsClosure(link, reach)
    requires Closable(link, reach, idx, on, open, m) && x in Segment(idx, on, m)
    ensures Mutual(reach, m, x)
  {
    assert ReachesOpen(reach, idx, open + {m}, x);
    var g :| g in open + {m} && idx[g] <= idx[x] && reach(x, g);
    assert reach(g, m) && Via(x, g, m);
  }

  lemma NoEscape<V(!new)>(link: (V, V) -> bool, reach: (V, V) -> bool, s: set<V>, x: V, y: V)
    requires IsClosure(link, reach) && Closed(link, s) && x in s && reach(x, y)
    ensures y in s
  {
    assert Inside(s);
  }

  /** The segment of a closable module is exactly its strongly connected component. */
  lemma SegmentIsComponent<V(!new)>(link: (V, V) -> bool, reach: (V, V) -> bool, idx: map<V, nat>, on: set<V>,
                                    open: set<V>, m: V, x: V, y: V)
    requires IsClosure(link, reach)
    requires Closable(link, reach, idx, on, open, m) && x in Segment(idx, on, m)
    ensures y in Segment(idx, on, m) <==> Mutual(reach, x, y)
  {
    var segment := Segment(idx, on, m);
    SegmentReaches(link, reach, idx, on, open, m, x);
    if y in segment {
      SegmentReaches(link, reach, idx, on, open, m, y);
      assert Via(x, m, y) && Via(y, m, x);
    }
    if Mutual(reach, x, y) {
      SegmentClosed(link, reach, idx, on, open, m);
      NoEscape(link, reach, idx.Keys - on + segment, x, y);
      if y in idx.Keys - on {
        NoEscape(link, reach, idx.Keys - on, y, x);
        assert false;
      }
    }
  }

  lemma CloseBackward<V(!new)>(reach: (V, V) -> bool, idx: map<V, nat>, on: set<V>, open: set<V>, m: V)
    requires open + {m} <= on <= idx.Keys
    requires Backward(reach, idx, on, open + {m})
    ensures Backward(reach, idx, on - Segment(idx, on, m), open)
  {
    forall y | y in on - Segment(idx, on, m)
      ensures ReachesOpen(reach, idx, open, y)
    {
      assert ReachesOpen(reach, idx, open + {m}, y);
      var g :| g in open + {m} && idx[g] <= idx[y] && reach(y, g);
      assert g in open;
    }
  }

  /** Taking a closed component off the stack. */
  lemma Close<V(!new)>(link: (V, V) -> bool, reach: (V, V) -> bool, idx: map<V, nat>, on: set<V>, open: set<V>, m: V)
    requires Closable(link, reach, idx, on, open, m)
    ensures Inv(link, reach, idx, on - Segment(idx, on, m), open)
  {
    SegmentClosed(link, reach, idx, on, open, m);
    CloseBackward(reach, idx, on, open, m);
    var on' := on - Segment(idx, on, m);
    assert idx.Keys - on' == idx.Keys - on + Segment(idx, on, m);
  }

  /** When no visit is running the stack is empty. */
  lemma NothingOpen<V(!new)>(link: (V, V) -> bool, reach: (V, V) -> bool, idx: map<V, nat>, on: set<V>)
    requires Inv(link, reach, idx, on, {})
    ensures on == {}
  {
    assert forall y :: y in on ==> ReachesOpen(reach, idx, {}, y);
  }
}
