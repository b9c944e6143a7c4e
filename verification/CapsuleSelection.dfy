/** Ranking of the merged candidates and their greedy selection under the character budget
    and the per-kind limits. */
module CapsuleSelection {
  import opened Ordering
  import opened ContextCapsule

  // ----- ranking -----

  function Stamp(c: Candidate): real {
    if c.occurredAt.Some? then c.occurredAt.value else 0.0
  }

  /** Best score first, then the latest, then by key. */
  predicate Before(score: Candidate -> real, a: Candidate, b: Candidate) {
    || score(a) > score(b)
    || (score(a) == score(b) && (Stamp(a) > Stamp(b) || (Stamp(a) == Stamp(b) && StringLeq(a.key, b.key))))
  }

  function RankOrder(score: Candidate -> real): (Candidate, Candidate) -> bool {
    (a, b) => Before(score, a, b)
  }

  /** The values of the dictionary, in the order of its keys. */
  function Values(b: Best): seq<Candidate>
    requires forall id :: id in b.order ==> id in b.merged
  {
    seq(|b.order|, i requires 0 <= i < |b.order| => b.merged[b.order[i]])
  }

  function Ranked(score: Candidate -> real, cs: seq<Candidate>): seq<Candidate> {
    CollectOk(score, cs);
    Sort(RankOrder(score), Values(Collect(score, cs)))
  }

  lemma RankOrderTotal(score: Candidate -> real)
    ensures Ranking(RankOrder(score))
  {
    StringOrder();
    var leq := RankOrder(score);
    forall a, b, c | leq(a, b) && leq(b, c)
      ensures leq(a, c)
    {
      assert StringLeq(a.key, b.key) && StringLeq(b.key, c.key) ==> StringLeq(a.key, c.key);
    }
    forall a, b
      ensures leq(a, b) || leq(b, a)
    {
      assert StringLeq(a.key, b.key) || StringLeq(b.key, a.key);
    }
  }

  ghost predicate DistinctIdentities(s: seq<Candidate>) {
    forall i, j :: 0 <= i < j < |s| ==> IdentityOf(s[i]) != IdentityOf(s[j])
  }

  lemma {:induction false} InsertDistinct(leq: (Candidate, Candidate) -> bool, x: Candidate, s: seq<Candidate>)
    requires DistinctIdentities(s) && forall y :: y in s ==> IdentityOf(y) != IdentityOf(x)
    ensures DistinctIdentities(Insert(leq, x, s))
  {
    if s != [] && !leq(x, s[0]) {
      InsertDistinct(leq, x, s[1..]);
      var rest := Insert(leq, x, s[1..]);
      forall y | y in rest
        ensures IdentityOf(y) != IdentityOf(s[0])
      {
        assert y in multiset(rest);
        assert y == x || y in multiset(s[1..]);
      }
    }
  }

  lemma {:induction false} SortDistinct(leq: (Candidate, Candidate) -> bool, s: seq<Candidate>)
    requires DistinctIdentities(s)
    ensures DistinctIdentities(Sort(leq, s))
  {
    if s != [] {
      SortDistinct(leq, s[1..]);
      InsertDistinct(leq, s[0], Sort(leq, s[1..]));
    }
  }

  lemma ValueIdentity(score: Candidate -> real, cs: seq<Candidate>, b: Best, i: nat)
    requires BestOk(score, cs, b) && i < |b.order|
    ensures var v := Values(b)[i];
            && Group(cs, b.order[i]) != [] && v == MergeAll(score, Group(cs, b.order[i]))
            && IdentityOf(v) == b.order[i] && v.kind != Conversation
  {
    assert EntryOk(score, cs, b, b.order[i]);
    MergedIdentity(score, cs, b.order[i]);
  }

  /** The ranking holds one candidate per identity, merged from its whole group. */
  ghost predicate MergedOf(score: Candidate -> real, cs: seq<Candidate>, c: Candidate) {
    c.kind != Conversation && Group(cs, IdentityOf(c)) != [] && c == MergeAll(score, Group(cs, IdentityOf(c)))
  }

  lemma ValuesMerged(score: Candidate -> real, cs: seq<Candidate>, b: Best)
    requires BestOk(score, cs, b)
    ensures DistinctIdentities(Values(b))
    ensures forall c :: c in Values(b) <==> MergedOf(score, cs, c)
  {
    var v := Values(b);
    forall i, j | 0 <= i < j < |v|
      ensures IdentityOf(v[i]) != IdentityOf(v[j])
    {
      ValueIdentity(score, cs, b, i);
      ValueIdentity(score, cs, b, j);
    }
    forall c
      ensures c in v <==> MergedOf(score, cs, c)
    {
      if c in v {
        var i :| 0 <= i < |v| && v[i] == c;
        ValueIdentity(score, cs, b, i);
        assert EntryOk(score, cs, b, IdentityOf(c));
      }
      if MergedOf(score, cs, c) {
        assert EntryOk(score, cs, b, IdentityOf(c));
        assert IdentityOf(c) in b.order;
        var i :| 0 <= i < |b.order| && b.order[i] == IdentityOf(c);
        assert v[i] == c;
      }
    }
  }

  /** The ranking is sorted, has no identity twice, and holds exactly the merged groups. */
  lemma RankedMeaning(score: Candidate -> real, cs: seq<Candidate>)
    ensures Sorted(RankOrder(score), Ranked(score, cs))
    ensures DistinctIdentities(Ranked(score, cs))
    ensures forall c :: c in Ranked(score, cs) <==> MergedOf(score, cs, c)
  {
    CollectOk(score, cs);
    var b := Collect(score, cs);
    ValuesMerged(score, cs, b);
    RankOrderTotal(score);
    SortSorted(RankOrder(score), Values(b));
    SortDistinct(RankOrder(score), Values(b));
  }

  /** Along the ranking the score never rises; with equal scores the time never does; with equal
      times the keys are in order. What agrees in all three stays in order of arrival. */
  lemma RankedByScore(score: Candidate -> real, cs: seq<Candidate>, i: nat, j: nat)
    requires i < j < |Ranked(score, cs)|
    ensures var a, b := Ranked(score, cs)[i], Ranked(score, cs)[j];
            && score(a) >= score(b)
            && (score(a) == score(b) ==> Stamp(a) >= Stamp(b))
            && (score(a) == score(b) && Stamp(a) == Stamp(b) ==> StringLeq(a.key, b.key))
  {
    RankedMeaning(score, cs);
    assert RankOrder(score)(Ranked(score, cs)[i], Ranked(score, cs)[j]);
  }

  lemma StampMeaning(c: Candidate)
    ensures c.occurredAt.Some? ==> Stamp(c) == c.occurredAt.value
    ensures c.occurredAt.None? ==> Stamp(c) == 0.0
  {
  }

  lemma RankedStable(score: Candidate -> real, cs: seq<Candidate>, x: Candidate)
    requires forall id :: id in Collect(score, cs).order ==> id in Collect(score, cs).merged
    ensures Alike(RankOrder(score), Ranked(score, cs), x) == Alike(RankOrder(score), Values(Collect(score, cs)), x)
  {
    RankOrderTotal(score);
    SortStable(RankOrder(score), Values(Collect(score, cs)), x);
  }

  // ----- greedy selection -----

  function KindCount(s: seq<Candidate>, kind: Kind): nat {
    if s == [] then 0 else KindCount(s[..|s| - 1], kind) + if s[|s| - 1].kind == kind then 1 else 0
  }

  /** The characters of the selected blocks, each with its separator. */
  function Size(render: Candidate -> string, s: seq<Candidate>): nat {
    if s == [] then 0 else Size(render, s[..|s| - 1]) + |render(s[|s| - 1])| + 2
  }

  function Limit(kind: Kind): nat { if kind == Conversation then 0 else KindLimit(kind) }

  /** There is room for `c` after `kept`. */
  predicate Fits(render: Candidate -> string, frame: nat, kept: seq<Candidate>, c: Candidate) {
    KindCount(kept, c.kind) < Limit(c.kind) && frame + Size(render, kept) + |render(c)| + 2 <= MAX_CHARS
  }

  function Select(render: Candidate -> string, frame: nat, ranked: seq<Candidate>): seq<Candidate> {
    if ranked == [] then []
    else
      var kept := Select(render, frame, ranked[..|ranked| - 1]);
      var c := ranked[|ranked| - 1];
      if Fits(render, frame, kept, c) then kept + [c] else kept
  }

  /** The members of `s` that the mask keeps. */
  ghost function Kept<T>(s: seq<T>, mask: seq<bool>): seq<T>
    requires |s| == |mask|
  {
    if s == [] then []
    else Kept(s[..|s| - 1], mask[..|s| - 1]) + if mask[|s| - 1] then [s[|s| - 1]] else []
  }

  /** A member of the ranking is kept exactly when, at its turn, its kind was not full and its
      block fitted after what had been kept before it. */
  ghost predicate Greedy(render: Candidate -> string, frame: nat, ranked: seq<Candidate>, mask: seq<bool>) {
    && |mask| == |ranked|
    && forall i :: 0 <= i < |mask| ==> (mask[i] <==> Fits(render, frame, Kept(ranked[..i], mask[..i]), ranked[i]))
  }

  lemma GreedyFront(render: Candidate -> string, frame: nat, ranked: seq<Candidate>, mask: seq<bool>)
    requires ranked != [] && Greedy(render, frame, ranked, mask)
    ensures Greedy(render, frame, ranked[..|ranked| - 1], mask[..|ranked| - 1])
  {
    var n := |ranked| - 1;
    forall i | 0 <= i < n
      ensures mask[..n][i] <==> Fits(render, frame, Kept(ranked[..n][..i], mask[..n][..i]), ranked[..n][i])
    {
      assert ranked[..n][..i] == ranked[..i] && mask[..n][..i] == mask[..i];
    }
  }

  /** Only one selection is greedy: the one that the loop makes. */
  lemma {:induction false} GreedyUnique(render: Candidate -> string, frame: nat, ranked: seq<Candidate>,
                                        mask: seq<bool>)
    requires Greedy(render, frame, ranked, mask)
    ensures Kept(ranked, mask) == Select(render, frame, ranked)
    decreases |ranked|
  {
    if ranked != [] {
      GreedyFront(render, frame, ranked, mask);
      GreedyUnique(render, frame, ranked[..|ranked| - 1], mask[..|ranked| - 1]);
    }
  }

  ghost function Mask(render: Candidate -> string, frame: nat, ranked: seq<Candidate>): seq<bool> {
    seq(|ranked|, i requires 0 <= i < |ranked| => Fits(render, frame, Select(render, frame, ranked[..i]), ranked[i]))
  }

  lemma {:induction false} SelectKept(render: Candidate -> string, frame: nat, ranked: seq<Candidate>)
    ensures Kept(ranked, Mask(render, frame, ranked)) == Select(render, frame, ranked)
    decreases |ranked|
  {
    if ranked != [] {
      var n := |ranked| - 1;
      SelectKept(render, frame, ranked[..n]);
      MaskFront(render, frame, ranked, n);
    }
  }

  lemma MaskFront(render: Candidate -> string, frame: nat, ranked: seq<Candidate>, n: nat)
    requires n <= |ranked|
    ensures Mask(render, frame, ranked)[..n] == Mask(render, frame, ranked[..n])
  {
    assert forall i :: 0 <= i < n ==> ranked[..n][..i] == ranked[..i];
  }

  lemma SelectGreedy(render: Candidate -> string, frame: nat, ranked: seq<Candidate>)
    ensures Greedy(render, frame, ranked, Mask(render, frame, ranked))
  {
    var mask := Mask(render, frame, ranked);
    forall i | 0 <= i < |mask|
      ensures mask[i] <==> Fits(render, frame, Kept(ranked[..i], mask[..i]), ranked[i])
    {
      MaskFront(render, frame, ranked, i);
      SelectKept(render, frame, ranked[..i]);
    }
  }

  lemma {:induction false} KeptLength<T>(s: seq<T>, mask: seq<bool>)
    requires |s| == |mask|
    ensures |Kept(s, mask)| <= |s|
    ensures |Kept(s, mask)| == |s| <==> forall i :: 0 <= i < |mask| ==> mask[i]
    decreases |s|
  {
    if s != [] { KeptLength(s[..|s| - 1], mask[..|s| - 1]); }
  }

  lemma KeepOne(render: Candidate -> string, kept: seq<Candidate>, c: Candidate, kind: Kind)
    ensures Size(render, kept + [c]) == Size(render, kept) + |render(c)| + 2
    ensures KindCount(kept + [c], kind) == KindCount(kept, kind) + if c.kind == kind then 1 else 0
  {
    assert (kept + [c])[..|kept|] == kept;
  }

  /** The bounds hold of the selection. */
  lemma {:induction false} SelectBounds(render: Candidate -> string, frame: nat, ranked: seq<Candidate>, kind: Kind)
    requires frame <= MAX_CHARS
    ensures var s := Select(render, frame, ranked);
            frame + Size(render, s) <= MAX_CHARS && KindCount(s, kind) <= Limit(kind)
    decreases |ranked|
  {
    if ranked != [] {
      var front := ranked[..|ranked| - 1];
      SelectBounds(render, frame, front, kind);
      KeepOne(render, Select(render, frame, front), ranked[|ranked| - 1], kind);
    }
  }

  lemma {:induction false} SelectFrom(render: Candidate -> string, frame: nat, ranked: seq<Candidate>)
    requires DistinctIdentities(ranked)
    ensures DistinctIdentities(Select(render, frame, ranked))
    ensures forall c :: c in Select(render, frame, ranked) ==> c in ranked
    decreases |ranked|
  {
    if ranked != [] {
      var front, c := ranked[..|ranked| - 1], ranked[|ranked| - 1];
      SelectFrom(render, frame, front);
      assert forall x :: x in front ==> IdentityOf(x) != IdentityOf(c);
    }
  }
}
