/** Token and cost accounting of an agent run. Costs are exact reals. */
module AgentUsage {

  datatype Quality = Unknown | Partial | Estimated | Exact

  function Rank(q: Quality): nat {
    match q
    case Unknown => 0
    case Partial => 1
    case Estimated => 2
    case Exact => 3
  }

  datatype Counters = Counters(
    input: nat, output: nat, cacheRead: nat, cacheWrite: nat,
    reasoning: nat, requests: nat, toolCalls: nat, cost: real)
  {
    predicate Valid() { cost >= 0.0 }
  }

  type Count = c: Counters | c.Valid() witness Counters(0, 0, 0, 0, 0, 0, 0, 0.0)

  datatype Usage = Usage(counters: Count, tokenQuality: Quality, costQuality: Quality)

  const NONE := Counters(0, 0, 0, 0, 0, 0, 0, 0.0)

  const EMPTY := Usage(NONE, Unknown, Unknown)

  function Plus(a: Count, b: Count): Count {
    Counters(a.input + b.input, a.output + b.output, a.cacheRead + b.cacheRead, a.cacheWrite + b.cacheWrite,
             a.reasoning + b.reasoning, a.requests + b.requests, a.toolCalls + b.toolCalls, a.cost + b.cost)
  }

  function Monus(a: nat, b: nat): nat { if a >= b then a - b else 0 }

  /** Componentwise difference, clamped at zero. */
  function Minus(a: Count, b: Count): Count {
    Counters(Monus(a.input, b.input), Monus(a.output, b.output), Monus(a.cacheRead, b.cacheRead),
             Monus(a.cacheWrite, b.cacheWrite), Monus(a.reasoning, b.reasoning), Monus(a.requests, b.requests),
             Monus(a.toolCalls, b.toolCalls), if a.cost >= b.cost then a.cost - b.cost else 0.0)
  }

  predicate HasMeasurements(u: Usage) {
    var c := u.counters;
    c.input + c.output != 0 || c.cacheRead != 0 || c.cacheWrite != 0 || c.reasoning != 0
    || c.requests != 0 || c.toolCalls != 0 || c.cost != 0.0
  }

  function Least(left: Quality, right: Quality, leftMeasured: bool, rightMeasured: bool): Quality {
    if left == Unknown && right != Unknown && !leftMeasured then right
    else if right == Unknown && left != Unknown && !rightMeasured then left
    else if Rank(left) <= Rank(right) then left else right
  }

  /** Adds the counters and keeps the least certain quality. */
  function Merged(a: Usage, b: Usage): Usage {
    var m, n := HasMeasurements(a), HasMeasurements(b);
    Usage(Plus(a.counters, b.counters),
          Least(a.tokenQuality, b.tokenQuality, m, n),
          Least(a.costQuality, b.costQuality, m, n))
  }

  // ----- what a merge says -----

  /** Each counter is the sum of the two. */
  lemma MergedCounters(a: Usage, b: Usage)
    ensures var x, y, z := a.counters, b.counters, Merged(a, b).counters;
            && z.input == x.input + y.input && z.output == x.output + y.output
            && z.cacheRead == x.cacheRead + y.cacheRead && z.cacheWrite == x.cacheWrite + y.cacheWrite
            && z.reasoning == x.reasoning + y.reasoning && z.requests == x.requests + y.requests
            && z.toolCalls == x.toolCalls + y.toolCalls && z.cost == x.cost + y.cost
  {
  }

  /** Unknown is the least certain, then partial, then estimated, then exact. */
  predicate NoMoreCertain(p: Quality, q: Quality) {
    || p == Unknown || q == Exact || p == q || (p == Partial && q == Estimated)
  }

  ghost predicate LeastOf(p: Quality, q: Quality, measuredP: bool, measuredQ: bool, r: Quality) {
    && (r == p || r == q)
    && (measuredP ==> NoMoreCertain(r, p)) && (measuredQ ==> NoMoreCertain(r, q))
    && (!measuredP && p == Unknown ==> r == q) && (!measuredQ && q == Unknown ==> r == p)
    && (p != Unknown && q != Unknown ==> NoMoreCertain(r, p) && NoMoreCertain(r, q))
  }

  /** A total is no more certain than any measured part of it; a part that measured nothing and
      claims nothing does not count. */
  lemma MergedQuality(a: Usage, b: Usage)
    ensures LeastOf(a.tokenQuality, b.tokenQuality, HasMeasurements(a), HasMeasurements(b), Merged(a, b).tokenQuality)
    ensures LeastOf(a.costQuality, b.costQuality, HasMeasurements(a), HasMeasurements(b), Merged(a, b).costQuality)
  {
  }

  /** Something was measured exactly when some counter is not zero. */
  lemma MeasuredMeaning(u: Usage)
    ensures !HasMeasurements(u) <==> u.counters == NONE
  {
  }

  // ----- a commutative monoid -----

  lemma MeasuredMerge(a: Usage, b: Usage)
    ensures HasMeasurements(Merged(a, b)) <==> HasMeasurements(a) || HasMeasurements(b)
  {
  }

  lemma LeastAssociative(p: Quality, q: Quality, r: Quality, a: bool, b: bool, c: bool)
    ensures Least(Least(p, q, a, b), r, a || b, c) == Least(p, Least(q, r, b, c), a, b || c)
  {
  }

  lemma PlusAssociative(a: Count, b: Count, c: Count)
    ensures Plus(Plus(a, b), c) == Plus(a, Plus(b, c))
  {
  }

  lemma MergedCommutative(a: Usage, b: Usage)
    ensures Merged(a, b) == Merged(b, a)
  {
  }

  lemma MergedAssociative(a: Usage, b: Usage, c: Usage)
    ensures Merged(Merged(a, b), c) == Merged(a, Merged(b, c))
  {
    var m, n, k := HasMeasurements(a), HasMeasurements(b), HasMeasurements(c);
    MeasuredMerge(a, b);
    MeasuredMerge(b, c);
    PlusAssociative(a.counters, b.counters, c.counters);
    LeastAssociative(a.tokenQuality, b.tokenQuality, c.tokenQuality, m, n, k);
    LeastAssociative(a.costQuality, b.costQuality, c.costQuality, m, n, k);
  }

  lemma MergedIdentity(a: Usage)
    ensures Merged(a, EMPTY) == a == Merged(EMPTY, a)
  {
  }

  /** The total of a sequence of reports, merged one after the other. */
  function Total(us: seq<Usage>): Usage {
    if us == [] then EMPTY else Merged(Total(us[..|us| - 1]), us[|us| - 1])
  }

  /** Reports can be grouped at will. */
  lemma {:induction false} TotalAppend(us: seq<Usage>, vs: seq<Usage>)
    ensures Total(us + vs) == Merged(Total(us), Total(vs))
    decreases |vs|
  {
    if vs == [] {
      assert us + vs == us;
      MergedIdentity(Total(us));
    } else {
      var init, last := vs[..|vs| - 1], vs[|vs| - 1];
      assert (us + vs)[..|us + vs| - 1] == us + init;
      TotalAppend(us, init);
      MergedAssociative(Total(us), Total(init), last);
    }
  }

  lemma TotalOne(u: Usage)
    ensures Total([u]) == u
  {
    assert [u][..0] == [];
    MergedIdentity(u);
  }

  lemma MergedSwap(a: Usage, b: Usage, c: Usage)
    ensures Merged(a, Merged(b, c)) == Merged(b, Merged(a, c))
  {
    MergedAssociative(a, b, c);
    MergedCommutative(a, b);
    MergedAssociative(b, a, c);
  }

  lemma TotalCons(u: Usage, us: seq<Usage>)
    ensures Total([u] + us) == Merged(u, Total(us))
  {
    TotalAppend([u], us);
    TotalOne(u);
  }

  lemma TotalMiddle(front: seq<Usage>, u: Usage, back: seq<Usage>)
    ensures Total(front + ([u] + back)) == Merged(u, Total(front + back))
  {
    TotalAppend(front, [u] + back);
    TotalCons(u, back);
    MergedSwap(Total(front), u, Total(back));
    TotalAppend(front, back);
  }

  lemma SplitAt<T>(s: seq<T>, k: nat)
    requires k < |s|
    ensures s == s[..k] + ([s[k]] + s[k + 1..])
  {
  }

  /** A report can be taken out of the middle. */
  lemma TotalExtract(us: seq<Usage>, k: nat)
    requires k < |us|
    ensures Total(us) == Merged(us[k], Total(us[..k] + us[k + 1..]))
  {
    SplitAt(us, k);
    TotalMiddle(us[..k], us[k], us[k + 1..]);
  }

  lemma RemoveOne(us: seq<Usage>, k: nat)
    requires k < |us|
    ensures multiset(us[..k] + us[k + 1..]) == multiset(us) - multiset{us[k]}
  {
    assert us == us[..k] + [us[k]] + us[k + 1..];
  }

  /** The total does not depend on the order of the reports. */
  lemma {:induction false} TotalPermutation(us: seq<Usage>, vs: seq<Usage>)
    requires multiset(us) == multiset(vs)
    ensures Total(us) == Total(vs)
    decreases |us|
  {
    if us == [] {
      assert |multiset(vs)| == 0;
    } else {
      assert us[0] in multiset(vs);
      var k :| 0 <= k < |vs| && vs[k] == us[0];
      TotalExtract(us, 0);
      TotalExtract(vs, k);
      RemoveOne(us, 0);
      RemoveOne(vs, k);
      assert us[..0] + us[1..] == us[1..];
      TotalPermutation(us[1..], vs[..k] + vs[k + 1..]);
    }
  }
}
