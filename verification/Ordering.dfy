/** Python's `sorted` on strings, tuples and lists: a stable insertion sort by a total
    order, and the lexicographic order that Python uses for sequences. */
module Ordering {

  /** Enough to sort by. */
  ghost predicate Ranking<T(!new)>(leq: (T, T) -> bool) {
    && (forall x, y :: leq(x, y) || leq(y, x))
    && (forall x, y, z :: leq(x, y) && leq(y, z) ==> leq(x, z))
  }

  ghost predicate TotalOrder<T(!new)>(leq: (T, T) -> bool) {
    Ranking(leq) && forall x, y :: leq(x, y) && leq(y, x) ==> x == y
  }

  ghost predicate Sorted<T>(leq: (T, T) -> bool, s: seq<T>) {
    forall i, j :: 0 <= i < j < |s| ==> leq(s[i], s[j])
  }

  function Insert<T>(leq: (T, T) -> bool, x: T, s: seq<T>): (r: seq<T>)
    ensures multiset(r) == multiset{x} + multiset(s)
  {
    if s == [] then
      [x]
    else if leq(x, s[0]) then
      [x] + s
    else
      assert s == [s[0]] + s[1..];
      [s[0]] + Insert(leq, x, s[1..])
  }

  function Sort<T(!new)>(leq: (T, T) -> bool, s: seq<T>): (r: seq<T>)
    ensures multiset(r) == multiset(s)
    ensures |r| == |s|
    ensures forall x :: x in r <==> x in s
  {
    if s == [] then [] else
      assert s == [s[0]] + s[1..];
      var r := Insert(leq, s[0], Sort(leq, s[1..]));
      assert |r| == |multiset(r)| == |multiset(s)| == |s|;
      assert forall x :: x in r <==> x in multiset(r);
      assert forall x :: x in s <==> x in multiset(s);
      r
  }

  lemma {:induction false} InsertSorted<T(!new)>(leq: (T, T) -> bool, x: T, s: seq<T>)
    requires Ranking(leq) && Sorted(leq, s)
    ensures Sorted(leq, Insert(leq, x, s))
  {
    if s != [] && !leq(x, s[0]) {
      InsertSorted(leq, x, s[1..]);
      var rest := Insert(leq, x, s[1..]);
      forall y | y in rest
        ensures leq(s[0], y)
      {
        assert y in multiset(rest);
        assert y == x || y in multiset(s[1..]);
      }
    }
  }

  lemma {:induction false} SortSorted<T(!new)>(leq: (T, T) -> bool, s: seq<T>)
    requires Ranking(leq)
    ensures Sorted(leq, Sort(leq, s))
  {
    if s != [] {
      SortSorted(leq, s[1..]);
      InsertSorted(leq, s[0], Sort(leq, s[1..]));
    }
  }

  lemma SortedHead<T(!new)>(leq: (T, T) -> bool, a: seq<T>, x: T)
    requires TotalOrder(leq) && Sorted(leq, a) && x in multiset(a)
    ensures leq(a[0], x)
  {
    var i :| 0 <= i < |a| && a[i] == x;
    assert i == 0 || leq(a[0], a[i]);
  }

  lemma SortedSameHead<T(!new)>(leq: (T, T) -> bool, a: seq<T>, b: seq<T>)
    requires TotalOrder(leq) && Sorted(leq, a) && Sorted(leq, b)
    requires multiset(a) == multiset(b) && a != [] && b != []
    ensures a[0] == b[0]
  {
    assert a[0] in multiset(a) && b[0] in multiset(b);
    SortedHead(leq, a, b[0]);
    SortedHead(leq, b, a[0]);
  }

  lemma Cancel<T(!new)>(x: multiset<T>, y: multiset<T>, z: multiset<T>)
    requires x + y == x + z
    ensures y == z
  {
    forall e
      ensures y[e] == z[e]
    {
      assert (x + y)[e] == (x + z)[e];
    }
  }

  lemma SameTail<T(!new)>(a: seq<T>, b: seq<T>)
    requires a != [] && b != [] && a[0] == b[0] && multiset(a) == multiset(b)
    ensures multiset(a[1..]) == multiset(b[1..])
  {
    assert a == [a[0]] + a[1..] && b == [b[0]] + b[1..];
    assert multiset(a) == multiset{a[0]} + multiset(a[1..]);
    assert multiset(b) == multiset{a[0]} + multiset(b[1..]);
    Cancel(multiset{a[0]}, multiset(a[1..]), multiset(b[1..]));
  }

  lemma SameLength<T>(a: seq<T>, b: seq<T>)
    requires multiset(a) == multiset(b)
    ensures |a| == |b|
  {
    assert |a| == |multiset(a)| && |b| == |multiset(b)|;
  }

  lemma SortedTail<T>(leq: (T, T) -> bool, a: seq<T>)
    requires Sorted(leq, a) && a != []
    ensures Sorted(leq, a[1..])
  {
  }

  /** A sorted sequence is determined by its elements. */
  lemma {:induction false} SortedUnique<T(!new)>(leq: (T, T) -> bool, a: seq<T>, b: seq<T>)
    requires TotalOrder(leq) && Sorted(leq, a) && Sorted(leq, b)
    requires multiset(a) == multiset(b)
    ensures a == b
    decreases |a|
  {
    SameLength(a, b);
    if a != [] {
      SortedSameHead(leq, a, b);
      SameTail(a, b);
      SortedTail(leq, a);
      SortedTail(leq, b);
      SortedUnique(leq, a[1..], b[1..]);
      assert a == [a[0]] + a[1..] && b == [b[0]] + b[1..];
    }
  }

  predicate LexLeq<T(==)>(leq: (T, T) -> bool, a: seq<T>, b: seq<T>) {
    a == [] || (b != [] && if a[0] == b[0] then LexLeq(leq, a[1..], b[1..]) else leq(a[0], b[0]))
  }

  lemma {:induction false} LexTotal<T(!new)>(leq: (T, T) -> bool, a: seq<T>, b: seq<T>)
    requires TotalOrder(leq)
    ensures LexLeq(leq, a, b) || LexLeq(leq, b, a)
    ensures LexLeq(leq, a, b) && LexLeq(leq, b, a) ==> a == b
  {
    if a != [] && b != [] && a[0] == b[0] {
      LexTotal(leq, a[1..], b[1..]);
      assert a == [a[0]] + a[1..] && b == [b[0]] + b[1..];
    }
  }

  lemma {:induction false} LexTransitive<T(!new)>(leq: (T, T) -> bool, a: seq<T>, b: seq<T>, c: seq<T>)
    requires TotalOrder(leq)
    requires LexLeq(leq, a, b) && LexLeq(leq, b, c)
    ensures LexLeq(leq, a, c)
  {
    if a != [] && a[0] == b[0] && b[0] == c[0] {
      LexTransitive(leq, a[1..], b[1..], c[1..]);
    }
  }

  predicate CharLeq(a: char, b: char) { a <= b }

  predicate IntLeq(a: int, b: int) { a <= b }

  predicate StringLeq(a: string, b: string) { LexLeq(CharLeq, a, b) }

  predicate ListLeq(a: seq<string>, b: seq<string>) { LexLeq(StringLeq, a, b) }

  lemma StringOrder()
    ensures TotalOrder(StringLeq)
  {
    assert TotalOrder(CharLeq);
    forall a: string, b: string { LexTotal(CharLeq, a, b); }
    forall a: string, b: string, c: string | StringLeq(a, b) && StringLeq(b, c)
      ensures StringLeq(a, c)
    {
      LexTransitive(CharLeq, a, b, c);
    }
  }

  lemma ListOrder()
    ensures TotalOrder(ListLeq)
  {
    StringOrder();
    forall a: seq<string>, b: seq<string> { LexTotal(StringLeq, a, b); }
    forall a: seq<string>, b: seq<string>, c: seq<string> | ListLeq(a, b) && ListLeq(b, c)
      ensures ListLeq(a, c)
    {
      LexTransitive(StringLeq, a, b, c);
    }
  }

  // ----- what the orders mean -----

  ghost predicate FirstDifference<T>(a: seq<T>, b: seq<T>, k: int) {
    0 <= k < |a| && k < |b| && (forall i :: 0 <= i < k ==> a[i] == b[i]) && a[k] != b[k]
  }

  ghost predicate LesserAtDifference<T>(leq: (T, T) -> bool, a: seq<T>, b: seq<T>) {
    exists k :: FirstDifference(a, b, k) && leq(a[k], b[k])
  }

  lemma DifferenceBehind<T>(leq: (T, T) -> bool, a: seq<T>, b: seq<T>)
    requires a != [] && b != [] && a[0] == b[0]
    ensures LesserAtDifference(leq, a, b) <==> LesserAtDifference(leq, a[1..], b[1..])
  {
    if k :| FirstDifference(a[1..], b[1..], k) && leq(a[1..][k], b[1..][k]) {
      assert forall i :: 0 < i < k + 1 ==> a[i] == a[1..][i - 1] && b[i] == b[1..][i - 1];
      assert FirstDifference(a, b, k + 1) && leq(a[k + 1], b[k + 1]);
    }
    if k :| FirstDifference(a, b, k) && leq(a[k], b[k]) {
      assert k > 0 && a[1..][k - 1] == a[k] && b[1..][k - 1] == b[k];
      assert FirstDifference(a[1..], b[1..], k - 1);
    }
  }

  lemma DifferenceInFront<T>(leq: (T, T) -> bool, a: seq<T>, b: seq<T>)
    requires a != [] && b != [] && a[0] != b[0]
    ensures LesserAtDifference(leq, a, b) <==> leq(a[0], b[0])
  {
    if leq(a[0], b[0]) {
      assert FirstDifference(a, b, 0);
    }
    if k :| FirstDifference(a, b, k) && leq(a[k], b[k]) {
      assert k == 0;
    }
  }

  /** One sequence comes before another when it is a prefix of it, or has the lesser entry where
      they first differ. */
  lemma {:induction false} LexMeaning<T>(leq: (T, T) -> bool, a: seq<T>, b: seq<T>)
    ensures LexLeq(leq, a, b) <==> a <= b || LesserAtDifference(leq, a, b)
  {
    if a != [] && b != [] {
      if a[0] == b[0] {
        LexMeaning(leq, a[1..], b[1..]);
        DifferenceBehind(leq, a, b);
        assert a == [a[0]] + a[1..] && b == [b[0]] + b[1..];
      } else {
        DifferenceInFront(leq, a, b);
      }
    }
  }

  /** Strings are ordered by prefix, then by the first character in which they differ. */
  lemma StringMeaning(a: string, b: string)
    ensures StringLeq(a, b) <==> a <= b || exists k :: FirstDifference(a, b, k) && a[k] < b[k]
  {
    LexMeaning(CharLeq, a, b);
    if k :| FirstDifference(a, b, k) && CharLeq(a[k], b[k]) {
      assert a[k] < b[k];
    }
  }

  /** Lists of strings are ordered by prefix, then by the first string in which they differ. */
  lemma ListMeaning(a: seq<string>, b: seq<string>)
    ensures ListLeq(a, b) <==> a <= b || exists k :: FirstDifference(a, b, k) && StringLeq(a[k], b[k])
  {
    LexMeaning(StringLeq, a, b);
  }

  // ----- stability -----

  /** The members that rank like `x`, in order. */
  function Alike<T>(leq: (T, T) -> bool, s: seq<T>, x: T): seq<T> {
    if s == [] then []
    else (if leq(s[0], x) && leq(x, s[0]) then [s[0]] else []) + Alike(leq, s[1..], x)
  }

  lemma AlikeCons<T>(leq: (T, T) -> bool, y: T, s: seq<T>, x: T)
    ensures Alike(leq, [y] + s, x) == (if leq(y, x) && leq(x, y) then [y] else []) + Alike(leq, s, x)
  {
    assert ([y] + s)[1..] == s;
  }

  /** Of two members of which one ranks strictly before the other, not both are like `x`. */
  lemma NotBothAlike<T(!new)>(leq: (T, T) -> bool, y: T, z: T, x: T)
    requires Ranking(leq) && !leq(y, z)
    ensures !(leq(z, x) && leq(x, z) && leq(y, x) && leq(x, y))
  {
  }

  lemma {:induction false} InsertStable<T(!new)>(leq: (T, T) -> bool, y: T, s: seq<T>, x: T)
    requires Ranking(leq)
    ensures Alike(leq, Insert(leq, y, s), x) == Alike(leq, [y] + s, x)
  {
    AlikeCons(leq, y, s, x);
    if s != [] && !leq(y, s[0]) {
      InsertStable(leq, y, s[1..], x);
      AlikeCons(leq, y, s[1..], x);
      AlikeCons(leq, s[0], Insert(leq, y, s[1..]), x);
      NotBothAlike(leq, y, s[0], x);
    }
  }

  /** Sorting keeps members that rank alike in their order. */
  lemma {:induction false} SortStable<T(!new)>(leq: (T, T) -> bool, s: seq<T>, x: T)
    requires Ranking(leq)
    ensures Alike(leq, Sort(leq, s), x) == Alike(leq, s, x)
  {
    if s != [] {
      SortStable(leq, s[1..], x);
      InsertStable(leq, s[0], Sort(leq, s[1..]), x);
      AlikeCons(leq, s[0], Sort(leq, s[1..]), x);
    }
  }
}
