/** Release numbers of the harness manager: three decimal parts, compared as tuples. */
module ReleaseVersion {
  import opened Wrappers
  import opened Ordering

  predicate Digit(c: char) { '0' <= c <= '9' }

  /** One to six decimal digits. */
  predicate Part(s: string) {
    1 <= |s| <= 6 && forall i :: 0 <= i < |s| ==> Digit(s[i])
  }

  function Decimal(s: string): nat {
    if s == [] then 0 else 10 * Decimal(s[..|s| - 1]) + if Digit(s[|s| - 1]) then (s[|s| - 1] - '0') as nat else 0
  }

  /** The first dot of `s` at or after `from`, or its length. */
  function Dot(s: string, from: nat): (k: nat)
    requires from <= |s|
    ensures from <= k <= |s|
    ensures forall i :: from <= i < k ==> s[i] != '.'
    ensures k < |s| ==> s[k] == '.'
    decreases |s| - from
  {
    if from == |s| || s[from] == '.' then from else Dot(s, from + 1)
  }

  function Version(s: string): (v: Option<seq<int>>)
    ensures v.Some? ==> |v.value| == 3
  {
    var i := Dot(s, 0);
    if i == |s| then None
    else
      var j := Dot(s, i + 1);
      if j == |s| then None
      else if Part(s[..i]) && Part(s[i + 1..j]) && Part(s[j + 1..])
      then Some([Decimal(s[..i]), Decimal(s[i + 1..j]), Decimal(s[j + 1..])])
      else None
  }

  ghost predicate Spelled(s: string, a: string, b: string, c: string) {
    Part(a) && Part(b) && Part(c) && s == a + "." + b + "." + c
  }

  lemma FirstDot(s: string, from: nat, k: nat)
    requires from <= k < |s| && s[k] == '.' && forall i :: from <= i < k ==> Digit(s[i])
    ensures Dot(s, from) == k
  {
  }

  lemma Pieces(a: string, b: string, c: string)
    ensures var s, i, j := a + "." + b + "." + c, |a|, |a| + 1 + |b|;
            s[..i] == a && s[i] == '.' && s[i + 1..j] == b && s[j] == '.' && s[j + 1..] == c
  {
  }

  lemma DigitsInside(s: string, from: nat, k: nat)
    requires from <= k <= |s| && Part(s[from..k])
    ensures forall i :: from <= i < k ==> Digit(s[i])
  {
    forall i | from <= i < k
      ensures Digit(s[i])
    {
      assert s[i] == s[from..k][i - from];
    }
  }

  lemma VersionSpelled(s: string, a: string, b: string, c: string)
    requires Spelled(s, a, b, c)
    ensures Version(s) == Some([Decimal(a), Decimal(b), Decimal(c)])
  {
    var i, j := |a|, |a| + 1 + |b|;
    Pieces(a, b, c);
    DigitsInside(s, 0, i);
    FirstDot(s, 0, i);
    DigitsInside(s, i + 1, j);
    FirstDot(s, i + 1, j);
  }

  /** Exactly the strings of three parts between dots are versions. */
  lemma VersionIffSpelled(s: string)
    ensures Version(s).Some? <==> exists a, b, c :: Spelled(s, a, b, c)
  {
    if Version(s).Some? {
      var i := Dot(s, 0);
      var j := Dot(s, i + 1);
      assert s == s[..i] + "." + s[i + 1..j] + "." + s[j + 1..];
      assert Spelled(s, s[..i], s[i + 1..j], s[j + 1..]);
    }
    if a, b, c :| Spelled(s, a, b, c) {
      VersionSpelled(s, a, b, c);
    }
  }

  /** `s` spells the three numbers in decimal, with dots between them. */
  ghost predicate Says(s: string, v: seq<int>) {
    |v| == 3 && exists a, b, c :: Spelled(s, a, b, c) && v[0] == Decimal(a) && v[1] == Decimal(b) && v[2] == Decimal(c)
  }

  lemma SaysVersion(s: string, v: seq<int>)
    requires Says(s, v)
    ensures Version(s) == Some(v)
  {
    var a, b, c :| Spelled(s, a, b, c) && v[0] == Decimal(a) && v[1] == Decimal(b) && v[2] == Decimal(c);
    VersionSpelled(s, a, b, c);
    assert v == [v[0], v[1], v[2]];
  }

  predicate NotAfter(v: seq<int>, w: seq<int>) { LexLeq(IntLeq, v, w) }

  predicate Older(v: seq<int>, w: seq<int>) { NotAfter(v, w) && v != w }

  lemma VersionOrder()
    ensures TotalOrder(NotAfter)
  {
    assert TotalOrder(IntLeq);
    forall v: seq<int>, w: seq<int> { LexTotal(IntLeq, v, w); }
    forall u: seq<int>, v: seq<int>, w: seq<int> | NotAfter(u, v) && NotAfter(v, w)
      ensures NotAfter(u, w)
    {
      LexTransitive(IntLeq, u, v, w);
    }
  }

  lemma NewerOtherwise(v: seq<int>, w: seq<int>)
    ensures Older(v, w) <==> v != w && !Older(w, v)
  {
    VersionOrder();
    LexTotal(IntLeq, v, w);
  }

  // ----- what the order means -----

  /** The first number in which they differ is smaller. */
  predicate Precedes(v: seq<int>, w: seq<int>)
    requires |v| == |w| == 3
  {
    v[0] < w[0] || (v[0] == w[0] && (v[1] < w[1] || (v[1] == w[1] && v[2] < w[2])))
  }

  lemma OlderMeaning(v: seq<int>, w: seq<int>)
    requires |v| == |w| == 3
    ensures Older(v, w) <==> Precedes(v, w)
    ensures NotAfter(v, w) <==> Precedes(v, w) || v == w
  {
    assert v[1..][1..] == v[2..] && w[1..][1..] == w[2..];
    assert v[2..][1..] == [] && w[2..][1..] == [];
    assert v == [v[0], v[1], v[2]] && w == [w[0], w[1], w[2]];
    LastNumber(v[2..], w[2..]);
    LexStep(v[1..], w[1..]);
    LexStep(v, w);
  }

  lemma LexStep(v: seq<int>, w: seq<int>)
    requires v != [] && w != []
    ensures NotAfter(v, w) <==> v[0] < w[0] || (v[0] == w[0] && NotAfter(v[1..], w[1..]))
  {
  }

  lemma LastNumber(v: seq<int>, w: seq<int>)
    requires |v| == |w| == 1
    ensures NotAfter(v, w) <==> v[0] <= w[0]
  {
    assert v[1..] == [] && w[1..] == [];
    LexStep(v, w);
  }

  function Power(n: nat): nat { if n == 0 then 1 else 10 * Power(n - 1) }

  /** The leading digit counts for the highest power of ten. */
  lemma {:induction false} DecimalFront(s: string)
    requires s != "" && Digit(s[0]) && forall i :: 0 <= i < |s| ==> Digit(s[i])
    ensures Decimal(s) == (s[0] - '0') as nat * Power(|s| - 1) + Decimal(s[1..])
    decreases |s|
  {
    var n := |s| - 1;
    if n == 0 {
      assert s[..0] == "" && s[1..] == "";
    } else {
      DecimalFront(s[..n]);
      assert s[..n][1..] == s[1..][..n - 1];
      assert Decimal(s[1..]) == 10 * Decimal(s[1..][..n - 1]) + (s[n] - '0') as nat;
      Tenfold((s[0] - '0') as nat, Power(n - 1));
    }
  }

  lemma Tenfold(d: nat, p: nat)
    ensures 10 * (d * p) == d * (10 * p)
  {
  }
}
