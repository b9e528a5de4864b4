/** The block rotation behind `exchange`: what it does to a sequence, and how many
    element swaps it takes. */
module Rotation {

  /** `s` with the adjacent blocks [f, l) and [l, o) exchanged, each kept in order. */
  function Rotated<T>(s: seq<T>, f: nat, l: nat, o: nat): (r: seq<T>)
    requires f <= l <= o <= |s|
    ensures |r| == |s|
  {
    s[..f] + s[l..o] + s[f..l] + s[o..]
  }

  /** `s` with the disjoint blocks [p, p+n) and [q, q+n) swapped. */
  function BlocksSwapped<T>(s: seq<T>, p: nat, q: nat, n: nat): (r: seq<T>)
    requires p + n <= q && q + n <= |s|
    ensures |r| == |s|
  {
    s[..p] + s[q..q + n] + s[p + n..q] + s[p..p + n] + s[q + n..]
  }

  lemma SwappedPointwise<T>(s: seq<T>, t: seq<T>, p: nat, q: nat, n: nat)
    requires p + n <= q && q + n <= |s| == |t|
    requires forall k :: p <= k < p + n ==> t[k] == s[k + q - p]
    requires forall k :: q <= k < q + n ==> t[k] == s[k + p - q]
    requires forall k :: 0 <= k < |s| && !(p <= k < p + n) && !(q <= k < q + n) ==> t[k] == s[k]
    ensures t == BlocksSwapped(s, p, q, n)
  {}

  lemma WhereSwappedAre<T>(s: seq<T>, p: nat, q: nat, n: nat)
    requires p + n <= q && q + n <= |s|
    ensures var t := BlocksSwapped(s, p, q, n);
      && t[..p] == s[..p] && t[p..p + n] == s[q..q + n] && t[p + n..q] == s[p + n..q]
      && t[q..q + n] == s[p..p + n] && t[q + n..] == s[q + n..]
  {}

  /** Swapping a short bottom block with the far end of the top block leaves a smaller rotation to do. */
  lemma BottomIsShort<T>(s: seq<T>, b: nat, m: nat, t: nat)
    requires b < m < t <= |s| && t - m > m - b
    ensures Rotated(BlocksSwapped(s, b, t - (m - b), m - b), b, m, t - (m - b)) == Rotated(s, b, m, t)
  {
    var n := m - b;
    var s' := BlocksSwapped(s, b, t - n, n);
    WhereSwappedAre(s, b, t - n, n);
    hide BlocksSwapped;
    assert s'[t - n..] == s'[t - n..t] + s'[t..];
    assert s[m..t] == s[m..t - n] + s[t - n..t];
  }

  /** Swapping a short top block with the near end of the bottom block likewise. */
  lemma TopIsShort<T>(s: seq<T>, b: nat, m: nat, t: nat)
    requires b < m < t <= |s| && t - m <= m - b
    ensures Rotated(BlocksSwapped(s, b, m, t - m), b + (t - m), m, t) == Rotated(s, b, m, t)
  {
    var n := t - m;
    var s' := BlocksSwapped(s, b, m, n);
    WhereSwappedAre(s, b, m, n);
    hide BlocksSwapped;
    assert s'[..b + n] == s'[..b] + s'[b..b + n];
    assert s[b..m] == s[b..b + n] + s[b + n..m];
  }

  lemma NothingToRotate<T>(s: seq<T>, b: nat, m: nat, t: nat)
    requires b <= m <= t <= |s| && (b == m || m == t)
    ensures Rotated(s, b, m, t) == s
  {}

  /** The moved blocks sit next to each other, each in its old order; the rest has not moved. */
  lemma WhereBlocksAre<T>(s: seq<T>, f: nat, l: nat, o: nat)
    requires f <= l <= o <= |s|
    ensures var r := Rotated(s, f, l, o);
      && r[..f] == s[..f] && r[f..f + (o - l)] == s[l..o]
      && r[f + (o - l)..o] == s[f..l] && r[o..] == s[o..]
  {}

  // ----- how many swaps: the two branches follow subtractive Euclid

  /** Swaps made on segments of lengths `a` (bottom) and `b` (top). */
  function Work(a: nat, b: nat): nat
    decreases a + b
  {
    if a == 0 || b == 0 then 0
    else if b > a then a + Work(a, b - a)
    else b + Work(a - b, b)
  }

  function Times(k: int, d: int): int { k * d }

  ghost predicate Divides(d: int, n: int) {
    exists k: int :: Times(k, d) == n
  }

  ghost predicate IsGcd(g: int, a: int, b: int) {
    && g > 0 && Divides(g, a) && Divides(g, b)
    && forall d: int :: Divides(d, a) && Divides(d, b) ==> d <= g
  }

  lemma DividesSum(d: int, a: int, b: int)
    requires Divides(d, a) && Divides(d, b)
    ensures Divides(d, a + b) && Divides(d, b - a)
  {
    var i, j :| Times(i, d) == a && Times(j, d) == b;
    assert Times(i + j, d) == a + b;
    assert Times(j - i, d) == b - a;
  }

  /** The common divisors of (a, b) and of (a, b - a) are the same. */
  lemma SameDivisors(d: int, a: int, b: int)
    ensures Divides(d, a) && Divides(d, b) <==> Divides(d, a) && Divides(d, b - a)
  {
    if Divides(d, a) && Divides(d, b) { DividesSum(d, a, b); }
    if Divides(d, a) && Divides(d, b - a) {
      DividesSum(d, a, b - a);
      assert a + (b - a) == b;
    }
  }

  lemma GcdSubtract(g: int, a: int, b: int)
    ensures IsGcd(g, a, b) <==> IsGcd(g, a, b - a)
  {
    forall d: int ensures Divides(d, a) && Divides(d, b) <==> Divides(d, a) && Divides(d, b - a) {
      SameDivisors(d, a, b);
    }
  }

  lemma GcdSymmetric(g: int, a: int, b: int)
    ensures IsGcd(g, a, b) <==> IsGcd(g, b, a)
  {}

  lemma GcdOfEqual(a: int)
    requires a > 0
    ensures IsGcd(a, a, a)
  {
    assert Times(1, a) == a;
    forall d: int | Divides(d, a) ensures d <= a {
      var k :| Times(k, d) == a;
    }
  }

  /** Rotating two non-empty segments takes exactly a + b - gcd(a, b) swaps. */
  lemma {:induction false} WorkIsSumMinusGcd(a: nat, b: nat, g: int)
    requires a > 0 && b > 0 && IsGcd(g, a, b)
    ensures Work(a, b) == a + b - g
    decreases a + b
  {
    if b > a {
      GcdSubtract(g, a, b);
      WorkIsSumMinusGcd(a, b - a, g);
    } else if a > b {
      GcdSymmetric(g, a, b);
      GcdSubtract(g, b, a);
      GcdSymmetric(g, b, a - b);
      WorkIsSumMinusGcd(a - b, b, g);
    } else {
      GcdOfEqual(a);
      assert g <= a && a <= g;
    }
  }

  /** Every pair of positive lengths has a greatest common divisor, so the count above is never vacuous. */
  lemma {:induction false} GcdExists(a: nat, b: nat) returns (g: nat)
    requires a > 0 && b > 0
    ensures IsGcd(g, a, b)
    decreases a + b
  {
    if b > a {
      g := GcdExists(a, b - a);
      GcdSubtract(g, a, b);
    } else if a > b {
      g := GcdExists(b, a - b);
      GcdSubtract(g, b, a);
      GcdSymmetric(g, a, b);
    } else {
      GcdOfEqual(a);
      g := a;
    }
  }
}
