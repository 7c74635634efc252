/** Finite sums over sequences of reals: the `quicksum` expressions of the
    formulation, evaluated exactly. */
module Sums {

  /** Sum of all entries. */
  function Sum(s: seq<real>): real
  {
    if |s| == 0 then 0.0 else s[0] + Sum(s[1..])
  }

  /** Inner product of two vectors of equal length. */
  function Dot(a: seq<real>, b: seq<real>): real
    requires |a| == |b|
  {
    if |a| == 0 then 0.0 else a[0] * b[0] + Dot(a[1..], b[1..])
  }

  /** Entry-wise product. */
  function Times(a: seq<real>, b: seq<real>): (r: seq<real>)
    requires |a| == |b|
    ensures |r| == |a|
    ensures forall k :: 0 <= k < |r| ==> r[k] == a[k] * b[k]
  {
    if |a| == 0 then [] else [a[0] * b[0]] + Times(a[1..], b[1..])
  }

  /** Entry-wise sum. */
  function Add(a: seq<real>, b: seq<real>): (r: seq<real>)
    requires |a| == |b|
    ensures |r| == |a|
    ensures forall k :: 0 <= k < |r| ==> r[k] == a[k] + b[k]
  {
    if |a| == 0 then [] else [a[0] + b[0]] + Add(a[1..], b[1..])
  }

  /** The zero vector of length n. */
  function Zeros(n: nat): (r: seq<real>)
    ensures |r| == n
    ensures forall k :: 0 <= k < n ==> r[k] == 0.0
  {
    seq(n, _ => 0.0)
  }

  predicate NonNegative(s: seq<real>)
  {
    forall k :: 0 <= k < |s| ==> s[k] >= 0.0
  }

  predicate NonPositive(s: seq<real>)
  {
    forall k :: 0 <= k < |s| ==> s[k] <= 0.0
  }

  lemma {:induction false} DotComm(a: seq<real>, b: seq<real>)
    requires |a| == |b|
    ensures Dot(a, b) == Dot(b, a)
  {
    if |a| > 0 {
      DotComm(a[1..], b[1..]);
    }
  }

  /** Σ (a_k b_k) c_k == Σ (a_k c_k) b_k: the order of the two scalings does not matter. */
  lemma {:induction false} DotTimesSwap(a: seq<real>, b: seq<real>, c: seq<real>)
    requires |a| == |b| == |c|
    ensures Dot(Times(a, b), c) == Dot(Times(a, c), b)
  {
    if |a| > 0 {
      DotTimesSwap(a[1..], b[1..], c[1..]);
      assert Times(a, b)[1..] == Times(a[1..], b[1..]);
      assert Times(a, c)[1..] == Times(a[1..], c[1..]);
    }
  }

  lemma {:induction false} DotAddRight(a: seq<real>, b: seq<real>, c: seq<real>)
    requires |a| == |b| == |c|
    ensures Dot(a, Add(b, c)) == Dot(a, b) + Dot(a, c)
  {
    if |a| > 0 {
      DotAddRight(a[1..], b[1..], c[1..]);
      assert Add(b, c)[1..] == Add(b[1..], c[1..]);
    }
  }

  lemma {:induction false} DotZeros(a: seq<real>)
    ensures Dot(a, Zeros(|a|)) == 0.0
  {
    if |a| > 0 {
      assert Zeros(|a|)[1..] == Zeros(|a| - 1);
      DotZeros(a[1..]);
    }
  }

  /** Raising coefficients never lowers an inner product with a non-negative vector. */
  lemma {:induction false} DotMonoNonNegative(a: seq<real>, b: seq<real>, x: seq<real>)
    requires |a| == |b| == |x|
    requires NonNegative(x)
    requires forall k :: 0 <= k < |a| ==> a[k] <= b[k]
    ensures Dot(a, x) <= Dot(b, x)
  {
    if |a| > 0 {
      assert (b[0] - a[0]) * x[0] >= 0.0;
      DotMonoNonNegative(a[1..], b[1..], x[1..]);
    }
  }

  /** Against a non-positive vector, raising entries can only lower the inner product. */
  lemma {:induction false} DotMonoNonPositive(nu: seq<real>, a: seq<real>, b: seq<real>)
    requires |nu| == |a| == |b|
    requires NonPositive(nu)
    requires forall k :: 0 <= k < |a| ==> a[k] <= b[k]
    ensures Dot(nu, b) <= Dot(nu, a)
  {
    if |nu| > 0 {
      assert nu[0] * (b[0] - a[0]) <= 0.0;
      DotMonoNonPositive(nu[1..], a[1..], b[1..]);
    }
  }

  /** Σ (1 · s_k) is the plain sum. */
  lemma {:induction false} SumAsDot(s: seq<real>)
    ensures Dot(seq(|s|, _ => 1.0), s) == Sum(s)
  {
    if |s| > 0 {
      assert seq(|s|, _ => 1.0)[1..] == seq(|s| - 1, _ => 1.0);
      SumAsDot(s[1..]);
    }
  }

  lemma {:induction false} SumMono(a: seq<real>, b: seq<real>)
    requires |a| == |b|
    requires forall k :: 0 <= k < |a| ==> a[k] <= b[k]
    ensures Sum(a) <= Sum(b)
  {
    if |a| > 0 {
      SumMono(a[1..], b[1..]);
    }
  }

  lemma {:induction false} SumNonNegative(s: seq<real>)
    requires NonNegative(s)
    ensures Sum(s) >= 0.0
  {
    if |s| > 0 {
      SumNonNegative(s[1..]);
    }
  }

  lemma {:induction false} DotNonNegative(a: seq<real>, b: seq<real>)
    requires |a| == |b|
    requires NonNegative(a) && NonNegative(b)
    ensures Dot(a, b) >= 0.0
  {
    if |a| > 0 {
      assert a[0] * b[0] >= 0.0;
      DotNonNegative(a[1..], b[1..]);
    }
  }

  /** A sum of non-negative entries that is at most zero has every entry zero. */
  lemma {:induction false} SumZeroEntries(s: seq<real>)
    requires NonNegative(s)
    requires Sum(s) <= 0.0
    ensures forall k :: 0 <= k < |s| ==> s[k] == 0.0
  {
    if |s| > 0 {
      SumNonNegative(s[1..]);
      SumZeroEntries(s[1..]);
      assert forall k :: 1 <= k < |s| ==> s[k] == s[1..][k - 1];
    }
  }

  lemma {:induction false} DotConcat(a1: seq<real>, a2: seq<real>, b1: seq<real>, b2: seq<real>)
    requires |a1| == |b1| && |a2| == |b2|
    ensures Dot(a1 + a2, b1 + b2) == Dot(a1, b1) + Dot(a2, b2)
  {
    if |a1| > 0 {
      assert (a1 + a2)[1..] == a1[1..] + a2;
      assert (b1 + b2)[1..] == b1[1..] + b2;
      DotConcat(a1[1..], a2, b1[1..], b2);
    } else {
      assert a1 + a2 == a2 && b1 + b2 == b2;
    }
  }

  lemma {:induction false} SumTimes(a: seq<real>, b: seq<real>)
    requires |a| == |b|
    ensures Sum(Times(a, b)) == Dot(a, b)
  {
    if |a| > 0 {
      assert Times(a, b)[1..] == Times(a[1..], b[1..]);
      SumTimes(a[1..], b[1..]);
    }
  }
}
