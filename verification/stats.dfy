/** Finite sums over sequences of reals, and the bilinear algebra that the
    least-squares fit in module Regression is proved with. */
module Stats {

  function Sum(s: seq<real>): real
  {
    if |s| == 0 then 0.0 else s[0] + Sum(s[1..])
  }

  function Mean(s: seq<real>): real
    requires |s| > 0
  {
    Sum(s) / |s| as real
  }

  /** The inner product: the sum of u[i] * v[i]. */
  function Dot(u: seq<real>, v: seq<real>): real
    requires |u| == |v|
  {
    if |u| == 0 then 0.0 else u[0] * v[0] + Dot(u[1..], v[1..])
  }

  /** The sum of squares of u. */
  function SumSq(u: seq<real>): real
  {
    Dot(u, u)
  }

  /** The sequence of n copies of c. */
  function Const(n: nat, c: real): (s: seq<real>)
    ensures |s| == n
  {
    seq(n, _ => c)
  }

  /** The pointwise combination u + c·v. */
  function Lin(u: seq<real>, c: real, v: seq<real>): (w: seq<real>)
    requires |u| == |v|
    ensures |w| == |u|
    ensures forall i :: 0 <= i < |u| ==> w[i] == u[i] + c * v[i]
  {
    seq(|u|, i requires 0 <= i < |u| => u[i] + c * v[i])
  }

  lemma {:induction false} LinTail(u: seq<real>, c: real, v: seq<real>)
    requires |u| == |v| > 0
    ensures Lin(u, c, v)[1..] == Lin(u[1..], c, v[1..])
  {
    forall i | 0 <= i < |u| - 1
      ensures Lin(u, c, v)[1..][i] == Lin(u[1..], c, v[1..])[i]
    {
    }
  }

  /** The deviations of s from its mean. */
  function Centered(s: seq<real>): (d: seq<real>)
    requires |s| > 0
    ensures |d| == |s|
    ensures forall i :: 0 <= i < |s| ==> d[i] == s[i] - Mean(s)
  {
    Lin(s, -Mean(s), Const(|s|, 1.0))
  }

  lemma {:induction false} SumLin(u: seq<real>, c: real, v: seq<real>)
    requires |u| == |v|
    ensures Sum(Lin(u, c, v)) == Sum(u) + c * Sum(v)
  {
    if |u| > 0 {
      LinTail(u, c, v);
      SumLin(u[1..], c, v[1..]);
    }
  }

  lemma {:induction false} SumConst(n: nat, c: real)
    ensures Sum(Const(n, c)) == n as real * c
  {
    if n > 0 {
      assert Const(n, c)[1..] == Const(n - 1, c);
      SumConst(n - 1, c);
    }
  }

  /** Deviations from the mean sum to zero. */
  lemma {:induction false} SumCentered(s: seq<real>)
    requires |s| > 0
    ensures Sum(Centered(s)) == 0.0
  {
    var n := |s| as real;
    SumLin(s, -Mean(s), Const(|s|, 1.0));
    SumConst(|s|, 1.0);
    assert Mean(s) * n == Sum(s);
  }

  lemma {:induction false} DotLin(u: seq<real>, c: real, v: seq<real>, w: seq<real>)
    requires |u| == |v| == |w|
    ensures Dot(Lin(u, c, v), w) == Dot(u, w) + c * Dot(v, w)
  {
    if |u| > 0 {
      LinTail(u, c, v);
      DotLin(u[1..], c, v[1..], w[1..]);
    }
  }

  lemma {:induction false} DotSymmetric(u: seq<real>, v: seq<real>)
    requires |u| == |v|
    ensures Dot(u, v) == Dot(v, u)
  {
    if |u| > 0 {
      DotSymmetric(u[1..], v[1..]);
    }
  }

  lemma {:induction false} DotConst(c: real, u: seq<real>)
    ensures Dot(Const(|u|, c), u) == c * Sum(u)
  {
    if |u| > 0 {
      assert Const(|u|, c)[1..] == Const(|u| - 1, c);
      DotConst(c, u[1..]);
    }
  }

  /** A pointwise multiple scales the inner product. */
  lemma {:induction false} DotScaled(u: seq<real>, c: real, v: seq<real>, w: seq<real>)
    requires |u| == |v| == |w|
    requires forall i :: 0 <= i < |u| ==> v[i] == c * u[i]
    ensures Dot(v, w) == c * Dot(u, w)
  {
    if |u| > 0 {
      DotScaled(u[1..], c, v[1..], w[1..]);
    }
  }

  /** The expansion of the square of a combination. */
  lemma {:induction false} SumSqLin(u: seq<real>, c: real, v: seq<real>)
    requires |u| == |v|
    ensures SumSq(Lin(u, c, v)) == SumSq(u) + 2.0 * c * Dot(u, v) + c * c * SumSq(v)
  {
    var w := Lin(u, c, v);
    DotLin(u, c, v, w);
    assert Dot(w, w) == Dot(u, w) + c * Dot(v, w);
    DotLinRight(u, u, c, v);
    assert Dot(u, w) == Dot(u, u) + c * Dot(u, v);
    DotLinRight(v, u, c, v);
    assert Dot(v, w) == Dot(v, u) + c * Dot(v, v);
    DotSymmetric(u, v);
    assert Dot(v, u) == Dot(u, v);
    ExpandSquare(Dot(w, w), Dot(u, w), Dot(v, w), Dot(u, u), Dot(u, v), Dot(v, u), Dot(v, v), c);
  }

  lemma {:induction false} ExpandSquare(ww: real, uw: real, vw: real, uu: real, uv: real, vu: real, vv: real, c: real)
    ensures ww == uw + c * vw && uw == uu + c * uv && vw == vu + c * vv && vu == uv ==>
            ww == uu + 2.0 * c * uv + c * c * vv
  {
  }

  lemma {:induction false} DotLinRight(w: seq<real>, u: seq<real>, c: real, v: seq<real>)
    requires |u| == |v| == |w|
    ensures Dot(w, Lin(u, c, v)) == Dot(w, u) + c * Dot(w, v)
  {
    if |u| > 0 {
      LinTail(u, c, v);
      DotLinRight(w[1..], u[1..], c, v[1..]);
    }
  }

  lemma {:induction false} SumSqNonNegative(u: seq<real>)
    ensures SumSq(u) >= 0.0
  {
    if |u| > 0 {
      SumSqNonNegative(u[1..]);
      assert u[0] * u[0] >= 0.0;
    }
  }

  lemma {:induction false} SumSqOfZeros(u: seq<real>)
    requires forall i :: 0 <= i < |u| ==> u[i] == 0.0
    ensures SumSq(u) == 0.0
  {
    if |u| > 0 {
      SumSqOfZeros(u[1..]);
    }
  }

  lemma {:induction false} SumNonNegative(s: seq<real>)
    requires forall i :: 0 <= i < |s| ==> s[i] >= 0.0
    ensures Sum(s) >= 0.0
  {
    if |s| > 0 {
      SumNonNegative(s[1..]);
    }
  }

  /** A sum of non-negative terms is zero only when every term is. */
  lemma {:induction false} SumZeroOfNonNegative(s: seq<real>)
    requires forall i :: 0 <= i < |s| ==> s[i] >= 0.0
    ensures Sum(s) == 0.0 <==> forall i :: 0 <= i < |s| ==> s[i] == 0.0
  {
    if |s| > 0 {
      SumZeroOfNonNegative(s[1..]);
      SumNonNegative(s[1..]);
      if Sum(s) == 0.0 {
        forall i | 0 <= i < |s|
          ensures s[i] == 0.0
        {
          if i > 0 {
            assert s[i] == s[1..][i - 1];
          }
        }
      }
      if forall i :: 0 <= i < |s| ==> s[i] == 0.0 {
        assert forall i :: 0 <= i < |s[1..]| ==> s[1..][i] == s[i + 1];
      }
    }
  }

  /** Appending a term adds it to the sum. */
  lemma {:induction false} SumAppend(s: seq<real>, v: real)
    ensures Sum(s + [v]) == Sum(s) + v
  {
    if |s| > 0 {
      assert (s + [v])[1..] == s[1..] + [v];
      SumAppend(s[1..], v);
    }
  }

  /** Appending a term adds its square to the sum of squares. */
  lemma {:induction false} SumSqAppend(s: seq<real>, v: real)
    ensures SumSq(s + [v]) == SumSq(s) + v * v
  {
    if |s| > 0 {
      var t := s + [v];
      assert t[1..] == s[1..] + [v];
      SumSqAppend(s[1..], v);
      assert t[0] == s[0];
      assert SumSq(t) == s[0] * s[0] + SumSq(t[1..]);
      assert SumSq(s) == s[0] * s[0] + SumSq(s[1..]);
    } else {
      assert s + [v] == [v];
      assert Dot([v], [v]) == v * v + Dot([v][1..], [v][1..]);
    }
  }

  /** Terms between lo and hi sum to between |s|·lo and |s|·hi. */
  lemma {:induction false} SumBounds(s: seq<real>, lo: real, hi: real)
    requires forall i :: 0 <= i < |s| ==> lo <= s[i] <= hi
    ensures |s| as real * lo <= Sum(s) <= |s| as real * hi
  {
    if |s| > 0 {
      SumBounds(s[1..], lo, hi);
      assert lo <= s[0] <= hi;
      assert |s| as real * lo == (|s| - 1) as real * lo + lo;
      assert |s| as real * hi == (|s| - 1) as real * hi + hi;
    }
  }

  /** The mean of terms between lo and hi lies between lo and hi. */
  lemma {:induction false} MeanBounds(s: seq<real>, lo: real, hi: real)
    requires |s| > 0
    requires forall i :: 0 <= i < |s| ==> lo <= s[i] <= hi
    ensures lo <= Mean(s) <= hi
  {
    SumBounds(s, lo, hi);
    QuotientBounds(Sum(s), |s| as real, lo, hi);
  }

  lemma QuotientBounds(t: real, n: real, lo: real, hi: real)
    requires n > 0.0 && n * lo <= t <= n * hi
    ensures lo <= t / n <= hi
  {
    assert t / n * n == t;
  }
}
