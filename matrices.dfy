/** Dense real matrices as sequences of rows, with the finite sums the GLRM kernels use. */
module Matrices {

  type Matrix = seq<seq<real>>

  /** m has `rows` rows, each of exactly `cols` entries. */
  predicate IsMatrix(m: Matrix, rows: nat, cols: nat) {
    |m| == rows && forall i :: 0 <= i < |m| ==> |m[i]| == cols
  }

  /** A non-empty rectangle whose rows are non-empty. */
  predicate IsProperMatrix(m: Matrix) {
    |m| > 0 && |m[0]| > 0 && IsMatrix(m, |m|, |m[0]|)
  }

  /** The transpose of a rectangular matrix (the source's ArrayUtils.transpose). */
  function Transpose(m: Matrix): (t: Matrix)
    requires |m| > 0 && IsMatrix(m, |m|, |m[0]|)
    ensures IsMatrix(t, |m[0]|, |m|)
    ensures forall i, j :: 0 <= i < |m[0]| && 0 <= j < |m| ==> t[i][j] == m[j][i]
  {
    seq(|m[0]|, i requires 0 <= i < |m[0]| => seq(|m|, j requires 0 <= j < |m| => m[j][i]))
  }

  lemma TransposeInvolution(m: Matrix)
    requires IsProperMatrix(m)
    ensures IsProperMatrix(Transpose(m))
    ensures Transpose(Transpose(m)) == m
  {
    var t := Transpose(m);
    var tt := Transpose(t);
    assert |tt| == |m|;
    forall i | 0 <= i < |m|
      ensures tt[i] == m[i]
    {
      assert |tt[i]| == |m[i]|;
    }
  }

  /** Column c of m, read down the rows. */
  function Column(m: Matrix, c: nat): (col: seq<real>)
    requires forall i :: 0 <= i < |m| ==> c < |m[i]|
    ensures |col| == |m|
    ensures forall k :: 0 <= k < |m| ==> col[k] == m[k][c]
  {
    seq(|m|, k requires 0 <= k < |m| => m[k][c])
  }

  /** x · y = Σ_k x[k]·y[k], accumulated from index 0 upwards as the source's loops do. */
  function Dot(x: seq<real>, y: seq<real>): (d: real)
    requires |x| == |y|
    decreases |x|
  {
    if |x| == 0 then 0.0 else Dot(x[..|x| - 1], y[..|y| - 1]) + x[|x| - 1] * y[|y| - 1]
  }

  /** One more term of a running dot product. */
  lemma DotStep(x: seq<real>, y: seq<real>, k: nat)
    requires |x| == |y| && k < |x|
    ensures Dot(x[..k + 1], y[..k + 1]) == Dot(x[..k], y[..k]) + x[k] * y[k]
  {
    assert x[..k + 1][..k] == x[..k];
    assert y[..k + 1][..k] == y[..k];
  }

  /** The row vector x times the matrix b: entry l is x · (column l of b). */
  function VecMat(x: seq<real>, b: Matrix, cols: nat): (r: seq<real>)
    requires IsMatrix(b, |x|, cols)
    ensures |r| == cols
    ensures forall l :: 0 <= l < cols ==> r[l] == Dot(x, Column(b, l))
  {
    seq(cols, l requires 0 <= l < cols => Dot(x, Column(b, l)))
  }

  /** A product of two positive reals is positive. */
  lemma MulPositive(a: real, b: real, p: real)
    requires a > 0.0 && b > 0.0 && p == a * b
    ensures p > 0.0
  {
  }

  /** s = x·x is never negative, and is positive unless x is zero. */
  lemma SquareSign(x: real, s: real)
    requires s == x * x
    ensures s >= 0.0
    ensures x != 0.0 ==> s > 0.0
  {
    if x > 0.0 {
      MulPositive(x, x, s);
    } else if x < 0.0 {
      assert s == (-x) * (-x);
      MulPositive(-x, -x, s);
    }
  }

  /** A sum of squares is never negative, and is zero exactly when every term is zero. */
  lemma {:induction false} DotSelfZero(r: seq<real>)
    ensures Dot(r, r) >= 0.0
    ensures Dot(r, r) == 0.0 <==> forall c :: 0 <= c < |r| ==> r[c] == 0.0
    decreases |r|
  {
    if |r| > 0 {
      var init := r[..|r| - 1];
      var last := r[|r| - 1];
      DotSelfZero(init);
      assert Dot(r, r) == Dot(init, init) + last * last;
      SquareSign(last, Dot(r, r) - Dot(init, init));
      if forall c :: 0 <= c < |r| ==> r[c] == 0.0 {
        assert forall c :: 0 <= c < |init| ==> init[c] == 0.0 by {
          forall c | 0 <= c < |init| ensures init[c] == 0.0 { assert init[c] == r[c]; }
        }
      }
      if Dot(r, r) == 0.0 {
        assert last * last == 0.0;
        forall c | 0 <= c < |r| ensures r[c] == 0.0 {
          if c < |init| {
            assert init[c] == r[c];
          } else {
            assert r[c] == last;
          }
        }
      }
    }
  }
}
