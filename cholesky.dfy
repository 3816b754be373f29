/**
 * The regularized Cholesky retry loop of GLRM: while the factorization of the Gram matrix
 * is not symmetric positive definite, load the diagonal with 1e-5, then ten times the
 * previous loading, for at most maxAttempts retries, and fail if it never becomes SPD.
 * The factorization itself is abstracted as the predicate isSPD on the matrix factored.
 */
module RegularizedCholesky {
  import opened Wrappers
  import opened Matrices

  /** The outcome of a decomposition: the matrix that was factored and whether it is SPD. */
  datatype Cholesky = Cholesky(factored: Matrix, spd: bool)

  /** The NonSPDMatrixException of the source. */
  datatype CholeskyError = NonSPDMatrix

  /** How a retry writes its loading into the diagonal. */
  datatype DiagonalUpdate = Additive | Overwrite

  /** The loading after one more retry: 1e-5 the first time, ten times the previous one after. */
  function NextLoading(addedL2: real): (l: real) {
    if addedL2 == 0.0 then 0.00001 else addedL2 * 10.0
  }

  /** The loading used by retry k (0 before the first retry). */
  function Loading(k: nat): (l: real) {
    if k == 0 then 0.0 else NextLoading(Loading(k - 1))
  }

  function Pow10(n: nat): (p: real) {
    if n == 0 then 1.0 else 10.0 * Pow10(n - 1)
  }

  /** The sum of the loadings of retries 1..k. */
  function TotalLoading(k: nat): (t: real) {
    if k == 0 then 0.0 else TotalLoading(k - 1) + Loading(k)
  }

  /** Retry k loads exactly 1e-5·10^(k-1). */
  lemma {:induction false} LoadingClosedForm(k: nat)
    requires k >= 1
    ensures Loading(k) == 0.00001 * Pow10(k - 1)
    ensures Loading(k) > 0.0
  {
    if k > 1 {
      LoadingClosedForm(k - 1);
      assert Loading(k) == Loading(k - 1) * 10.0;
      assert Pow10(k - 1) == 10.0 * Pow10(k - 2);
    }
  }

  /** k retries of additive loading raise the diagonal by 1e-5·(10^k − 1)/9 altogether. */
  lemma {:induction false} TotalLoadingClosedForm(k: nat)
    ensures 9.0 * TotalLoading(k) == 0.00001 * (Pow10(k) - 1.0)
    ensures k >= 1 ==> TotalLoading(k) > 0.0
  {
    if k >= 1 {
      TotalLoadingClosedForm(k - 1);
      LoadingClosedForm(k);
      assert Pow10(k) == 10.0 * Pow10(k - 1);
    }
  }

  /** g with t added to each diagonal entry (Gram.addDiag). */
  function Loaded(g: Matrix, t: real): (h: Matrix)
    ensures |h| == |g|
    ensures forall i :: 0 <= i < |g| ==> |h[i]| == |g[i]|
    ensures forall i, j :: 0 <= i < |g| && 0 <= j < |g[i]| ==> h[i][j] == if i == j then g[i][j] + t else g[i][j]
  {
    seq(|g|, i requires 0 <= i < |g| => seq(|g[i]|, j requires 0 <= j < |g[i]| => if i == j then g[i][j] + t else g[i][j]))
  }

  /** g with each diagonal entry replaced by v. */
  function SetDiag(g: Matrix, v: real): (h: Matrix)
    ensures |h| == |g|
    ensures forall i :: 0 <= i < |g| ==> |h[i]| == |g[i]|
    ensures forall i, j :: 0 <= i < |g| && 0 <= j < |g[i]| ==> h[i][j] == if i == j then v else g[i][j]
  {
    seq(|g|, i requires 0 <= i < |g| => seq(|g[i]|, j requires 0 <= j < |g[i]| => if i == j then v else g[i][j]))
  }

  /** Retry k applied to the current Gram matrix g. */
  function Retry(mode: DiagonalUpdate, g: Matrix, k: nat): (g': Matrix) {
    match mode
    case Additive => Loaded(g, Loading(k))
    case Overwrite => SetDiag(g, Loading(k))
  }

  /** The Gram matrix after k retries starting from g0. */
  function GramAfter(mode: DiagonalUpdate, g0: Matrix, k: nat): (g: Matrix) {
    if k == 0 then g0 else Retry(mode, GramAfter(mode, g0, k - 1), k)
  }

  /** Two additive loadings are one loading by their sum. */
  lemma LoadedCompose(g: Matrix, a: real, b: real)
    ensures Loaded(Loaded(g, a), b) == Loaded(g, a + b)
  {
    var l, r := Loaded(Loaded(g, a), b), Loaded(g, a + b);
    forall i | 0 <= i < |g|
      ensures l[i] == r[i]
    {
      assert |l[i]| == |r[i]|;
    }
  }

  /** A second overwrite of the diagonal forgets the first. */
  lemma SetDiagTwice(g: Matrix, a: real, b: real)
    ensures SetDiag(SetDiag(g, a), b) == SetDiag(g, b)
  {
    var l, r := SetDiag(SetDiag(g, a), b), SetDiag(g, b);
    forall i | 0 <= i < |g|
      ensures l[i] == r[i]
    {
      assert |l[i]| == |r[i]|;
    }
  }

  /**
   * After k retries, the additive schedule has raised the diagonal by the sum of all loadings
   * so far, while the overwriting schedule has set it to the last loading alone.
   */
  lemma {:induction false} GramAfterClosedForm(g0: Matrix, k: nat)
    ensures GramAfter(Additive, g0, k) == Loaded(g0, TotalLoading(k))
    ensures k >= 1 ==> GramAfter(Overwrite, g0, k) == SetDiag(g0, Loading(k))
  {
    if k == 0 {
      var h := Loaded(g0, 0.0);
      forall i | 0 <= i < |g0|
        ensures h[i] == g0[i]
      {
        assert |h[i]| == |g0[i]|;
      }
    } else {
      GramAfterClosedForm(g0, k - 1);
      LoadedCompose(g0, TotalLoading(k - 1), Loading(k));
      if k > 1 {
        SetDiagTwice(g0, Loading(k - 1), Loading(k));
      }
    }
  }

  /** The number of retries made from retry count i on, given at most maxAttempts. */
  function AttemptsFrom(mode: DiagonalUpdate, g0: Matrix, isSPD: Matrix -> bool, maxAttempts: int, i: nat): (k: nat)
    decreases maxAttempts - i
  {
    if i >= maxAttempts || isSPD(GramAfter(mode, g0, i)) then i
    else AttemptsFrom(mode, g0, isSPD, maxAttempts, i + 1)
  }

  /** The number of retries the loop makes. */
  function Attempts(mode: DiagonalUpdate, g0: Matrix, isSPD: Matrix -> bool, maxAttempts: int): (k: nat) {
    AttemptsFrom(mode, g0, isSPD, maxAttempts, 0)
  }

  lemma {:induction false} AttemptsFromSpec(mode: DiagonalUpdate, g0: Matrix, isSPD: Matrix -> bool, maxAttempts: int, i: nat)
    ensures i <= AttemptsFrom(mode, g0, isSPD, maxAttempts, i)
    ensures AttemptsFrom(mode, g0, isSPD, maxAttempts, i) == i || AttemptsFrom(mode, g0, isSPD, maxAttempts, i) <= maxAttempts
    ensures forall k :: i <= k < AttemptsFrom(mode, g0, isSPD, maxAttempts, i) ==> !isSPD(GramAfter(mode, g0, k))
    ensures AttemptsFrom(mode, g0, isSPD, maxAttempts, i) < maxAttempts ==>
      isSPD(GramAfter(mode, g0, AttemptsFrom(mode, g0, isSPD, maxAttempts, i)))
    decreases maxAttempts - i
  {
    if !(i >= maxAttempts || isSPD(GramAfter(mode, g0, i))) {
      AttemptsFromSpec(mode, g0, isSPD, maxAttempts, i + 1);
    }
  }

  /**
   * The loop makes at most max(maxAttempts, 0) retries; it makes none when the input is
   * already SPD; every matrix it gives up on is not SPD; and it stops early exactly at the
   * first SPD matrix, so a non-SPD result means every retry was used.
   */
  lemma AttemptsSpec(mode: DiagonalUpdate, g0: Matrix, isSPD: Matrix -> bool, maxAttempts: int)
    ensures Attempts(mode, g0, isSPD, maxAttempts) == 0 || Attempts(mode, g0, isSPD, maxAttempts) <= maxAttempts
    ensures isSPD(g0) ==> Attempts(mode, g0, isSPD, maxAttempts) == 0
    ensures forall k :: 0 <= k < Attempts(mode, g0, isSPD, maxAttempts) ==> !isSPD(GramAfter(mode, g0, k))
    ensures !isSPD(GramAfter(mode, g0, Attempts(mode, g0, isSPD, maxAttempts))) ==>
      Attempts(mode, g0, isSPD, maxAttempts) >= maxAttempts
  {
    AttemptsFromSpec(mode, g0, isSPD, maxAttempts, 0);
  }

  /** The entries of a two-dimensional array, row by row. */
  function Entries(a: array2<real>): (m: Matrix)
    reads a
    ensures IsMatrix(m, a.Length0, a.Length1)
    ensures forall i, j :: 0 <= i < a.Length0 && 0 <= j < a.Length1 ==> m[i][j] == a[i, j]
  {
    seq(a.Length0, i requires 0 <= i < a.Length0 reads a => seq(a.Length1, j requires 0 <= j < a.Length1 reads a => a[i, j]))
  }

  /** Adds d to every diagonal entry of the square matrix gram, in place (Gram.addDiag). */
  method AddDiagonal(gram: array2<real>, d: real)
    requires gram.Length0 == gram.Length1
    modifies gram
    ensures Entries(gram) == Loaded(old(Entries(gram)), d)
  {
    ghost var g := Entries(gram);
    for i := 0 to gram.Length0
      invariant forall r, c :: 0 <= r < gram.Length0 && 0 <= c < gram.Length1 ==>
        gram[r, c] == if r == c && r < i then g[r][c] + d else g[r][c]
    {
      gram[i, i] := gram[i, i] + d;
    }
    SameEntries(Entries(gram), Loaded(g, d));
  }

  /** Sets every diagonal entry of the square matrix gram to v, in place (the JAMA loop). */
  method SetDiagonal(gram: array2<real>, v: real)
    requires gram.Length0 == gram.Length1
    modifies gram
    ensures Entries(gram) == SetDiag(old(Entries(gram)), v)
  {
    ghost var g := Entries(gram);
    for i := 0 to gram.Length0
      invariant forall r, c :: 0 <= r < gram.Length0 && 0 <= c < gram.Length1 ==>
        gram[r, c] == if r == c && r < i then v else g[r][c]
    {
      gram[i, i] := v;
    }
    SameEntries(Entries(gram), SetDiag(g, v));
  }

  /** Two matrices of the same shape with the same entries are equal. */
  lemma SameEntries(a: Matrix, b: Matrix)
    requires |a| == |b|
    requires forall i :: 0 <= i < |a| ==> |a[i]| == |b[i]|
    requires forall i, j :: 0 <= i < |a| && 0 <= j < |a[i]| ==> a[i][j] == b[i][j]
    ensures a == b
  {
    forall i | 0 <= i < |a|
      ensures a[i] == b[i]
    {
    }
  }

  /**
   * The retry loop shared by both overloads: returns the number of retries made and
   * whether the final decomposition is SPD, leaving the loaded Gram matrix in gram.
   */
  method RetryLoop(gram: array2<real>, maxAttempts: int, isSPD: Matrix -> bool, mode: DiagonalUpdate)
    returns (attempts: nat, spd: bool)
    requires gram.Length0 == gram.Length1
    modifies gram
    ensures attempts == Attempts(mode, old(Entries(gram)), isSPD, maxAttempts)
    ensures Entries(gram) == GramAfter(mode, old(Entries(gram)), attempts)
    ensures spd == isSPD(Entries(gram))
  {
    ghost var g0 := Entries(gram);
    attempts := 0;
    var addedL2 := 0.0;
    spd := isSPD(Entries(gram));
    while !spd && attempts < maxAttempts
      invariant addedL2 == Loading(attempts)
      invariant Entries(gram) == GramAfter(mode, g0, attempts)
      invariant spd == isSPD(Entries(gram))
      invariant AttemptsFrom(mode, g0, isSPD, maxAttempts, attempts) == Attempts(mode, g0, isSPD, maxAttempts)
      decreases maxAttempts - attempts
    {
      if addedL2 == 0.0 {
        addedL2 := 0.00001;
      } else {
        addedL2 := addedL2 * 10.0;
      }
      attempts := attempts + 1;
      if mode == Additive {
        AddDiagonal(gram, addedL2);
      } else {
        SetDiagonal(gram, addedL2);
      }
      spd := isSPD(Entries(gram));
    }
  }

  /**
   * The H2O overload: retries with additive loading and throws NonSPDMatrix exactly when
   * the final decomposition is still not SPD.
   */
  method H2ORegularizedCholesky(gram: array2<real>, maxAttempts: int, isSPD: Matrix -> bool)
    returns (r: Result<Cholesky, CholeskyError>)
    requires gram.Length0 == gram.Length1
    modifies gram
    ensures Entries(gram) == GramAfter(Additive, old(Entries(gram)), Attempts(Additive, old(Entries(gram)), isSPD, maxAttempts))
    ensures r.Failure? <==> !isSPD(Entries(gram))
    ensures r.Success? ==> r.value == Cholesky(Entries(gram), true)
  {
    var attempts, spd := RetryLoop(gram, maxAttempts, isSPD, Additive);
    if !spd {
      return Failure(NonSPDMatrix);
    }
    return Success(Cholesky(Entries(gram), spd));
  }

  /** The one-argument H2O overload: at most 10 retries. */
  method H2ORegularizedCholeskyDefault(gram: array2<real>, isSPD: Matrix -> bool)
    returns (r: Result<Cholesky, CholeskyError>)
    requires gram.Length0 == gram.Length1
    modifies gram
    ensures Entries(gram) == GramAfter(Additive, old(Entries(gram)), Attempts(Additive, old(Entries(gram)), isSPD, 10))
    ensures r.Failure? <==> !isSPD(Entries(gram))
    ensures r.Success? ==> r.value == Cholesky(Entries(gram), true)
  {
    r := H2ORegularizedCholesky(gram, 10, isSPD);
  }

  /**
   * The JAMA overload as written: each retry overwrites the diagonal (the JAMA matrix wraps
   * the caller's array without copying it, so the caller's gram is overwritten too). It
   * throws only when throwException is set and the result is not SPD; otherwise it returns
   * the decomposition, SPD or not.
   */
  method JamaRegularizedCholesky(gram: array2<real>, maxAttempts: int, throwException: bool, isSPD: Matrix -> bool)
    returns (r: Result<Cholesky, CholeskyError>)
    requires gram.Length0 == gram.Length1
    modifies gram
    ensures Entries(gram) == GramAfter(Overwrite, old(Entries(gram)), Attempts(Overwrite, old(Entries(gram)), isSPD, maxAttempts))
    ensures r.Failure? <==> !isSPD(Entries(gram)) && throwException
    ensures r.Success? ==> r.value == Cholesky(Entries(gram), isSPD(Entries(gram)))
  {
    var attempts, spd := RetryLoop(gram, maxAttempts, isSPD, Overwrite);
    if !spd && throwException {
      return Failure(NonSPDMatrix);
    }
    return Success(Cholesky(Entries(gram), spd));
  }

  /** The one-argument JAMA overload: at most 10 retries, throwing on failure. */
  method JamaRegularizedCholeskyDefault(gram: array2<real>, isSPD: Matrix -> bool)
    returns (r: Result<Cholesky, CholeskyError>)
    requires gram.Length0 == gram.Length1
    modifies gram
    ensures Entries(gram) == GramAfter(Overwrite, old(Entries(gram)), Attempts(Overwrite, old(Entries(gram)), isSPD, 10))
    ensures r.Failure? <==> !isSPD(Entries(gram))
    ensures r.Success? ==> r.value == Cholesky(Entries(gram), true)
  {
    r := JamaRegularizedCholesky(gram, 10, true, isSPD);
  }

  /**
   * The JAMA overload with the loading added to the diagonal, as its own comment and the
   * H2O overload intend.
   */
  method JamaRegularizedCholeskyCorrected(gram: array2<real>, maxAttempts: int, throwException: bool, isSPD: Matrix -> bool)
    returns (r: Result<Cholesky, CholeskyError>)
    requires gram.Length0 == gram.Length1
    modifies gram
    ensures Entries(gram) == GramAfter(Additive, old(Entries(gram)), Attempts(Additive, old(Entries(gram)), isSPD, maxAttempts))
    ensures r.Failure? <==> !isSPD(Entries(gram)) && throwException
    ensures r.Success? ==> r.value == Cholesky(Entries(gram), isSPD(Entries(gram)))
  {
    var attempts, spd := RetryLoop(gram, maxAttempts, isSPD, Additive);
    if !spd && throwException {
      return Failure(NonSPDMatrix);
    }
    return Success(Cholesky(Entries(gram), spd));
  }

  /** g·x, row by row. */
  function MatVec(g: Matrix, x: seq<real>): (y: seq<real>)
    requires forall i :: 0 <= i < |g| ==> |g[i]| == |x|
    ensures |y| == |g|
    ensures forall i :: 0 <= i < |g| ==> y[i] == Dot(g[i], x)
  {
    seq(|g|, i requires 0 <= i < |g| => Dot(g[i], x))
  }

  /** The quadratic form xᵀ·g·x. */
  function QuadForm(g: Matrix, x: seq<real>): (q: real)
    requires IsMatrix(g, |x|, |x|)
  {
    Dot(x, MatVec(g, x))
  }

  /** Raising entry i of y by t raises y·x by t·x[i]. */
  lemma {:induction false} DotRaiseEntry(y: seq<real>, x: seq<real>, i: nat, t: real)
    requires |y| == |x| && i < |y|
    ensures Dot(y[i := y[i] + t], x) == Dot(y, x) + t * x[i]
    decreases |y|
  {
    var n := |y|;
    var z := y[i := y[i] + t];
    if i == n - 1 {
      assert z[..n - 1] == y[..n - 1];
    } else {
      assert z[..n - 1] == y[..n - 1][i := y[i] + t];
      DotRaiseEntry(y[..n - 1], x[..n - 1], i, t);
    }
  }

  /** If w = m + t·x entrywise then x·w = x·m + t·(x·x). */
  lemma {:induction false} DotShift(x: seq<real>, m: seq<real>, w: seq<real>, t: real)
    requires |m| == |x| && |w| == |x|
    requires forall i :: 0 <= i < |x| ==> w[i] == m[i] + t * x[i]
    ensures Dot(x, w) == Dot(x, m) + t * Dot(x, x)
    decreases |x|
  {
    var n := |x|;
    if n > 0 {
      var xs, ms, ws := x[..n - 1], m[..n - 1], w[..n - 1];
      DotShift(xs, ms, ws, t);
      var a, b, c := x[n - 1], m[n - 1], w[n - 1];
      ShiftStep(Dot(xs, ws), Dot(xs, ms), Dot(xs, xs), a, b, c, t);
    }
  }

  /** The arithmetic of one step of DotShift. */
  lemma ShiftStep(p: real, q: real, s: real, a: real, b: real, c: real, t: real)
    requires p == q + t * s && c == b + t * a
    ensures p + a * c == (q + a * b) + t * (s + a * a)
  {
  }

  /**
   * The evident purpose of diagonal loading: loading by t > 0 strictly raises the quadratic
   * form xᵀ·g·x at every non-zero x (by t·|x|², see QuadFormLoaded).
   */
  lemma LoadingRaisesQuadForm(g: Matrix, x: seq<real>, t: real)
    requires IsMatrix(g, |x|, |x|)
    requires t > 0.0 && exists k :: 0 <= k < |x| && x[k] != 0.0
    ensures IsMatrix(Loaded(g, t), |x|, |x|)
    ensures QuadForm(Loaded(g, t), x) > QuadForm(g, x)
  {
    QuadFormLoaded(g, x, t);
    ScaledNormPositive(x, t);
  }

  /** Loading the diagonal by t raises every quadratic form xᵀ·g·x by exactly t·|x|². */
  lemma QuadFormLoaded(g: Matrix, x: seq<real>, t: real)
    requires IsMatrix(g, |x|, |x|)
    ensures IsMatrix(Loaded(g, t), |x|, |x|)
    ensures QuadForm(Loaded(g, t), x) == QuadForm(g, x) + t * Dot(x, x)
  {
    LoadedMatVec(g, x, t);
    DotShift(x, MatVec(g, x), MatVec(Loaded(g, t), x), t);
  }

  /** t·|x|² > 0 for t > 0 and a non-zero x. */
  lemma ScaledNormPositive(x: seq<real>, t: real)
    requires t > 0.0 && exists k :: 0 <= k < |x| && x[k] != 0.0
    ensures t * Dot(x, x) > 0.0
  {
    DotSelfZero(x);
    MulPositive(t, Dot(x, x), t * Dot(x, x));
  }

  /** Loading by t adds t·x[i] to entry i of g·x. */
  lemma LoadedMatVec(g: Matrix, x: seq<real>, t: real)
    requires IsMatrix(g, |x|, |x|)
    ensures IsMatrix(Loaded(g, t), |x|, |x|)
    ensures forall i :: 0 <= i < |x| ==> MatVec(Loaded(g, t), x)[i] == MatVec(g, x)[i] + t * x[i]
  {
    var h := Loaded(g, t);
    forall i | 0 <= i < |x|
      ensures Dot(h[i], x) == Dot(g[i], x) + t * x[i]
    {
      RowOfLoaded(g, t, i);
      DotRaiseEntry(g[i], x, i, t);
    }
  }

  lemma RowOfLoaded(g: Matrix, t: real, i: nat)
    requires i < |g| && i < |g[i]|
    ensures Loaded(g, t)[i] == g[i][i := g[i][i] + t]
  {
    var r, u := Loaded(g, t)[i], g[i][i := g[i][i] + t];
    assert |r| == |u|;
    forall j | 0 <= j < |r|
      ensures r[j] == u[j]
    {
    }
  }

  /** A two-term dot product written out. */
  lemma Dot2(a: seq<real>, b: seq<real>)
    requires |a| == 2 && |b| == 2
    ensures Dot(a, b) == a[0] * b[0] + a[1] * b[1]
  {
    assert Dot(a[..1], b[..1]) == a[0] * b[0] by {
      assert a[..1][..0] == [] && b[..1][..0] == [];
    }
    assert Dot(a, b) == Dot(a[..1], b[..1]) + a[1] * b[1];
  }

  /**
   * The overwriting retry pushes a matrix further from positive definiteness instead. The
   * Gram matrix [[2, 3], [3, 2]] is not SPD: at x = [1, -1], xᵀ·g·x = -2. The first
   * overwriting retry replaces it by [[0.00001, 3], [3, 0.00001]], where the same form is
   * -5.99998, lower than before; the additive retry raises it to -1.99998.
   */
  lemma OverwriteLowersQuadForm()
    ensures QuadForm([[2.0, 3.0], [3.0, 2.0]], [1.0, -1.0]) == -2.0
    ensures QuadForm(GramAfter(Overwrite, [[2.0, 3.0], [3.0, 2.0]], 1), [1.0, -1.0]) == -5.99998
    ensures QuadForm(GramAfter(Additive, [[2.0, 3.0], [3.0, 2.0]], 1), [1.0, -1.0]) == -1.99998
  {
    var g: Matrix := [[2.0, 3.0], [3.0, 2.0]];
    var x := [1.0, -1.0];
    assert Loading(1) == 0.00001;
    var o := GramAfter(Overwrite, g, 1);
    var a := GramAfter(Additive, g, 1);
    assert o == [[0.00001, 3.0], [3.0, 0.00001]] by {
      assert o == SetDiag(g, 0.00001);
      SameEntries(o, [[0.00001, 3.0], [3.0, 0.00001]]);
    }
    assert a == [[2.00001, 3.0], [3.0, 2.00001]] by {
      assert a == Loaded(g, 0.00001);
      SameEntries(a, [[2.00001, 3.0], [3.0, 2.00001]]);
    }
    Dot2(g[0], x);
    Dot2(g[1], x);
    Dot2(o[0], x);
    Dot2(o[1], x);
    Dot2(a[0], x);
    Dot2(a[1], x);
    Dot2(x, MatVec(g, x));
    Dot2(x, MatVec(o, x));
    Dot2(x, MatVec(a, x));
  }
}
