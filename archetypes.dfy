/**
 * The archetype matrix Y of a generalized low rank model: rank() rows and nfeatures() columns,
 * where the columns are one contiguous block per categorical feature (one column per level)
 * followed by one column per numeric feature. The matrix is stored either as Y or as Yᵗ; the
 * `transposed` flag records which, and every accessor reads through it so that callers see the
 * same Y whichever orientation is stored.
 */
module ArchetypeMatrix {
  import opened Matrices
  import opened ColumnBlocks

  datatype Archetypes = Archetypes(
    archetypes: Matrix,     // Y, or Yᵗ when `transposed`
    transposed: bool,
    catOffsets: seq<int>,   // start column of each categorical block; the last entry ends them all
    numLevels: seq<int>)    // number of levels of every training column (0 for numeric ones)
  {
    /**
     * rank(): the number of rows of the logical Y, i.e. the stored array's row count, or its
     * column count when Yᵗ is stored.
     */
    function Rank(): (k: nat)
      requires transposed ==> |archetypes| > 0
      ensures IsProperMatrix(archetypes) ==> k > 0
    {
      if transposed then |archetypes[0]| else |archetypes|
    }

    /**
     * nfeatures(): the number of columns of the logical Y, i.e. the stored array's column
     * count, or its row count when Yᵗ is stored.
     */
    function NFeatures(): (n: nat)
      requires !transposed ==> |archetypes| > 0
      ensures IsProperMatrix(archetypes) ==> n > 0
    {
      if transposed then |archetypes| else |archetypes[0]|
    }

    /** Number of categorical features, i.e. of categorical blocks. */
    function NCats(): (n: nat)
      requires |catOffsets| > 0
    {
      |catOffsets| - 1
    }

    /** First numeric column: the end of the last categorical block. */
    function NumStart(): (c: int)
      requires |catOffsets| > 0
    {
      catOffsets[NCats()]
    }

    /**
     * The shape invariant the driver establishes when it builds an Archetypes: a non-empty
     * rectangle, categorical blocks laid out contiguously from column 0 with widths numLevels,
     * numeric training columns having no levels, and every block inside the stored width.
     */
    predicate Valid() {
      && IsProperMatrix(archetypes)
      && |catOffsets| > 0
      && |numLevels| >= NCats()
      && Contiguous(catOffsets)
      && (forall j :: 0 <= j < NCats() ==> 0 <= numLevels[j] && catOffsets[j + 1] == catOffsets[j] + numLevels[j])
      && (forall j :: NCats() <= j < |numLevels| ==> numLevels[j] == 0)
      && NumStart() <= NFeatures()
    }

    /** Y itself when t is false, Yᵗ when t is true, whatever orientation is stored. */
    function GetY(t: bool): (y: Matrix)
      requires IsProperMatrix(archetypes)
      ensures IsMatrix(y, if t then NFeatures() else Rank(), if t then Rank() else NFeatures())
      ensures t == transposed ==> y == archetypes
    {
      if t != transposed then Transpose(archetypes) else archetypes
    }

    /** Column j of the numeric part of Y: it lies after every categorical block. */
    function GetNumCidx(j: int): (c: int)
      requires Valid()
      ensures 0 <= j ==> forall j' :: 0 <= j' < NCats() ==> catOffsets[j'] + numLevels[j'] <= c
      ensures 0 <= j < NFeatures() - NumStart() ==> 0 <= c < NFeatures()
    {
      BlocksBeforeNumeric();
      catOffsets[|catOffsets| - 1] + j
    }

    /** Column of level `level` of categorical feature j: it lies inside block j. */
    function GetCatCidx(j: int, level: int): (c: int)
      requires Valid()
      requires 0 <= j < |numLevels| && numLevels[j] != 0
      requires 0 <= level < numLevels[j]
      ensures j < NCats()
      ensures catOffsets[j] <= c < catOffsets[j + 1]
      ensures 0 <= c < NumStart()
    {
      BlocksBeforeNumeric();
      catOffsets[j] + level
    }

    /** Entry k of numeric column j of Y. */
    function GetNum(j: int, k: int): (v: real)
      requires Valid()
      requires 0 <= GetNumCidx(j) < NFeatures() && 0 <= k < Rank()
      ensures v == GetY(false)[k][GetNumCidx(j)]
      ensures v == GetY(true)[GetNumCidx(j)][k]
    {
      var cidx := GetNumCidx(j);
      if transposed then archetypes[cidx][k] else archetypes[k][cidx]
    }

    /** Entry k of the column of level `level` of categorical feature j of Y. */
    function GetCat(j: int, level: int, k: int): (v: real)
      requires Valid()
      requires 0 <= j < |numLevels| && numLevels[j] != 0 && 0 <= level < numLevels[j]
      requires 0 <= k < Rank()
      ensures v == GetY(false)[k][GetCatCidx(j, level)]
      ensures v == GetY(true)[GetCatCidx(j, level)][k]
    {
      var cidx := GetCatCidx(j, level);
      if transposed then archetypes[cidx][k] else archetypes[k][cidx]
    }

    /** Column c of the logical Y (length rank()). */
    ghost function YColumn(c: int): (col: seq<real>)
      requires Valid() && 0 <= c < NFeatures()
      ensures |col| == Rank()
      ensures forall k :: 0 <= k < Rank() ==> col[k] == GetY(false)[k][c]
    {
      Column(GetY(false), c)
    }

    /** The rank() × numLevels[j] block of Y belonging to categorical feature j. */
    ghost function CatBlock(j: int): (b: Matrix)
      requires Valid() && 0 <= j < |numLevels| && numLevels[j] != 0
      ensures IsMatrix(b, Rank(), numLevels[j])
      ensures forall k, l :: 0 <= k < Rank() && 0 <= l < numLevels[j] ==> b[k][l] == GetY(false)[k][GetCatCidx(j, l)]
    {
      seq(Rank(), k requires 0 <= k < Rank() =>
        seq(numLevels[j], l requires 0 <= l < numLevels[j] => GetY(false)[k][GetCatCidx(j, l)]))
    }

    /** Numeric column j of Y as a vector of length rank(). */
    method GetNumCol(j: int) returns (col: seq<real>)
      requires Valid() && 0 <= GetNumCidx(j) < NFeatures()
      ensures |col| == Rank()
      ensures forall k :: 0 <= k < Rank() ==> col[k] == GetY(false)[k][GetNumCidx(j)]
    {
      var cidx := GetNumCidx(j);
      if transposed {
        return archetypes[cidx];
      }
      var a := new real[Rank()](_ => 0.0);
      for k := 0 to a.Length
        invariant forall k' :: 0 <= k' < k ==> a[k'] == archetypes[k'][cidx]
      {
        a[k] := archetypes[k][cidx];
      }
      col := a[..];
    }

    /** x · y_j, the inner product of x with numeric column j of Y. */
    method LmulNumCol(x: seq<real>, j: int) returns (prod: real)
      requires Valid() && |x| == Rank()
      requires 0 <= GetNumCidx(j) < NFeatures()
      ensures prod == Dot(x, YColumn(GetNumCidx(j)))
    {
      var cidx := GetNumCidx(j);
      prod := ColumnDot(x, cidx);
      StoredColumnIsYColumn(cidx);
    }

    /** x · (column c of Y), summed over the stored array in its own orientation. */
    method ColumnDot(x: seq<real>, c: int) returns (prod: real)
      requires Valid() && |x| == Rank() && 0 <= c < NFeatures()
      ensures prod == Dot(x, StoredColumnOf(c))
    {
      ghost var col := StoredColumnOf(c);
      var rank := Rank();
      prod := 0.0;
      if transposed {
        for k := 0 to rank
          invariant prod == Dot(x[..k], col[..k])
        {
          DotStep(x, col, k);
          prod := prod + x[k] * archetypes[c][k];
        }
      } else {
        for k := 0 to rank
          invariant prod == Dot(x[..k], col[..k])
        {
          DotStep(x, col, k);
          prod := prod + x[k] * archetypes[k][c];
        }
      }
      assert x[..rank] == x && col[..rank] == col;
    }

    /** Y_j, the block of categorical feature j, extracted into a fresh rank() × numLevels[j] matrix. */
    method GetCatBlock(j: int) returns (block: Matrix)
      requires Valid() && 0 <= j < |numLevels| && numLevels[j] != 0
      ensures block == CatBlock(j)
    {
      var n := numLevels[j];
      var rank := Rank();
      var b := new real[rank, n]((_, _) => 0.0);
      if transposed {
        for level := 0 to n
          invariant forall k, l :: 0 <= k < rank && 0 <= l < level ==> b[k, l] == GetY(false)[k][GetCatCidx(j, l)]
        {
          var cidx := GetCatCidx(j, level);
          for k := 0 to rank
            invariant forall k', l :: 0 <= k' < rank && 0 <= l < level ==> b[k', l] == GetY(false)[k'][GetCatCidx(j, l)]
            invariant forall k' :: 0 <= k' < k ==> b[k', level] == GetY(false)[k'][cidx]
          {
            b[k, level] := archetypes[cidx][k];
          }
        }
      } else {
        for level := 0 to n
          invariant forall k, l :: 0 <= k < rank && 0 <= l < level ==> b[k, l] == GetY(false)[k][GetCatCidx(j, l)]
        {
          var cidx := GetCatCidx(j, level);
          for k := 0 to rank
            invariant forall k', l :: 0 <= k' < rank && 0 <= l < level ==> b[k', l] == GetY(false)[k'][GetCatCidx(j, l)]
            invariant forall k' :: 0 <= k' < k ==> b[k', level] == GetY(false)[k'][cidx]
          {
            b[k, level] := archetypes[k][cidx];
          }
        }
      }
      block := seq(rank, k requires 0 <= k < rank reads b => seq(n, l requires 0 <= l < n reads b => b[k, l]));
      forall k | 0 <= k < rank
        ensures block[k] == CatBlock(j)[k]
      {
      }
    }

    /** x · Y_j: entry `level` is Σ_k x[k]·getCat(j, level, k). */
    method LmulCatBlock(x: seq<real>, j: int) returns (prod: seq<real>)
      requires Valid() && 0 <= j < |numLevels| && numLevels[j] != 0
      requires |x| == Rank()
      ensures |prod| == numLevels[j]
      ensures forall l :: 0 <= l < numLevels[j] ==> prod[l] == Dot(x, YColumn(GetCatCidx(j, l)))
      ensures prod == VecMat(x, CatBlock(j), numLevels[j])
    {
      var n := numLevels[j];
      var p := new real[n](_ => 0.0);
      for level := 0 to n
        invariant forall l :: 0 <= l < level ==> p[l] == Dot(x, StoredColumnOf(GetCatCidx(j, l)))
      {
        var cidx := GetCatCidx(j, level);
        p[level] := ColumnDot(x, cidx);
      }
      prod := p[..];
      forall l | 0 <= l < n
        ensures prod[l] == Dot(x, YColumn(GetCatCidx(j, l)))
      {
        StoredColumnIsYColumn(GetCatCidx(j, l));
      }
      CatProductIsVecMat(x, j, prod);
    }

    /** A vector whose entry `level` is x · (column getCatCidx(j, level) of Y) is x · Y_j. */
    lemma CatProductIsVecMat(x: seq<real>, j: int, prod: seq<real>)
      requires Valid() && 0 <= j < |numLevels| && numLevels[j] != 0 && |x| == Rank()
      requires |prod| == numLevels[j]
      requires forall l :: 0 <= l < numLevels[j] ==> prod[l] == Dot(x, YColumn(GetCatCidx(j, l)))
      ensures prod == VecMat(x, CatBlock(j), numLevels[j])
    {
      forall l | 0 <= l < numLevels[j]
        ensures prod[l] == VecMat(x, CatBlock(j), numLevels[j])[l]
      {
        CatBlockColumn(j, l);
      }
    }

    /** Column c as read from the stored array in its own orientation. */
    ghost function StoredColumnOf(c: int): (col: seq<real>)
      requires Valid() && 0 <= c < NFeatures()
    {
      seq(Rank(), k requires 0 <= k < Rank() => if transposed then archetypes[c][k] else archetypes[k][c])
    }

    lemma StoredColumnIsYColumn(c: int)
      requires Valid() && 0 <= c < NFeatures()
      ensures StoredColumnOf(c) == YColumn(c)
    {
    }

    /** Column `level` of Y_j is the column of Y that getCatCidx(j, level) names. */
    lemma CatBlockColumn(j: int, level: int)
      requires Valid() && 0 <= j < |numLevels| && numLevels[j] != 0 && 0 <= level < numLevels[j]
      ensures Column(CatBlock(j), level) == YColumn(GetCatCidx(j, level))
    {
    }

    /** Every categorical block ends before the first numeric column. */
    lemma BlocksBeforeNumeric()
      requires Valid()
      ensures forall j :: 0 <= j < NCats() ==> 0 <= catOffsets[j] && catOffsets[j] + numLevels[j] <= NumStart()
    {
      forall j | 0 <= j < NCats()
        ensures 0 <= catOffsets[j] && catOffsets[j] + numLevels[j] <= NumStart()
      {
        OffsetsMonotone(catOffsets, 0, j);
        OffsetsMonotone(catOffsets, j + 1, NCats());
      }
    }

    /** Two (feature, level) pairs name the same column only if they are the same pair. */
    lemma CatColumnsDistinct(j1: int, l1: int, j2: int, l2: int)
      requires Valid()
      requires 0 <= j1 < |numLevels| && numLevels[j1] != 0 && 0 <= l1 < numLevels[j1]
      requires 0 <= j2 < |numLevels| && numLevels[j2] != 0 && 0 <= l2 < numLevels[j2]
      requires GetCatCidx(j1, l1) == GetCatCidx(j2, l2)
      ensures j1 == j2 && l1 == l2
    {
      if j1 < j2 {
        OffsetsMonotone(catOffsets, j1 + 1, j2);
      } else if j2 < j1 {
        OffsetsMonotone(catOffsets, j2 + 1, j1);
      }
    }

    /** The block holding categorical column c. */
    lemma FindBlock(c: int) returns (j: int)
      requires Valid() && 0 <= c < NumStart()
      ensures 0 <= j < NCats() && catOffsets[j] <= c < catOffsets[j + 1]
    {
      j := NCats() - 1;
      while c < catOffsets[j]
        invariant 0 <= j < NCats() && c < catOffsets[j + 1]
        decreases j
      {
        j := j - 1;
      }
    }

    /**
     * The column layout is a partition: each column of Y is either exactly one categorical
     * (feature, level) pair or exactly one numeric feature, and numeric ones come last.
     */
    lemma ColumnLayout(c: int)
      requires Valid() && 0 <= c < NFeatures()
      ensures c < NumStart() ==>
        exists j, l :: 0 <= j < |numLevels| && numLevels[j] != 0 && 0 <= l < numLevels[j] && GetCatCidx(j, l) == c
      ensures NumStart() <= c ==> GetNumCidx(c - NumStart()) == c
    {
      if c < NumStart() {
        var j := FindBlock(c);
        assert GetCatCidx(j, c - catOffsets[j]) == c;
      }
    }

    /** Whatever is stored, getY(true) is the transpose of getY(false). */
    lemma GetYTransposes()
      requires IsProperMatrix(archetypes)
      ensures GetY(true) == Transpose(GetY(false))
    {
      if transposed {
        TransposeInvolution(archetypes);
      }
    }
  }

  /** rank() and nfeatures() swap roles when the same stored array is read with the other flag. */
  lemma RankSwapsWithFlag(a: Archetypes)
    requires IsProperMatrix(a.archetypes)
    ensures a.Rank() == a.(transposed := !a.transposed).NFeatures()
    ensures a.NFeatures() == a.(transposed := !a.transposed).Rank()
  {
  }

  /**
   * Storing Y or storing Yᵗ makes no difference to callers: rank, width, validity and both
   * views getY(false), getY(true) agree, and every accessor and product is specified through
   * getY(false) and so returns the same values for both.
   */
  lemma OrientationAgnostic(y: Matrix, catOffsets: seq<int>, numLevels: seq<int>)
    requires IsProperMatrix(y)
    ensures IsProperMatrix(Transpose(y))
    ensures
      var a := Archetypes(y, false, catOffsets, numLevels);
      var b := Archetypes(Transpose(y), true, catOffsets, numLevels);
      && a.Rank() == b.Rank() == |y|
      && a.NFeatures() == b.NFeatures() == |y[0]|
      && (a.Valid() <==> b.Valid())
      && a.GetY(false) == b.GetY(false) == y
      && a.GetY(true) == b.GetY(true) == Transpose(y)
  {
    TransposeInvolution(y);
  }

  /** Consequence for the numeric inner product: equal for both orientations. */
  lemma LmulNumColAgnostic(y: Matrix, catOffsets: seq<int>, numLevels: seq<int>, x: seq<real>, j: int)
    requires IsProperMatrix(y) && |x| == |y|
    requires Archetypes(y, false, catOffsets, numLevels).Valid()
    requires 0 <= Archetypes(y, false, catOffsets, numLevels).GetNumCidx(j) < |y[0]|
    ensures IsProperMatrix(Transpose(y)) && Archetypes(Transpose(y), true, catOffsets, numLevels).Valid()
    ensures
      var a := Archetypes(y, false, catOffsets, numLevels);
      var b := Archetypes(Transpose(y), true, catOffsets, numLevels);
      && b.GetNumCidx(j) == a.GetNumCidx(j)
      && Dot(x, a.YColumn(a.GetNumCidx(j))) == Dot(x, b.YColumn(b.GetNumCidx(j)))
  {
    OrientationAgnostic(y, catOffsets, numLevels);
  }

  /** Consequence for the categorical block product: equal for both orientations. */
  lemma LmulCatBlockAgnostic(y: Matrix, catOffsets: seq<int>, numLevels: seq<int>, x: seq<real>, j: int)
    requires IsProperMatrix(y) && |x| == |y|
    requires Archetypes(y, false, catOffsets, numLevels).Valid()
    requires 0 <= j < |numLevels| && numLevels[j] != 0
    ensures IsProperMatrix(Transpose(y)) && Archetypes(Transpose(y), true, catOffsets, numLevels).Valid()
    ensures
      var a := Archetypes(y, false, catOffsets, numLevels);
      var b := Archetypes(Transpose(y), true, catOffsets, numLevels);
      && a.CatBlock(j) == b.CatBlock(j)
      && VecMat(x, a.CatBlock(j), numLevels[j]) == VecMat(x, b.CatBlock(j), numLevels[j])
  {
    OrientationAgnostic(y, catOffsets, numLevels);
    var a := Archetypes(y, false, catOffsets, numLevels);
    var b := Archetypes(Transpose(y), true, catOffsets, numLevels);
    forall k | 0 <= k < |y|
      ensures a.CatBlock(j)[k] == b.CatBlock(j)[k]
    {
    }
  }
}
