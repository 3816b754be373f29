/**
 * Array reshaping helpers of the GLRM driver: one-hot expansion of categorical columns,
 * centring and scaling of numeric columns, and the squared Frobenius norm.
 */
module Reshape {
  import opened Wrappers
  import opened Matrices
  import opened ColumnBlocks

  /** A double of the source: a number, or NaN, which the source reads as a missing value. */
  datatype Entry = NA | Num(v: real)

  const IntMin: int := -0x8000_0000
  const IntMax: int := 0x7FFF_FFFF

  /**
   * Java's (int) cast of a finite double: truncation toward zero, saturating at the bounds
   * of a 32-bit int.
   */
  function TruncToInt(x: real): (n: int)
    ensures IntMin <= n <= IntMax
    ensures 0.0 <= x < IntMax as real + 1.0 ==> n as real <= x < n as real + 1.0
    ensures IntMin as real - 1.0 < x < 0.0 ==> n as real - 1.0 < x <= n as real
    ensures x >= IntMax as real ==> n == IntMax
    ensures x <= IntMin as real ==> n == IntMin
  {
    if x >= IntMax as real then IntMax
    else if x <= IntMin as real then IntMin
    else if x >= 0.0 then x.Floor
    else -((-x).Floor)
  }

  /**
   * What expansion reads of the frame layout: `cats` categorical columns followed by `nums`
   * numeric ones; categorical column j expands to columns [catOffsets[j], catOffsets[j + 1]),
   * whose last column is the NA bucket when catMissing[j] holds.
   */
  datatype DataInfo = DataInfo(cats: nat, nums: nat, catOffsets: seq<int>, catMissing: seq<bool>)
  {
    predicate Valid() {
      && |catOffsets| == cats + 1
      && |catMissing| == cats
      && Contiguous(catOffsets)
      && forall j :: 0 <= j < cats ==> Width(j) >= if catMissing[j] then 1 else 0
    }

    /** Number of expanded columns of categorical column j. */
    function Width(j: int): (w: int)
      requires |catOffsets| == cats + 1 && 0 <= j < cats
    {
      catOffsets[j + 1] - catOffsets[j]
    }

    /** First and one-past-last expanded column of categorical column j. */
    function Start(j: int): (s: int)
      requires Valid() && 0 <= j < cats
      ensures 0 <= s <= CatsExp()
    {
      OffsetsMonotone(catOffsets, 0, j);
      OffsetsMonotone(catOffsets, j, cats);
      catOffsets[j]
    }

    function End(j: int): (e: int)
      requires Valid() && 0 <= j < cats
      ensures Start(j) <= e <= CatsExp()
      ensures e - Start(j) == Width(j)
    {
      assert Width(j) >= 0;
      OffsetsMonotone(catOffsets, j + 1, cats);
      catOffsets[j + 1]
    }

    /** Width of the expanded categorical part. */
    function CatsExp(): (n: int)
      requires Valid()
      ensures n >= 0
    {
      OffsetsMonotone(catOffsets, 0, cats);
      catOffsets[cats]
    }

    /** Number of domain levels of categorical column j (its block minus the NA bucket). */
    function Levels(j: int): (n: int)
      requires Valid() && 0 <= j < cats
    {
      Width(j) - (if catMissing[j] then 1 else 0)
    }

    /**
     * Expanded column of level `level` of categorical column j, or -1 for a level outside the
     * domain (so that the caller ignores it).
     */
    function CategoricalId(j: int, level: int): (c: int)
      requires Valid() && 0 <= j < cats
      ensures c >= 0 <==> 0 <= level < Levels(j)
      ensures c >= 0 ==> c == Start(j) + level
    {
      BlocksInOrder();
      if 0 <= level < Levels(j) then Start(j) + level else -1
    }

    /** Blocks start at 0, never overlap and all end by CatsExp(). */
    lemma BlocksInOrder()
      requires Valid()
      ensures forall j :: 0 <= j < cats ==> 0 <= Start(j) <= End(j) <= CatsExp()
      ensures forall j1, j2 :: 0 <= j1 < j2 < cats ==> End(j1) <= Start(j2)
    {
      ColumnBlocks.BlocksInOrder(catOffsets);
    }

    /**
     * The expanded column that a categorical entry switches on, or -1 when it switches none:
     * a missing entry uses the NA bucket if there is one, a level uses its own column, and a
     * level outside the domain is ignored.
     */
    function HotColumn(e: Entry, j: int): (c: int)
      requires Valid() && 0 <= j < cats
      ensures c == -1 || Start(j) <= c < End(j)
    {
      match e
      case NA => if catMissing[j] then catOffsets[j + 1] - 1 else -1
      case Num(v) => CategoricalId(j, TruncToInt(v))
    }

    /** The indicator block that entry e of categorical column j expands to. */
    function ExpandedBlock(e: Entry, j: int): (b: seq<Entry>)
      requires Valid() && 0 <= j < cats
      ensures |b| == Width(j)
    {
      var hot := HotColumn(e, j);
      seq(Width(j), l requires 0 <= l < Width(j) => Indicator(Start(j) + l == hot))
    }
  }

  function Indicator(b: bool): (e: Entry) {
    if b then Num(1.0) else Num(0.0)
  }

  /**
   * One-hot expansion of the categorical columns of `sdata`: every row keeps its length in
   * rows, each categorical column becomes its block of 0/1 indicators (at most one 1), and the
   * numeric columns are copied unchanged after the last block. Absent data, or data with no
   * categorical column, is returned as it is.
   */
  method ExpandCats(sdata: Option<seq<seq<Entry>>>, dinfo: DataInfo) returns (r: Option<seq<seq<Entry>>>)
    requires dinfo.Valid()
    requires sdata.Some? ==> forall i :: 0 <= i < |sdata.value| ==> |sdata.value[i]| == dinfo.cats + dinfo.nums
    ensures sdata.None? || dinfo.cats == 0 ==> r == sdata
    ensures sdata.Some? && dinfo.cats > 0 ==> r.Some? && |r.value| == |sdata.value|
    ensures sdata.Some? && dinfo.cats > 0 ==>
      forall i :: 0 <= i < |r.value| ==> |r.value[i]| == dinfo.CatsExp() + dinfo.nums
    ensures sdata.Some? && dinfo.cats > 0 ==>
      forall i, j :: 0 <= i < |sdata.value| && 0 <= j < dinfo.cats ==>
        r.value[i][dinfo.Start(j)..dinfo.End(j)] == dinfo.ExpandedBlock(sdata.value[i][j], j)
    ensures sdata.Some? && dinfo.cats > 0 ==>
      forall i, c :: 0 <= i < |sdata.value| && dinfo.CatsExp() <= c < dinfo.CatsExp() + dinfo.nums ==>
        r.value[i][c] == sdata.value[i][c - dinfo.CatsExp() + dinfo.cats]
  {
    if sdata.None? || dinfo.cats == 0 {
      return sdata;
    }
    var data := sdata.value;
    var n := |data|;

    var catsexp := dinfo.CatsExp();
    var w := catsexp + dinfo.nums;
    var cexp := new Entry[n, w]((_, _) => Num(0.0));

    SetIndicators(data, dinfo, cexp);
    CopyNumeric(data, dinfo, cexp);
    var rows := seq(n, i requires 0 <= i < n reads cexp => seq(w, c requires 0 <= c < w reads cexp => cexp[i, c]));
    BlockSlices(dinfo, data, rows);
    r := Some(rows);
  }

  /** The categorical loop of ExpandCats: switch on the hot column of every block of every row. */
  method SetIndicators(data: seq<seq<Entry>>, dinfo: DataInfo, cexp: array2<Entry>)
    requires dinfo.Valid()
    requires forall i :: 0 <= i < |data| ==> |data[i]| == dinfo.cats + dinfo.nums
    requires cexp.Length0 == |data| && cexp.Length1 == dinfo.CatsExp() + dinfo.nums
    requires forall i, c :: 0 <= i < cexp.Length0 && 0 <= c < cexp.Length1 ==> cexp[i, c] == Num(0.0)
    modifies cexp
    ensures forall i, j, c :: 0 <= i < |data| && 0 <= j < dinfo.cats && dinfo.Start(j) <= c < dinfo.End(j) ==>
      cexp[i, c] == Indicator(c == dinfo.HotColumn(data[i][j], j))
    ensures forall i, c :: 0 <= i < |data| && dinfo.CatsExp() <= c < cexp.Length1 ==> cexp[i, c] == Num(0.0)
  {
    var n := |data|;
    var w := cexp.Length1;
    dinfo.BlocksInOrder();
    var off := dinfo.catOffsets;
    for j := 0 to dinfo.cats
      invariant forall i, j', c :: 0 <= i < n && 0 <= j' < j && dinfo.Start(j') <= c < dinfo.End(j') ==>
        cexp[i, c] == Indicator(c == dinfo.HotColumn(data[i][j'], j'))
      invariant forall i, c :: 0 <= i < n && 0 <= c && off[j] <= c < w ==> cexp[i, c] == Num(0.0)
    {
      SetBlock(data, dinfo, cexp, j);
    }
  }

  /**
   * One pass of the categorical loop: switch on, in every row, the hot column of block j.
   * The columns before the block are not written.
   */
  method SetBlock(data: seq<seq<Entry>>, dinfo: DataInfo, cexp: array2<Entry>, j: int)
    requires dinfo.Valid() && 0 <= j < dinfo.cats
    requires forall i :: 0 <= i < |data| ==> |data[i]| == dinfo.cats + dinfo.nums
    requires cexp.Length0 == |data| && cexp.Length1 == dinfo.CatsExp() + dinfo.nums
    requires forall i, c :: 0 <= i < |data| && dinfo.Start(j) <= c < cexp.Length1 ==> cexp[i, c] == Num(0.0)
    modifies cexp
    ensures forall i, c :: 0 <= i < |data| && 0 <= c < dinfo.Start(j) ==> cexp[i, c] == old(cexp[i, c])
    ensures forall i, c :: 0 <= i < |data| && dinfo.Start(j) <= c < dinfo.End(j) ==>
      cexp[i, c] == Indicator(c == dinfo.HotColumn(data[i][j], j))
    ensures forall i, c :: 0 <= i < |data| && dinfo.End(j) <= c < cexp.Length1 ==> cexp[i, c] == Num(0.0)
  {
    var n := |data|;
    var w := cexp.Length1;
    var off := dinfo.catOffsets;
    assert dinfo.Width(j) >= 0;
    assert off[j + 1] == dinfo.End(j) <= w;
    for i := 0 to n
      invariant forall i', c :: 0 <= i' < n && 0 <= c < dinfo.Start(j) ==> cexp[i', c] == old(cexp[i', c])
      invariant forall i', c :: 0 <= i' < i && dinfo.Start(j) <= c < dinfo.End(j) ==>
        cexp[i', c] == Indicator(c == dinfo.HotColumn(data[i'][j], j))
      invariant forall i', c :: i <= i' < n && dinfo.Start(j) <= c < w ==> cexp[i', c] == Num(0.0)
      invariant forall i', c :: 0 <= i' < n && dinfo.End(j) <= c < w ==> cexp[i', c] == Num(0.0)
    {
      var cidx: int;
      if data[i][j].NA? {
        // A missing entry without an NA bucket leaves the whole block zero
        if !dinfo.catMissing[j] {
          continue;
        }
        cidx := off[j + 1] - 1;
      } else {
        cidx := dinfo.CategoricalId(j, TruncToInt(data[i][j].v));
      }
      if cidx >= 0 {
        cexp[i, cidx] := Num(1.0);
      }
    }
  }

  /** The numeric loop of ExpandCats: copy the numeric columns after the last block. */
  method CopyNumeric(data: seq<seq<Entry>>, dinfo: DataInfo, cexp: array2<Entry>)
    requires dinfo.Valid()
    requires forall i :: 0 <= i < |data| ==> |data[i]| == dinfo.cats + dinfo.nums
    requires cexp.Length0 == |data| && cexp.Length1 == dinfo.CatsExp() + dinfo.nums
    modifies cexp
    ensures forall i, c :: 0 <= i < |data| && 0 <= c < dinfo.CatsExp() ==> cexp[i, c] == old(cexp[i, c])
    ensures forall i, c :: 0 <= i < |data| && dinfo.CatsExp() <= c < cexp.Length1 ==>
      cexp[i, c] == data[i][c - dinfo.CatsExp() + dinfo.cats]
  {
    var n := |data|;
    var catsexp := dinfo.CatsExp();
    for m := 0 to dinfo.nums
      invariant forall i, c :: 0 <= i < n && 0 <= c < catsexp ==> cexp[i, c] == old(cexp[i, c])
      invariant forall i, c :: 0 <= i < n && catsexp <= c < catsexp + m ==> cexp[i, c] == data[i][c - catsexp + dinfo.cats]
    {
      for i := 0 to n
        invariant forall i', c :: 0 <= i' < n && 0 <= c < catsexp ==> cexp[i', c] == old(cexp[i', c])
        invariant forall i', c :: 0 <= i' < n && catsexp <= c < catsexp + m ==> cexp[i', c] == data[i'][c - catsexp + dinfo.cats]
        invariant forall i' :: 0 <= i' < i ==> cexp[i', catsexp + m] == data[i'][dinfo.cats + m]
      {
        cexp[i, catsexp + m] := data[i][dinfo.cats + m];
      }
    }
  }

  /** Cell-by-cell indicators give each block its ExpandedBlock. */
  lemma BlockSlices(dinfo: DataInfo, data: seq<seq<Entry>>, rows: seq<seq<Entry>>)
    requires dinfo.Valid() && |rows| == |data|
    requires forall i :: 0 <= i < |data| ==> |data[i]| >= dinfo.cats && |rows[i]| >= dinfo.CatsExp()
    requires forall i, j, c :: 0 <= i < |rows| && 0 <= j < dinfo.cats && dinfo.Start(j) <= c < dinfo.End(j) ==>
      rows[i][c] == Indicator(c == dinfo.HotColumn(data[i][j], j))
    ensures forall i, j :: 0 <= i < |rows| && 0 <= j < dinfo.cats ==>
      rows[i][dinfo.Start(j)..dinfo.End(j)] == dinfo.ExpandedBlock(data[i][j], j)
  {
    forall i, j | 0 <= i < |rows| && 0 <= j < dinfo.cats
      ensures rows[i][dinfo.Start(j)..dinfo.End(j)] == dinfo.ExpandedBlock(data[i][j], j)
    {
      var b := dinfo.ExpandedBlock(data[i][j], j);
      var s := rows[i][dinfo.Start(j)..dinfo.End(j)];
      forall l | 0 <= l < |b|
        ensures s[l] == b[l]
      {
        assert s[l] == rows[i][dinfo.Start(j) + l];
      }
    }
  }

  /**
   * An expanded block holds only 0/1 values and at most one 1. A missing entry leaves it all
   * zero without an NA bucket and sets only its last column with one; a level of the domain
   * sets exactly its own column; a level outside the domain sets nothing.
   */
  lemma OneHotBlock(dinfo: DataInfo, e: Entry, j: int)
    requires dinfo.Valid() && 0 <= j < dinfo.cats
    ensures var b := dinfo.ExpandedBlock(e, j);
      forall l :: 0 <= l < |b| ==> b[l] == Num(0.0) || b[l] == Num(1.0)
    ensures var b := dinfo.ExpandedBlock(e, j);
      forall l1, l2 :: 0 <= l1 < |b| && 0 <= l2 < |b| && b[l1] == Num(1.0) && b[l2] == Num(1.0) ==> l1 == l2
    ensures var b := dinfo.ExpandedBlock(e, j);
      e.NA? && !dinfo.catMissing[j] ==> forall l :: 0 <= l < |b| ==> b[l] == Num(0.0)
    ensures var b := dinfo.ExpandedBlock(e, j);
      e.NA? && dinfo.catMissing[j] ==> forall l :: 0 <= l < |b| ==> (b[l] == Num(1.0) <==> l == |b| - 1)
    ensures var b := dinfo.ExpandedBlock(e, j);
      e.Num? && 0 <= TruncToInt(e.v) < dinfo.Levels(j) ==> forall l :: 0 <= l < |b| ==> (b[l] == Num(1.0) <==> l == TruncToInt(e.v))
    ensures var b := dinfo.ExpandedBlock(e, j);
      e.Num? && !(0 <= TruncToInt(e.v) < dinfo.Levels(j)) ==> forall l :: 0 <= l < |b| ==> b[l] == Num(0.0)
  {
    var b := dinfo.ExpandedBlock(e, j);
    var hot := dinfo.HotColumn(e, j);
    forall l | 0 <= l < |b|
      ensures b[l] == Indicator(dinfo.Start(j) + l == hot)
    {
    }
  }

  /** Numeric column m after centring by normSub and scaling by normMul (absent: 0 and 1). */
  function Standardize(x: real, normSub: Option<seq<real>>, normMul: Option<seq<real>>, m: nat): (y: real)
    requires normSub.Some? ==> m < |normSub.value|
    requires normMul.Some? ==> m < |normMul.value|
  {
    var sub := if normSub.Some? then normSub.value[m] else 0.0;
    var mul := if normMul.Some? then normMul.value[m] else 1.0;
    (x - sub) * mul
  }

  /** With both vectors null, the defaults 0 and 1 make standardizing the identity. */
  lemma StandardizeIdentity(x: real, normSub: Option<seq<real>>, normMul: Option<seq<real>>, m: nat)
    requires normSub.None? && normMul.None?
    ensures Standardize(x, normSub, normMul, m) == x
  {
  }

  /**
   * Rows of `centers` with the first ncats (categorical) columns copied and each numeric
   * column centred and scaled; the shape is that of centers[0].
   */
  method Transform(centers: Matrix, normSub: Option<seq<real>>, normMul: Option<seq<real>>, ncats: nat, nnums: nat)
    returns (value: Matrix)
    requires |centers| > 0 && |centers[0]| == ncats + nnums
    requires forall i :: 0 <= i < |centers| ==> |centers[i]| >= ncats + nnums
    requires normSub.Some? ==> |normSub.value| >= nnums
    requires normMul.Some? ==> |normMul.value| >= nnums
    ensures IsMatrix(value, |centers|, ncats + nnums)
    ensures forall i, c :: 0 <= i < |centers| && 0 <= c < ncats ==> value[i][c] == centers[i][c]
    ensures forall i, c :: 0 <= i < |centers| && ncats <= c < ncats + nnums ==>
      value[i][c] == Standardize(centers[i][c], normSub, normMul, c - ncats)
    ensures normSub.None? && normMul.None? && IsMatrix(centers, |centers|, ncats + nnums) ==> value == centers
  {
    var k := |centers|;
    var n := |centers[0]|;
    var v := new real[k, n]((_, _) => 0.0);
    var means := if normSub.None? then seq(nnums, _ => 0.0) else normSub.value;
    var mults := if normMul.None? then seq(nnums, _ => 1.0) else normMul.value;

    for clu := 0 to k
      invariant forall i, c :: 0 <= i < clu && 0 <= c < ncats ==> v[i, c] == centers[i][c]
      invariant forall i, c :: 0 <= i < clu && ncats <= c < ncats + nnums ==>
        v[i, c] == Standardize(centers[i][c], normSub, normMul, c - ncats)
    {
      TransformRow(centers, normSub, normMul, ncats, nnums, means, mults, v, clu);
    }
    value := seq(k, i requires 0 <= i < k reads v => seq(n, c requires 0 <= c < n reads v => v[i, c]));
    if normSub.None? && normMul.None? && IsMatrix(centers, k, n) {
      forall i | 0 <= i < k
        ensures value[i] == centers[i]
      {
        forall c | ncats <= c < n
          ensures value[i][c] == centers[i][c]
        {
          StandardizeIdentity(centers[i][c], normSub, normMul, c - ncats);
        }
      }
    }
  }

  /** One row of Transform: copy the categorical prefix, centre and scale the numeric columns. */
  method TransformRow(centers: Matrix, normSub: Option<seq<real>>, normMul: Option<seq<real>>, ncats: nat, nnums: nat,
                      means: seq<real>, mults: seq<real>, v: array2<real>, clu: nat)
    requires clu < |centers| && |centers[clu]| >= ncats + nnums
    requires v.Length0 == |centers| && v.Length1 == ncats + nnums
    requires |means| >= nnums && |mults| >= nnums
    requires normSub.Some? ==> |normSub.value| >= nnums
    requires normMul.Some? ==> |normMul.value| >= nnums
    requires forall m :: 0 <= m < nnums ==> means[m] == if normSub.Some? then normSub.value[m] else 0.0
    requires forall m :: 0 <= m < nnums ==> mults[m] == if normMul.Some? then normMul.value[m] else 1.0
    modifies v
    ensures forall i, c :: 0 <= i < v.Length0 && 0 <= c < v.Length1 && i != clu ==> v[i, c] == old(v[i, c])
    ensures forall c :: 0 <= c < ncats ==> v[clu, c] == centers[clu][c]
    ensures forall c :: ncats <= c < ncats + nnums ==> v[clu, c] == Standardize(centers[clu][c], normSub, normMul, c - ncats)
  {
    // The categorical prefix is copied as a block
    forall c | 0 <= c < ncats {
      v[clu, c] := centers[clu][c];
    }
    for col := 0 to nnums
      invariant forall i, c :: 0 <= i < v.Length0 && 0 <= c < v.Length1 && i != clu ==> v[i, c] == old(v[i, c])
      invariant forall c :: 0 <= c < ncats ==> v[clu, c] == centers[clu][c]
      invariant forall c :: ncats <= c < ncats + col ==> v[clu, c] == Standardize(centers[clu][c], normSub, normMul, c - ncats)
    {
      v[clu, ncats + col] := (centers[clu][ncats + col] - means[col]) * mults[col];
    }
  }

  /** Σ x[i][c]² over all rows and the first w columns, row by row. */
  function SumSquares(x: Matrix, w: nat): (s: real)
    requires forall i :: 0 <= i < |x| ==> |x[i]| >= w
    decreases |x|
  {
    if |x| == 0 then 0.0 else SumSquares(x[..|x| - 1], w) + Dot(x[|x| - 1][..w], x[|x| - 1][..w])
  }

  lemma {:induction false} SumSquaresZero(x: Matrix, w: nat)
    requires forall i :: 0 <= i < |x| ==> |x[i]| >= w
    ensures SumSquares(x, w) >= 0.0
    ensures SumSquares(x, w) == 0.0 <==> forall i, c :: 0 <= i < |x| && 0 <= c < w ==> x[i][c] == 0.0
    decreases |x|
  {
    if |x| > 0 {
      var init := x[..|x| - 1];
      SumSquaresZero(init, w);
      DotSelfZero(x[|x| - 1][..w]);
      assert forall i :: 0 <= i < |init| ==> init[i] == x[i];
    }
  }

  /**
   * Squared Frobenius norm: the sum of squares of all entries, reading every row up to the
   * width of the first one; an absent matrix has norm 0. The norm is zero exactly when all
   * those entries are zero (the test the initializer uses to reject degenerate archetypes).
   */
  method Frobenius2(x: Option<Matrix>) returns (frob: real)
    requires x.Some? && |x.value| > 0 ==> forall i :: 0 <= i < |x.value| ==> |x.value[i]| >= |x.value[0]|
    ensures x.None? ==> frob == 0.0
    ensures x.Some? && |x.value| > 0 ==> frob == SumSquares(x.value, |x.value[0]|)
    ensures frob >= 0.0
    ensures frob == 0.0 <==>
      x.None? || forall i, c :: 0 <= i < |x.value| && 0 <= c < |x.value[0]| ==> x.value[i][c] == 0.0
  {
    if x.None? {
      return 0.0;
    }
    var m := x.value;
    frob := 0.0;
    if |m| == 0 {
      return;
    }
    var w := |m[0]|;
    for i := 0 to |m|
      invariant frob == SumSquares(m[..i], w)
    {
      ghost var before := frob;
      for j := 0 to w
        invariant frob == before + Dot(m[i][..j], m[i][..j])
      {
        DotStep(m[i], m[i], j);
        frob := frob + m[i][j] * m[i][j];
      }
      assert m[..i + 1][..i] == m[..i];
    }
    assert m[..|m|] == m;
    SumSquaresZero(m, w);
  }
}
