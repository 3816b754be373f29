/**
 * Column layout of the working frame [A, X, W] of the GLRM driver: the ncolA training
 * columns A, then the ncolX columns of the committed X, then the ncolX columns of the
 * working copy W where each iteration writes its candidate X.
 */
module WorkingFrame {

  /** Frame column of column c of the committed X: past the ncolA columns of A exactly for c >= 0. */
  function IdxXOld(c: int, ncolA: int): (k: int)
    ensures 0 <= c <==> ncolA <= k
  {
    ncolA + c
  }

  /**
   * Frame column of column c of the working copy W (the candidate X): the column of X it
   * shadows, shifted past the ncolX columns of X.
   */
  function IdxXNew(c: int, ncolA: int, ncolX: int): (k: int)
    ensures 0 <= c <==> ncolA + ncolX <= k
    ensures k == IdxXOld(c, ncolA) + ncolX
  {
    ncolA + ncolX + c
  }

  /** Which block of the frame a column belongs to. */
  datatype Block = A | XOld | XNew | Outside

  /** The block of frame column k, decided from the layout sizes alone. */
  function BlockOf(k: int, ncolA: nat, ncolX: nat): (b: Block) {
    if 0 <= k < ncolA then A
    else if ncolA <= k < ncolA + ncolX then XOld
    else if ncolA + ncolX <= k < ncolA + 2 * ncolX then XNew
    else Outside
  }

  /**
   * The layout is a partition: every X column and every W column sits in its own block,
   * the two index maps never collide, each is injective, and every frame column beyond A
   * is the image of exactly one of them.
   */
  lemma LayoutPartition(ncolA: nat, ncolX: nat)
    ensures forall c :: 0 <= c < ncolX ==> BlockOf(IdxXOld(c, ncolA), ncolA, ncolX) == XOld
    ensures forall c :: 0 <= c < ncolX ==> BlockOf(IdxXNew(c, ncolA, ncolX), ncolA, ncolX) == XNew
    ensures forall c1, c2 :: IdxXOld(c1, ncolA) == IdxXOld(c2, ncolA) ==> c1 == c2
    ensures forall c1, c2 :: IdxXNew(c1, ncolA, ncolX) == IdxXNew(c2, ncolA, ncolX) ==> c1 == c2
    ensures forall c1, c2 :: 0 <= c1 < ncolX && 0 <= c2 < ncolX ==> IdxXOld(c1, ncolA) != IdxXNew(c2, ncolA, ncolX)
    ensures forall k :: BlockOf(k, ncolA, ncolX) == XOld ==> IdxXOld(k - ncolA, ncolA) == k
    ensures forall k :: BlockOf(k, ncolA, ncolX) == XNew ==> IdxXNew(k - ncolA - ncolX, ncolA, ncolX) == k
  {
  }

  /** The frame column holding column c of the final X: the working copy if it was accepted last. */
  function FinalXColumn(overwriteX: bool, c: int, ncolA: int, ncolX: int): (k: int) {
    if overwriteX then IdxXNew(c, ncolA, ncolX) else IdxXOld(c, ncolA)
  }

  /** The frame column of column c that is discarded at the end. */
  function DiscardedXColumn(overwriteX: bool, c: int, ncolA: int, ncolX: int): (k: int) {
    if overwriteX then IdxXOld(c, ncolA) else IdxXNew(c, ncolA, ncolX)
  }

  /** Collects the frame columns of the X saved for the user, in column order. */
  method SaveX(overwriteX: bool, ncolA: nat, ncolX: nat) returns (xcols: seq<int>)
    ensures |xcols| == ncolX
    ensures forall c :: 0 <= c < ncolX ==> xcols[c] == FinalXColumn(overwriteX, c, ncolA, ncolX)
    ensures forall c :: 0 <= c < ncolX ==> BlockOf(xcols[c], ncolA, ncolX) == (if overwriteX then XNew else XOld)
  {
    var xvecs := new int[ncolX](_ => 0);
    if overwriteX {
      for i := 0 to ncolX
        invariant forall c :: 0 <= c < i ==> xvecs[c] == IdxXNew(c, ncolA, ncolX)
      {
        xvecs[i] := IdxXNew(i, ncolA, ncolX);
      }
    } else {
      for i := 0 to ncolX
        invariant forall c :: 0 <= c < i ==> xvecs[c] == IdxXOld(c, ncolA)
      {
        xvecs[i] := IdxXOld(i, ncolA);
      }
    }
    xcols := xvecs[..];
    LayoutPartition(ncolA, ncolX);
  }

  /** Collects the frame columns of the unused copy of X that the clean-up removes. */
  method UnusedX(overwriteX: bool, ncolA: nat, ncolX: nat) returns (removed: seq<int>)
    ensures |removed| == ncolX
    ensures forall c :: 0 <= c < ncolX ==> removed[c] == DiscardedXColumn(overwriteX, c, ncolA, ncolX)
  {
    var cols := new int[ncolX](_ => 0);
    if overwriteX {
      for i := 0 to ncolX
        invariant forall c :: 0 <= c < i ==> cols[c] == IdxXOld(c, ncolA)
      {
        cols[i] := IdxXOld(i, ncolA);
      }
    } else {
      for i := 0 to ncolX
        invariant forall c :: 0 <= c < i ==> cols[c] == IdxXNew(c, ncolA, ncolX)
      {
        cols[i] := IdxXNew(i, ncolA, ncolX);
      }
    }
    removed := cols[..];
  }

  /**
   * The saved copy and the removed copy of X never share a column, and together they are
   * exactly the X and W blocks: nothing of A is removed and no X column is lost.
   */
  lemma SavedAndRemovedPartition(overwriteX: bool, ncolA: nat, ncolX: nat)
    ensures forall c1, c2 :: 0 <= c1 < ncolX && 0 <= c2 < ncolX ==>
      FinalXColumn(overwriteX, c1, ncolA, ncolX) != DiscardedXColumn(overwriteX, c2, ncolA, ncolX)
    ensures forall c :: 0 <= c < ncolX ==> DiscardedXColumn(overwriteX, c, ncolA, ncolX) >= ncolA
    ensures forall k :: BlockOf(k, ncolA, ncolX) in {XOld, XNew} ==>
      exists c :: 0 <= c < ncolX &&
        (k == FinalXColumn(overwriteX, c, ncolA, ncolX) || k == DiscardedXColumn(overwriteX, c, ncolA, ncolX))
  {
    forall k | BlockOf(k, ncolA, ncolX) in {XOld, XNew}
      ensures exists c :: 0 <= c < ncolX && (k == FinalXColumn(overwriteX, c, ncolA, ncolX) ||
                                                k == DiscardedXColumn(overwriteX, c, ncolA, ncolX))
    {
      var c := if k < ncolA + ncolX then k - ncolA else k - ncolA - ncolX;
      assert k == FinalXColumn(overwriteX, c, ncolA, ncolX) || k == DiscardedXColumn(overwriteX, c, ncolA, ncolX);
    }
  }
}
