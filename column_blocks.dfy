/**
 * The layout of one-hot categorical blocks, shared by the expanded training frame and the
 * archetype matrix: block j spans columns [offsets[j], offsets[j + 1]), the first block starts
 * at column 0, and every block has a non-negative width.
 */
module ColumnBlocks {

  /** Blocks laid out from column 0, each one starting where the previous one ends. */
  predicate Contiguous(offsets: seq<int>) {
    && |offsets| > 0
    && offsets[0] == 0
    && forall j :: 0 <= j < |offsets| - 1 ==> offsets[j] <= offsets[j + 1]
  }

  /** Offsets never decrease: a later block never starts before an earlier one. */
  lemma {:induction false} OffsetsMonotone(offsets: seq<int>, j1: int, j2: int)
    requires Contiguous(offsets) && 0 <= j1 <= j2 < |offsets|
    ensures offsets[j1] <= offsets[j2]
    decreases j2 - j1
  {
    if j1 < j2 {
      OffsetsMonotone(offsets, j1 + 1, j2);
    }
  }

  /**
   * Every offset lies in [0, the last offset], and the offsets are in column order, so that
   * block j1 ends (at offsets[j1 + 1]) no later than a later block j2 starts.
   */
  lemma BlocksInOrder(offsets: seq<int>)
    requires Contiguous(offsets)
    ensures forall j :: 0 <= j < |offsets| ==> 0 <= offsets[j] <= offsets[|offsets| - 1]
    ensures forall j1, j2 :: 0 <= j1 <= j2 < |offsets| ==> offsets[j1] <= offsets[j2]
  {
    forall j1, j2 | 0 <= j1 <= j2 < |offsets|
      ensures offsets[j1] <= offsets[j2]
    {
      OffsetsMonotone(offsets, j1, j2);
    }
  }
}
