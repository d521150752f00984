/** Block repartitioning (src/bendersx_engine/partitioning.py).

    A block is `(block_id, start, end)`, the half-open index range `[start, end)` of
    the global production vector. Between iterations a block is halved when it is
    larger than `max_block_size` and its dual gap exceeds the tolerance. */
module Partitioning {
  import opened Floats

  datatype Block = Block(id: string, start: int, end: int)

  /** The dual-gap threshold `1e-3`. */
  const GapTolerance: real := 0.001

  function Size(b: Block): int {
    b.end - b.start
  }

  /** `dual_gaps.get(block_id, 0)`. */
  function GapOf(gaps: map<string, Float>, id: string): Float {
    if id in gaps then gaps[id] else Fin(0.0)
  }

  predicate ShouldSplit(b: Block, gaps: map<string, Float>, maxBlockSize: int) {
    Size(b) > maxBlockSize && GreaterThan(GapOf(gaps, b.id), GapTolerance)
  }

  /** `start + size // 2`; Dafny's `/` by a positive divisor rounds down like `//`. */
  function SplitPoint(b: Block): int {
    b.start + Size(b) / 2
  }

  /** What one input block becomes: its two halves, or itself. */
  function Refine(b: Block, gaps: map<string, Float>, maxBlockSize: int): (r: seq<Block>)
    ensures 1 <= |r| <= 2
    ensures |r| == 2 <==> ShouldSplit(b, gaps, maxBlockSize)
    ensures |r| == 1 ==> r[0] == b
    ensures |r| == 2 ==>
      r[0] == Block(b.id, b.start, SplitPoint(b)) && r[1] == Block("split_" + b.id, SplitPoint(b), b.end)
  {
    if ShouldSplit(b, gaps, maxBlockSize) then
      [Block(b.id, b.start, SplitPoint(b)), Block("split_" + b.id, SplitPoint(b), b.end)]
    else
      [b]
  }

  /** `repartition_blocks`: the refinements of the blocks, in input order. */
  function Repartition(blocks: seq<Block>, gaps: map<string, Float>, maxBlockSize: int): seq<Block>
  {
    if blocks == [] then []
    else Repartition(blocks[..|blocks| - 1], gaps, maxBlockSize) + Refine(blocks[|blocks| - 1], gaps, maxBlockSize)
  }

  /** The loop of `repartition_blocks`, appending to `new_metadata`. */
  method RepartitionBlocks(blocksMetadata: seq<Block>, dualGaps: map<string, Float>, maxBlockSize: int)
    returns (newMetadata: seq<Block>)
    ensures newMetadata == Repartition(blocksMetadata, dualGaps, maxBlockSize)
  {
    newMetadata := [];
    for k := 0 to |blocksMetadata|
      invariant newMetadata == Repartition(blocksMetadata[..k], dualGaps, maxBlockSize)
    {
      var b := blocksMetadata[k];
      var size := b.end - b.start;
      var gap := if b.id in dualGaps then dualGaps[b.id] else Fin(0.0);
      if size > maxBlockSize && GreaterThan(gap, GapTolerance) {
        var mid := b.start + size / 2;
        newMetadata := newMetadata + [Block(b.id, b.start, mid)];
        newMetadata := newMetadata + [Block("split_" + b.id, mid, b.end)];
      } else {
        newMetadata := newMetadata + [b];
      }
      assert blocksMetadata[..k + 1][..k] == blocksMetadata[..k];
    }
    assert blocksMetadata[..|blocksMetadata|] == blocksMetadata;
  }

  /** Each input block yields one or two entries. */
  lemma {:induction false} RepartitionLength(blocks: seq<Block>, gaps: map<string, Float>, maxBlockSize: int)
    ensures |blocks| <= |Repartition(blocks, gaps, maxBlockSize)| <= 2 * |blocks|
  {
    if blocks != [] {
      RepartitionLength(blocks[..|blocks| - 1], gaps, maxBlockSize);
    }
  }

  /** When `max_block_size >= 1`, both halves of a split block are non-empty and
      strictly smaller than the block. */
  lemma SplitHalvesShrink(b: Block, gaps: map<string, Float>, maxBlockSize: int)
    requires maxBlockSize >= 1 && ShouldSplit(b, gaps, maxBlockSize)
    ensures var r := Refine(b, gaps, maxBlockSize);
      0 < Size(r[0]) < Size(b) && 0 < Size(r[1]) < Size(b)
  {
  }

  // ---------------------------------------------------------------------------
  // Ranges that tile an interval
  // ---------------------------------------------------------------------------

  /** The ranges of `bs`, in order, cover `[lo, hi)` without gap or overlap. */
  predicate Tiles(bs: seq<Block>, lo: int, hi: int) {
    if bs == [] then lo == hi
    else
      var last := bs[|bs| - 1];
      last.start <= last.end && last.end == hi && Tiles(bs[..|bs| - 1], lo, last.start)
  }

  lemma {:induction false} TilesAppend(s: seq<Block>, t: seq<Block>, lo: int, mid: int, hi: int)
    requires Tiles(s, lo, mid) && Tiles(t, mid, hi)
    ensures Tiles(s + t, lo, hi)
    decreases |t|
  {
    if t != [] {
      var last := t[|t| - 1];
      TilesAppend(s, t[..|t| - 1], lo, mid, last.start);
      var st := s + t;
      assert st[..|st| - 1] == s + t[..|t| - 1];
      assert st[|st| - 1] == last;
      assert Tiles(st[..|st| - 1], lo, last.start);
    } else {
      assert s + t == s;
    }
  }

  lemma RefineTiles(b: Block, gaps: map<string, Float>, maxBlockSize: int)
    requires b.start <= b.end
    ensures Tiles(Refine(b, gaps, maxBlockSize), b.start, b.end)
  {
    var r := Refine(b, gaps, maxBlockSize);
    if |r| == 2 {
      assert r[..1] == [r[0]];
      assert [r[0]][..0] == [];
    } else {
      assert r[..0] == [];
    }
  }

  /** Repartitioning keeps a tiling of `[lo, hi)` a tiling of `[lo, hi)`; in particular
      block ranges that partition `[0, n)` still do after the split. */
  lemma {:induction false} RepartitionTiles(blocks: seq<Block>, gaps: map<string, Float>, maxBlockSize: int, lo: int, hi: int)
    requires Tiles(blocks, lo, hi)
    ensures Tiles(Repartition(blocks, gaps, maxBlockSize), lo, hi)
  {
    if blocks != [] {
      var last := blocks[|blocks| - 1];
      RepartitionTiles(blocks[..|blocks| - 1], gaps, maxBlockSize, lo, last.start);
      RefineTiles(last, gaps, maxBlockSize);
      TilesAppend(Repartition(blocks[..|blocks| - 1], gaps, maxBlockSize), Refine(last, gaps, maxBlockSize), lo, last.start, hi);
    }
  }

  /** Every range of a tiling lies inside the tiled interval, and the ranges follow
      each other: a later range starts no earlier than an earlier one ends. */
  lemma {:induction false} TilesOrdered(bs: seq<Block>, lo: int, hi: int)
    requires Tiles(bs, lo, hi)
    ensures lo <= hi
    ensures forall i :: 0 <= i < |bs| ==> lo <= bs[i].start <= bs[i].end <= hi
    ensures forall i, j :: 0 <= i < j < |bs| ==> bs[i].end <= bs[j].start
  {
    if bs != [] {
      var last := bs[|bs| - 1];
      var init := bs[..|bs| - 1];
      TilesOrdered(init, lo, last.start);
      assert forall i :: 0 <= i < |bs| - 1 ==> bs[i] == init[i];
    }
  }

  /** Every index of a tiled interval lies in some range of the tiling. */
  lemma {:induction false} TilesCover(bs: seq<Block>, lo: int, hi: int, k: int)
    requires Tiles(bs, lo, hi) && lo <= k < hi
    ensures exists i :: 0 <= i < |bs| && bs[i].start <= k < bs[i].end
  {
    var last := bs[|bs| - 1];
    var init := bs[..|bs| - 1];
    if k < last.start {
      TilesCover(init, lo, last.start, k);
      var i :| 0 <= i < |init| && init[i].start <= k < init[i].end;
      assert bs[i] == init[i];
    } else {
      assert bs[|bs| - 1].start <= k < bs[|bs| - 1].end;
    }
  }

  /** Blocks no larger than the size bound pass through unchanged. */
  lemma {:induction false} RepartitionSmallBlocks(blocks: seq<Block>, gaps: map<string, Float>, maxBlockSize: int)
    requires forall i :: 0 <= i < |blocks| ==> Size(blocks[i]) <= maxBlockSize
    ensures Repartition(blocks, gaps, maxBlockSize) == blocks
  {
    if blocks != [] {
      var init := blocks[..|blocks| - 1];
      var last := blocks[|blocks| - 1];
      assert init + [last] == blocks;
      assert forall i :: 0 <= i < |init| ==> Size(init[i]) <= maxBlockSize;
      RepartitionSmallBlocks(init, gaps, maxBlockSize);
      assert Size(last) <= maxBlockSize;
    }
  }

  /** The driver calls `repartition_blocks(blocks, gaps, n)`: no block of a tiling of
      `[0, n)` is larger than `n`, so nothing is ever split. */
  lemma RepartitionWholeRangeIsIdentity(blocks: seq<Block>, gaps: map<string, Float>, n: int)
    requires Tiles(blocks, 0, n)
    ensures Repartition(blocks, gaps, n) == blocks
  {
    TilesOrdered(blocks, 0, n);
    RepartitionSmallBlocks(blocks, gaps, n);
  }

  /** The partitioning test: `("b", 0, 10)` with gap 2.0 and maximum size 5 is split
      into `("b", 0, 5)` and `("split_b", 5, 10)`. */
  lemma SplitExample()
    ensures Repartition([Block("b", 0, 10)], map["b" := Fin(2.0)], 5)
         == [Block("b", 0, 5), Block("split_b", 5, 10)]
  {
    var b := Block("b", 0, 10);
    var gaps := map["b" := Fin(2.0)];
    assert [b][..0] == [];
    assert GapOf(gaps, "b") == Fin(2.0);
    assert ShouldSplit(b, gaps, 5);
    assert "split_" + "b" == "split_b";
  }
}
