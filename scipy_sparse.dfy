/** The scipy.sparse stand-in (src/scipy/sparse.py). `csr_matrix` adds nothing to
    `SimpleMatrix`, so its matrices are `SimpleMatrix` objects here. */
module ScipySparse {
  import opened Wrappers
  import opened SimpleMatrices

  /** `identity(n)`. */
  method Identity(n: int) returns (m: SimpleMatrix)
    ensures fresh(m)
    ensures m.data == IdentityRows(n) && m.Valid()
  {
    var k := if n < 0 then 0 else n;
    var rows := seq(k, i requires 0 <= i < k => seq(k, j requires 0 <= j < k => if i == j then 1.0 else 0.0));
    m := new SimpleMatrix(rows);
  }

  // ---------------------------------------------------------------------------
  // vstack
  // ---------------------------------------------------------------------------

  /** The rows of each matrix, in order. */
  function AllData(mats: seq<SimpleMatrix>): seq<Rows>
    reads mats
  {
    seq(|mats|, i requires 0 <= i < |mats| reads mats => mats[i].data)
  }

  /** The rows of every block, one block after the other. */
  function ConcatRows(blocks: seq<Rows>): Rows {
    if blocks == [] then [] else ConcatRows(blocks[..|blocks| - 1]) + blocks[|blocks| - 1]
  }

  /** The total row count of the blocks. */
  function RowTotal(blocks: seq<Rows>): nat {
    if blocks == [] then 0 else RowTotal(blocks[..|blocks| - 1]) + |blocks[|blocks| - 1]|
  }

  /** The stacked row count is the sum of the row counts. */
  lemma {:induction false} ConcatRowsLength(blocks: seq<Rows>)
    ensures |ConcatRows(blocks)| == RowTotal(blocks)
  {
    if blocks != [] {
      ConcatRowsLength(blocks[..|blocks| - 1]);
    }
  }

  /** Row `k` of block `i` is row `RowTotal(blocks[..i]) + k` of the stack. */
  lemma {:induction false} ConcatRowsIndex(blocks: seq<Rows>, i: int, k: int)
    requires 0 <= i < |blocks| && 0 <= k < |blocks[i]|
    ensures RowTotal(blocks[..i]) + k < |ConcatRows(blocks)|
    ensures ConcatRows(blocks)[RowTotal(blocks[..i]) + k] == blocks[i][k]
  {
    var init := blocks[..|blocks| - 1];
    ConcatRowsLength(init);
    ConcatRowsLength(blocks);
    if i == |blocks| - 1 {
      assert blocks[..i] == init;
    } else {
      assert init[..i] == blocks[..i];
      ConcatRowsIndex(init, i, k);
    }
  }

  /** `vstack(mats)`: the rows of all matrices, copied, in order. */
  method VStack(mats: seq<SimpleMatrix>) returns (m: SimpleMatrix)
    ensures fresh(m)
    ensures m.data == ConcatRows(AllData(mats)) && m.Valid()
  {
    var data: Rows := [];
    for k := 0 to |mats|
      invariant data == ConcatRows(AllData(mats)[..k])
    {
      assert AllData(mats)[..k + 1][..k] == AllData(mats)[..k];
      data := data + mats[k].data;
    }
    assert AllData(mats)[..|mats|] == AllData(mats);
    m := new SimpleMatrix(data);
  }

  // ---------------------------------------------------------------------------
  // hstack
  // ---------------------------------------------------------------------------

  /** Row `r` of every block, joined in order. */
  function JoinRow(blocks: seq<Rows>, r: nat): seq<real>
    requires forall i :: 0 <= i < |blocks| ==> r < |blocks[i]|
  {
    if blocks == [] then [] else JoinRow(blocks[..|blocks| - 1], r) + blocks[|blocks| - 1][r]
  }

  /** The sum of the lengths of row `r` across the blocks. */
  function RowWidth(blocks: seq<Rows>, r: nat): nat
    requires forall i :: 0 <= i < |blocks| ==> r < |blocks[i]|
  {
    if blocks == [] then 0 else RowWidth(blocks[..|blocks| - 1], r) + |blocks[|blocks| - 1][r]|
  }

  /** Every block has row `r` for each `r < rows`. */
  predicate HasRows(blocks: seq<Rows>, rows: int) {
    forall i :: 0 <= i < |blocks| ==> rows <= |blocks[i]|
  }

  /** The rows of `hstack` when the first matrix reports `rows` rows. */
  function SideBySide(blocks: seq<Rows>, rows: int): (r: Rows)
    requires HasRows(blocks, rows)
  {
    seq(if rows < 0 then 0 else rows, k requires 0 <= k < rows => JoinRow(blocks, k))
  }

  /** Each joined row is as long as the corresponding rows together. */
  lemma {:induction false} JoinRowLength(blocks: seq<Rows>, r: nat)
    requires forall i :: 0 <= i < |blocks| ==> r < |blocks[i]|
    ensures |JoinRow(blocks, r)| == RowWidth(blocks, r)
  {
    if blocks != [] {
      JoinRowLength(blocks[..|blocks| - 1], r);
    }
  }

  /** Entry `j` of row `r` of block `i` sits, in the joined row, after the row-`r`
      entries of the blocks before `i`. */
  lemma {:induction false} JoinRowIndex(blocks: seq<Rows>, r: nat, i: int, j: int)
    requires forall i :: 0 <= i < |blocks| ==> r < |blocks[i]|
    requires 0 <= i < |blocks| && 0 <= j < |blocks[i][r]|
    ensures RowWidth(blocks[..i], r) + j < |JoinRow(blocks, r)|
    ensures JoinRow(blocks, r)[RowWidth(blocks[..i], r) + j] == blocks[i][r][j]
  {
    var init := blocks[..|blocks| - 1];
    JoinRowLength(init, r);
    JoinRowLength(blocks, r);
    if i == |blocks| - 1 {
      assert blocks[..i] == init;
    } else {
      assert init[..i] == blocks[..i];
      JoinRowIndex(init, r, i, j);
    }
  }

  /** `hstack(mats)`: no matrices give the empty matrix; otherwise as many rows as the
      first matrix's shape says, each row `r` the rows `r` of all matrices joined. A
      matrix with fewer rows than that raises `IndexError` when its missing row is read. */
  method HStack(mats: seq<SimpleMatrix>) returns (res: Result<SimpleMatrix, string>)
    ensures res.Success? <==> mats == [] || HasRows(AllData(mats), mats[0].shape.0)
    ensures res.Success? ==> fresh(res.value) && res.value.Valid()
    ensures res.Success? && mats == [] ==> res.value.data == [] && res.value.shape == (0, 0)
    ensures res.Success? && mats != [] ==> res.value.data == SideBySide(AllData(mats), mats[0].shape.0)
  {
    if mats == [] {
      var m := new SimpleMatrix([]);
      return Success(m);
    }
    var blocks := AllData(mats);
    var rows := mats[0].shape.0;
    var data: Rows := [];
    var r := 0;
    while r < rows
      invariant 0 <= r && (r <= rows || r == 0)
      invariant |data| == r
      invariant HasRows(blocks, r)
      invariant forall k :: 0 <= k < r ==> data[k] == JoinRow(blocks, k)
    {
      var row: seq<real> := [];
      for t := 0 to |mats|
        invariant forall u :: 0 <= u < t ==> r < |blocks[..t][u]|
        invariant row == JoinRow(blocks[..t], r)
      {
        assert blocks[..t + 1][..t] == blocks[..t];
        assert blocks[t] == mats[t].data;
        if r >= |mats[t].data| {
          return Failure("IndexError: list index out of range");
        }
        row := row + mats[t].data[r];
      }
      assert blocks[..|mats|] == blocks;
      data := data + [row];
      r := r + 1;
    }
    var m := new SimpleMatrix(data);
    return Success(m);
  }

  /** `hstack` puts row `r` of every matrix side by side: the joined row's length is
      the sum of their lengths. */
  lemma HStackRowLength(blocks: seq<Rows>, rows: int, r: int)
    requires HasRows(blocks, rows) && 0 <= r < rows
    ensures |SideBySide(blocks, rows)[r]| == RowWidth(blocks, r)
  {
    JoinRowLength(blocks, r);
  }
}
