/** The master problem (src/bendersx_engine/master.py). It assembles a linear program
    over the block allocations `r[i][j]` (block `i`, resource `j`) and the surrogate
    bounds `theta[i]`, hands it to the LP solver with the previous basis as a warm
    start, and reads back the allocation. The solver itself is not modelled: its
    outcome (optimal with a column vector and a basis, or anything else) and whether
    it accepts the warm-start basis are inputs. */
module Master {
  import opened Floats
  import opened Wrappers
  import opened Cuts
  import opened Partitioning

  /** A column: its bounds and its objective coefficient. */
  datatype Column = Column(lower: Float, upper: Float, cost: real)

  /** A row: its bounds and its sparse coefficients. */
  datatype Row = Row(lower: Float, upper: Float, indices: seq<int>, coeffs: seq<Float>)

  /** A basis the solver reports; its contents are the solver's business. */
  datatype Basis = Basis(statuses: seq<int>)

  /** The program handed to the solver, with the warm-start basis if one was set. */
  datatype LpModel = LpModel(cols: seq<Column>, rows: seq<Row>, startBasis: Option<Basis>)

  /** What the solver run ends with. */
  datatype SolverOutcome = Optimal(colValue: seq<real>, basis: Basis) | NotOptimal

  /** `(r_vars, theta)`: the allocation as `b` rows and one bound per block. */
  datatype MasterResult = MasterResult(rVars: seq<seq<real>>, theta: seq<Float>)

  // ---------------------------------------------------------------------------
  // Columns
  // ---------------------------------------------------------------------------

  /** An allocation column: `[0, +inf)`, cost 0. */
  const AllocationColumn: Column := Column(Fin(0.0), PosInf, 0.0)

  /** A surrogate column: free, cost -1 (the solver maximises the sum of the thetas). */
  const ThetaColumn: Column := Column(NegInf, PosInf, -1.0)

  /** `b * m0` allocation columns, column `i * m0 + j` for block `i` and resource `j`,
      then `b` surrogate columns. */
  function Columns(b: nat, m0: nat): (cols: seq<Column>)
    ensures |cols| == b * m0 + b
    ensures forall k :: 0 <= k < b * m0 ==> cols[k] == AllocationColumn
    ensures forall k :: b * m0 <= k < b * m0 + b ==> cols[k] == ThetaColumn
  {
    seq(b * m0, _ => AllocationColumn) + seq(b, _ => ThetaColumn)
  }

  /** Column `i * m0 + j` exists among the allocation columns. */
  lemma {:induction false} AllocationIndex(i: nat, j: nat, b: nat, m0: nat)
    requires i < b && j < m0
    ensures 0 <= i * m0 + j < b * m0
  {
    var k := b - i - 1;
    assert b * m0 == (i + 1 + k) * m0 == i * m0 + m0 + k * m0;
    assert k * m0 >= 0;
  }

  // ---------------------------------------------------------------------------
  // Resource rows
  // ---------------------------------------------------------------------------

  /** The equality row of resource `j`: the allocations of every block to `j` add up to
      `total_r[j]`. */
  function ResourceRow(j: nat, b: nat, m0: nat, totalR: seq<real>): Row
    requires j < |totalR|
  {
    Row(Fin(totalR[j]), Fin(totalR[j]), seq(b, i => i * m0 + j), seq(b, _ => Fin(1.0)))
  }

  function ResourceRows(b: nat, m0: nat, totalR: seq<real>): (rows: seq<Row>)
    requires m0 <= |totalR|
    ensures |rows| == m0
  {
    ResourceRowsUpTo(b, m0, totalR, m0)
  }

  /** The first `k` resource rows: what the program holds when `total_r` has only `k`
      entries and reading `total_r[k]` raises `IndexError`. */
  function ResourceRowsUpTo(b: nat, m0: nat, totalR: seq<real>, k: nat): (rows: seq<Row>)
    requires k <= |totalR|
    ensures |rows| == k
    ensures forall j :: 0 <= j < k ==> rows[j] == ResourceRow(j, b, m0, totalR)
  {
    seq(k, j requires 0 <= j < k => ResourceRow(j, b, m0, totalR))
  }

  /** Resource row `j` names, for each block `i`, that block's column for resource `j`,
      with coefficient 1.0, and pins the sum to `total_r[j]`. */
  lemma ResourceRowCovers(j: nat, b: nat, m0: nat, totalR: seq<real>)
    requires j < m0 && m0 <= |totalR|
    ensures var row := ResourceRows(b, m0, totalR)[j];
      row.lower == row.upper == Fin(totalR[j]) &&
      |row.indices| == |row.coeffs| == b &&
      forall i :: 0 <= i < b ==>
        row.coeffs[i] == Fin(1.0) && row.indices[i] == i * m0 + j && row.indices[i] < b * m0
  {
    forall i | 0 <= i < b
      ensures i * m0 + j < b * m0
    {
      AllocationIndex(i, j, b, m0);
    }
  }

  // ---------------------------------------------------------------------------
  // Block positions and cut rows
  // ---------------------------------------------------------------------------

  /** `{bid: idx for idx, (bid, _, _) in enumerate(blocks)}`: a repeated id keeps its
      last position. */
  function BlockPos(blocks: seq<Block>): (pos: map<string, int>)
    ensures forall id :: id in pos ==> 0 <= pos[id] < |blocks| && blocks[pos[id]].id == id
  {
    if blocks == [] then map[]
    else BlockPos(blocks[..|blocks| - 1])[blocks[|blocks| - 1].id := |blocks| - 1]
  }

  /** Every block's id has a position, and it is no earlier than that block: with the
      ensures of `BlockPos`, an id's position is that of the last block carrying it. */
  lemma {:induction false} BlockPosLast(blocks: seq<Block>, i: int)
    requires 0 <= i < |blocks|
    ensures blocks[i].id in BlockPos(blocks)
    ensures i <= BlockPos(blocks)[blocks[i].id]
  {
    var last := |blocks| - 1;
    var init := blocks[..last];
    assert BlockPos(blocks) == BlockPos(init)[blocks[last].id := last];
    if i < last && blocks[i].id != blocks[last].id {
      assert init[i] == blocks[i];
      BlockPosLast(init, i);
    }
  }

  /** The row a cut adds for the block at position `idx`. An "opt" cut bounds
      `theta[idx] - beta . r[idx]` from above by alpha; any other tag is a feasibility
      cut bounding `beta . r[idx]` from below by alpha. Only the first `min(m0, len(beta))`
      coefficients are used. */
  function CutRowAt(c: Cut, idx: int, m0: nat, numR: int): Row {
    var k := Min(m0, |c.beta|);
    if c.kind == Opt then
      Row(NegInf, c.alpha,
        [numR + idx] + seq(k, j => idx * m0 + j),
        [Fin(1.0)] + seq(k, j requires 0 <= j < k => Neg(c.beta[j])))
    else
      Row(c.alpha, PosInf,
        seq(k, j => idx * m0 + j),
        seq(k, j requires 0 <= j < k => c.beta[j]))
  }

  /** The row for a cut, or none when its block is not among the current blocks. */
  function CutRow(c: Cut, pos: map<string, int>, m0: nat, numR: int): Option<Row> {
    if c.blockId in pos then Some(CutRowAt(c, pos[c.blockId], m0, numR)) else None
  }

  function CutRows(cuts: seq<Cut>, pos: map<string, int>, m0: nat, numR: int): seq<Row> {
    if cuts == [] then []
    else
      var last := CutRow(cuts[|cuts| - 1], pos, m0, numR);
      CutRows(cuts[..|cuts| - 1], pos, m0, numR) + (if last.Some? then [last.value] else [])
  }

  /** The number of cuts whose block is known. */
  function KnownCuts(cuts: seq<Cut>, pos: map<string, int>): nat {
    if cuts == [] then 0
    else KnownCuts(cuts[..|cuts| - 1], pos) + (if cuts[|cuts| - 1].blockId in pos then 1 else 0)
  }

  /** Exactly the cuts of current blocks add a row; the others are skipped. */
  lemma {:induction false} CutRowsCount(cuts: seq<Cut>, pos: map<string, int>, m0: nat, numR: int)
    ensures |CutRows(cuts, pos, m0, numR)| == KnownCuts(cuts, pos)
    ensures KnownCuts(cuts, pos) <= |cuts|
    ensures (forall i :: 0 <= i < |cuts| ==> cuts[i].blockId !in pos) ==> CutRows(cuts, pos, m0, numR) == []
  {
    if cuts != [] {
      CutRowsCount(cuts[..|cuts| - 1], pos, m0, numR);
      if forall i :: 0 <= i < |cuts| ==> cuts[i].blockId !in pos {
        assert forall i :: 0 <= i < |cuts| - 1 ==> cuts[..|cuts| - 1][i] == cuts[i];
      }
    }
  }

  /** Every index in a row lies inside the `num_r + num_theta` columns: a cut touches
      only its own block's allocation columns and its own theta. */
  predicate IndicesBelow(row: Row, limit: int) {
    forall k :: 0 <= k < |row.indices| ==> 0 <= row.indices[k] < limit
  }

  lemma CutRowInRange(c: Cut, idx: nat, b: nat, m0: nat)
    requires idx < b
    ensures |CutRowAt(c, idx, m0, b * m0).indices| == |CutRowAt(c, idx, m0, b * m0).coeffs|
    ensures IndicesBelow(CutRowAt(c, idx, m0, b * m0), b * m0 + b)
  {
    var row := CutRowAt(c, idx, m0, b * m0);
    forall t | 0 <= t < |row.indices|
      ensures 0 <= row.indices[t] < b * m0 + b
    {
      if c.kind != Opt || t > 0 {
        var j := if c.kind == Opt then t - 1 else t;
        assert row.indices[t] == idx * m0 + j;
        AllocationIndex(idx, j, b, m0);
      }
    }
  }

  lemma {:induction false} CutRowsInRange(cuts: seq<Cut>, blocks: seq<Block>, m0: nat)
    ensures forall r :: r in CutRows(cuts, BlockPos(blocks), m0, |blocks| * m0) ==>
      IndicesBelow(r, |blocks| * m0 + |blocks|)
  {
    if cuts != [] {
      CutRowsInRange(cuts[..|cuts| - 1], blocks, m0);
      var c := cuts[|cuts| - 1];
      var pos := BlockPos(blocks);
      if c.blockId in pos {
        CutRowInRange(c, pos[c.blockId], |blocks|, m0);
      }
    }
  }

  /** The whole program: every row index of every row is a column of the program. */
  lemma ModelIndicesInRange(blocks: seq<Block>, m0: nat, totalR: seq<real>, cuts: seq<Cut>)
    requires m0 <= |totalR|
    ensures forall r :: r in ResourceRows(|blocks|, m0, totalR) + CutRows(cuts, BlockPos(blocks), m0, |blocks| * m0) ==>
      IndicesBelow(r, |Columns(|blocks|, m0)|)
  {
    var b := |blocks|;
    var res := ResourceRows(b, m0, totalR);
    var cutRows := CutRows(cuts, BlockPos(blocks), m0, b * m0);
    assert |Columns(b, m0)| == b * m0 + b;
    CutRowsInRange(cuts, blocks, m0);
    forall r | r in res + cutRows
      ensures IndicesBelow(r, b * m0 + b)
    {
      if r in res {
        var j :| 0 <= j < m0 && res[j] == r;
        ResourceRowCovers(j, b, m0, totalR);
      } else {
        assert r in cutRows;
      }
    }
  }

  // ---------------------------------------------------------------------------
  // Reading the result
  // ---------------------------------------------------------------------------

  /** `r_flat.reshape((b, m0))`. */
  function Reshape(flat: seq<real>, b: nat, m0: nat): (rows: seq<seq<real>>)
    requires |flat| == b * m0
    ensures |rows| == b
    ensures forall i :: 0 <= i < b ==> |rows[i]| == m0
  {
    seq(b, i requires 0 <= i < b => ReshapeRow(flat, b, m0, i))
  }

  /** Row `i` of the reshaped allocation: the values of columns `i * m0 .. i * m0 + m0`. */
  function ReshapeRow(flat: seq<real>, b: nat, m0: nat, i: nat): (row: seq<real>)
    requires |flat| == b * m0 && i < b
    ensures |row| == m0
  {
    ReshapeRowInRange(i, b, m0);
    flat[i * m0 .. i * m0 + m0]
  }

  lemma ReshapeRowInRange(i: nat, b: nat, m0: nat)
    requires i < b
    ensures 0 <= i * m0 && i * m0 + m0 <= b * m0
  {
    var k := b - i - 1;
    assert b * m0 == (i + 1 + k) * m0 == i * m0 + m0 + k * m0;
    assert k * m0 >= 0;
  }

  /** Entry `(i, j)` of the reshaped allocation is the value of column `i * m0 + j`. */
  lemma ReshapeEntry(flat: seq<real>, b: nat, m0: nat, i: nat, j: nat)
    requires |flat| == b * m0 && i < b && j < m0
    ensures i * m0 + j < |flat|
    ensures Reshape(flat, b, m0)[i][j] == flat[i * m0 + j]
  {
    AllocationIndex(i, j, b, m0);
    ReshapeRowInRange(i, b, m0);
    assert Reshape(flat, b, m0)[i] == flat[i * m0 .. i * m0 + m0];
  }

  /** `np.tile(total_r / b, (b, 1))`: every block gets the same share; no blocks give
      no rows. */
  function EvenSplit(totalR: seq<real>, b: nat): (rows: seq<seq<real>>)
    ensures |rows| == b
    ensures forall i :: 0 <= i < b ==> |rows[i]| == |totalR|
  {
    if b == 0 then []
    else seq(b, _ => seq(|totalR|, j requires 0 <= j < |totalR| => totalR[j] / (b as real)))
  }

  /** The sum over the first `n` rows of column `j`. */
  function ColumnSum(rows: seq<seq<real>>, j: nat, n: nat): real
    requires n <= |rows| && forall i :: 0 <= i < n ==> j < |rows[i]|
  {
    if n == 0 then 0.0 else ColumnSum(rows, j, n - 1) + rows[n - 1][j]
  }

  lemma {:induction false} ColumnSumOfSplit(totalR: seq<real>, b: nat, j: nat, n: nat)
    requires b > 0 && j < |totalR| && n <= b
    ensures ColumnSum(EvenSplit(totalR, b), j, n) == (n as real) * (totalR[j] / (b as real))
  {
    if n > 0 {
      ColumnSumOfSplit(totalR, b, j, n - 1);
    }
  }

  /** The fallback allocation hands out every resource exactly: its column sums are
      `total_r`. */
  lemma EvenSplitSums(totalR: seq<real>, b: nat, j: nat)
    requires b > 0 && j < |totalR|
    ensures ColumnSum(EvenSplit(totalR, b), j, b) == totalR[j]
  {
    ColumnSumOfSplit(totalR, b, j, b);
    assert (b as real) * (totalR[j] / (b as real)) == totalR[j];
  }

  // ---------------------------------------------------------------------------
  // The solver session
  // ---------------------------------------------------------------------------

  /** The module globals `last_basis` and `persistent_highs_master`. */
  class MasterSession {
    var lastBasis: Option<Basis>
    var model: LpModel

    constructor ()
      ensures lastBasis == None && model == LpModel([], [], None)
    {
      lastBasis := None;
      model := LpModel([], [], None);
    }

    /** The loop turning one cut of the block at `idx` into its row. */
    static method BuildCutRow(c: Cut, idx: int, m0: nat, numR: int) returns (row: Row)
      ensures row == CutRowAt(c, idx, m0, numR)
    {
      var k := Min(m0, |c.beta|);
      var rowIndices: seq<int> := [];
      var rowCoeffs: seq<Float> := [];
      if c.kind == Opt {
        rowIndices := rowIndices + [numR + idx];
        rowCoeffs := rowCoeffs + [Fin(1.0)];
        for j := 0 to k
          invariant rowIndices == [numR + idx] + seq(j, t => idx * m0 + t)
          invariant rowCoeffs == [Fin(1.0)] + seq(j, t requires 0 <= t < j => Neg(c.beta[t]))
        {
          rowIndices := rowIndices + [idx * m0 + j];
          rowCoeffs := rowCoeffs + [Neg(c.beta[j])];
        }
        row := Row(NegInf, c.alpha, rowIndices, rowCoeffs);
      } else {
        for j := 0 to k
          invariant rowIndices == seq(j, t => idx * m0 + t)
          invariant rowCoeffs == seq(j, t requires 0 <= t < j => c.beta[t])
        {
          rowIndices := rowIndices + [idx * m0 + j];
          rowCoeffs := rowCoeffs + [c.beta[j]];
        }
        row := Row(c.alpha, PosInf, rowIndices, rowCoeffs);
      }
    }

    /** The rows the program is built from: one per resource, then one per cut of a
        current block, in cut order. With fewer than `m0` resource totals the loop stops
        at the first missing one (`ok` is false) and the rows added so far are returned. */
    static method BuildRows(blocks: seq<Block>, m0: nat, totalR: seq<real>, cuts: seq<Cut>)
      returns (rows: seq<Row>, ok: bool)
      ensures ok <==> m0 <= |totalR|
      ensures ok ==> rows == ResourceRows(|blocks|, m0, totalR) + CutRows(cuts, BlockPos(blocks), m0, |blocks| * m0)
      ensures !ok ==> rows == ResourceRowsUpTo(|blocks|, m0, totalR, |totalR|)
    {
      var b := |blocks|;
      rows := [];
      for j := 0 to m0
        invariant j <= |totalR|
        invariant rows == ResourceRowsUpTo(b, m0, totalR, j)
      {
        if j == |totalR| {
          return rows, false;
        }
        rows := rows + [Row(Fin(totalR[j]), Fin(totalR[j]), seq(b, i => i * m0 + j), seq(b, _ => Fin(1.0)))];
      }
      ok := true;
      var resourceRows := rows;
      var pos := BlockPos(blocks);
      for t := 0 to |cuts|
        invariant rows == resourceRows + CutRows(cuts[..t], pos, m0, b * m0)
      {
        assert cuts[..t + 1][..t] == cuts[..t];
        var c := cuts[t];
        if c.blockId in pos {
          var row := BuildCutRow(c, pos[c.blockId], m0, b * m0);
          rows := rows + [row];
        }
      }
      assert cuts[..|cuts|] == cuts;
    }

    /** `solve_master_problem(blocks, m0, total_r, cuts, config)`, where `outcome` is
        what the solver run ends with and `basisAccepted` whether `setBasis` accepts
        the stored basis. With fewer than `m0` resource totals the call raises
        `IndexError` after the solver has been cleared and given the columns and the
        rows of the totals there are; the stored basis is untouched. */
    method SolveMasterProblem(blocks: seq<Block>, m0: nat, totalR: seq<real>, cuts: seq<Cut>,
                              basisAccepted: bool, outcome: SolverOutcome)
      returns (res: Result<MasterResult, string>)
      requires outcome.Optimal? ==> |outcome.colValue| == |blocks| * m0 + |blocks|
      modifies this
      ensures res.Success? <==> m0 <= |totalR|
      ensures model.cols == Columns(|blocks|, m0)
      ensures res.Failure? ==>
        model.rows == ResourceRowsUpTo(|blocks|, m0, totalR, |totalR|) && model.startBasis == None &&
        lastBasis == old(lastBasis)
      ensures res.Success? ==>
        model.rows == ResourceRows(|blocks|, m0, totalR) + CutRows(cuts, BlockPos(blocks), m0, |blocks| * m0) &&
        model.startBasis == if basisAccepted then old(lastBasis) else None
      ensures res.Success? && outcome.Optimal? ==>
        lastBasis == Some(outcome.basis) &&
        res.value == MasterResult(
          Reshape(outcome.colValue[..|blocks| * m0], |blocks|, m0),
          Lift(outcome.colValue[|blocks| * m0..]))
      ensures res.Success? && outcome.NotOptimal? ==>
        lastBasis == None && res.value == MasterResult(EvenSplit(totalR, |blocks|), seq(|blocks|, _ => NegInf))
    {
      var b := |blocks|;
      var numR := b * m0;
      var cols := seq(numR, _ => AllocationColumn) + seq(b, _ => ThetaColumn);
      var rows, ok := BuildRows(blocks, m0, totalR, cuts);
      if !ok {
        model := LpModel(cols, rows, None);
        return Failure("IndexError: total_r has fewer than m0 entries");
      }
      var start: Option<Basis> := None;
      if lastBasis.Some? {
        if basisAccepted {
          start := lastBasis;
        } else {
          lastBasis := None;
        }
      }
      model := LpModel(cols, rows, start);
      if outcome.Optimal? {
        var sol := outcome.colValue;
        lastBasis := Some(outcome.basis);
        res := Success(MasterResult(Reshape(sol[..numR], b, m0), Lift(sol[numR..])));
      } else {
        lastBasis := None;
        res := Success(MasterResult(EvenSplit(totalR, b), seq(b, _ => NegInf)));
      }
    }
  }
}
