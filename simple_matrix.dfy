/** The dense matrix stand-in (src/bendersx_engine/simple_matrix.py) used in place of
    scipy's sparse matrices: a list of rows and a shape fixed at construction. */
module SimpleMatrices {
  import opened Wrappers

  type Rows = seq<seq<real>>

  /** `(len(data), len(data[0]) if data else 0)`. */
  function ShapeOf(rows: Rows): (int, int) {
    (|rows|, if |rows| > 0 then |rows[0]| else 0)
  }

  /** The rows of the `n`-by-`n` identity; `range` of a negative `n` is empty. */
  function IdentityRows(n: int): (r: Rows)
    ensures |r| == (if n < 0 then 0 else n)
    ensures forall i :: 0 <= i < |r| ==> |r[i]| == |r|
    ensures forall i, j :: 0 <= i < |r| && 0 <= j < |r[i]| ==> r[i][j] == (if i == j then 1.0 else 0.0)
  {
    var k := if n < 0 then 0 else n;
    seq(k, i requires 0 <= i < k => seq(k, j requires 0 <= j < k => if i == j then 1.0 else 0.0))
  }

  // ---------------------------------------------------------------------------
  // setdiag
  // ---------------------------------------------------------------------------


  lemma DiagWritablePrefix(rows: Rows, diag: seq<real>, shape: (int, int), k: int)
    requires DiagWritable(rows, diag, shape) && 0 <= k <= |diag|
    ensures DiagWritable(rows, diag[..k], shape)
  {
    forall i | OnDiag(i, diag[..k], shape)
      ensures i < |rows| && i < |rows[i]|
    {
      assert OnDiag(i, diag, shape);
    }
  }

  /** The writes for `diag[..i + 1]` fit when those for `diag[..i]` and the one at `i` do. */
  lemma DiagWritableExtend(rows: Rows, diag: seq<real>, shape: (int, int), i: int)
    requires 0 <= i < |diag| && DiagWritable(rows, diag[..i], shape)
    requires OnDiag(i, diag, shape) ==> i < |rows| && i < |rows[i]|
    ensures DiagWritable(rows, diag[..i + 1], shape)
  {
    forall t | OnDiag(t, diag[..i + 1], shape)
      ensures t < |rows| && t < |rows[t]|
    {
      if t < i {
        assert OnDiag(t, diag[..i], shape);
      }
    }
  }

  /** Whether `setdiag(diag)` writes position `(i, i)`. */
  predicate OnDiag(i: int, diag: seq<real>, shape: (int, int)) {
    0 <= i < |diag| && i < shape.0 && i < shape.1
  }

  /** `setdiag` writes `data[i][i]` for every `i` of `diag` below both dimensions of
      `shape`; these rows must be long enough for the write. */
  ghost predicate DiagWritable(rows: Rows, diag: seq<real>, shape: (int, int)) {
    forall i :: OnDiag(i, diag, shape) ==> i < |rows| && i < |rows[i]|
  }

  /** `setdiag` raises `IndexError` at position `i`: the writes before it fit, and
      `data[i][i]` does not exist. */
  ghost predicate DiagFailsAt(rows: Rows, diag: seq<real>, shape: (int, int), i: int) {
    && OnDiag(i, diag, shape) && !(i < |rows| && i < |rows[i]|)
    && DiagWritable(rows, diag[..i], shape)
  }

  /** A ragged matrix: `setdiag([1, 1])` on the rows `[[0, 0], [0]]` of shape `(2, 2)`
      writes `(0, 0)` and then finds no `(1, 1)`. */
  lemma RaggedSetDiagFails()
    ensures !DiagWritable([[0.0, 0.0], [0.0]], [1.0, 1.0], ShapeOf([[0.0, 0.0], [0.0]]))
    ensures DiagFailsAt([[0.0, 0.0], [0.0]], [1.0, 1.0], ShapeOf([[0.0, 0.0], [0.0]]), 1)
  {
    var rows := [[0.0, 0.0], [0.0]];
    var diag := [1.0, 1.0];
    assert OnDiag(1, diag, ShapeOf(rows));
    assert diag[..1] == [1.0];
    forall t | OnDiag(t, diag[..1], ShapeOf(rows))
      ensures t < |rows| && t < |rows[t]|
    {
    }
  }

  /** The rows after `setdiag(diag)`. */
  function WithDiag(rows: Rows, diag: seq<real>, shape: (int, int)): Rows
    requires DiagWritable(rows, diag, shape)
  {
    seq(|rows|, i requires 0 <= i < |rows| =>
      if OnDiag(i, diag, shape) then rows[i][i := diag[i]] else rows[i])
  }

  /** `setdiag` overwrites exactly the diagonal positions it reaches, keeps every other
      entry and every row length, and ignores surplus diagonal values. */
  lemma WithDiagEntries(rows: Rows, diag: seq<real>, shape: (int, int))
    requires DiagWritable(rows, diag, shape)
    ensures |WithDiag(rows, diag, shape)| == |rows|
    ensures forall i :: 0 <= i < |rows| ==> |WithDiag(rows, diag, shape)[i]| == |rows[i]|
    ensures forall i, j :: 0 <= i < |rows| && 0 <= j < |rows[i]| ==>
      WithDiag(rows, diag, shape)[i][j] == if i == j && OnDiag(i, diag, shape) then diag[i] else rows[i][j]
    ensures ShapeOf(WithDiag(rows, diag, shape)) == ShapeOf(rows)
  {
  }

  // ---------------------------------------------------------------------------
  // __ne__
  // ---------------------------------------------------------------------------

  /** The number of `j < cols` with `a[j] != b[j]`. */
  function RowDiff(a: seq<real>, b: seq<real>, cols: int): (r: nat)
    requires cols <= |a| && cols <= |b|
    ensures r <= (if cols < 0 then 0 else cols)
  {
    if cols <= 0 then 0
    else RowDiff(a, b, cols - 1) + (if a[cols - 1] != b[cols - 1] then 1 else 0)
  }

  /** Both matrices have the entries `(i, j)` with `i < rows` and `j < cols`. */
  predicate Covers(a: Rows, rows: int, cols: int) {
    rows <= |a| && forall i :: 0 <= i < rows ==> cols <= |a[i]|
  }

  /** `__ne__` reads every position `(i, j)` with `i < rows` and `j < cols` of both
      matrices, so it raises `IndexError` unless both cover that range; with no
      columns it reads nothing. */
  predicate Comparable(a: Rows, b: Rows, rows: int, cols: int) {
    cols <= 0 || (Covers(a, rows, cols) && Covers(b, rows, cols))
  }

  /** The number of positions `(i, j)` with `i < rows`, `j < cols` where `a` and `b` differ. */
  function DiffCount(a: Rows, b: Rows, rows: int, cols: int): nat
    requires Covers(a, rows, cols) && Covers(b, rows, cols)
  {
    if rows <= 0 then 0
    else DiffCount(a, b, rows - 1, cols) + RowDiff(a[rows - 1], b[rows - 1], cols)
  }

  predicate RowAgrees(a: seq<real>, b: seq<real>, cols: int)
    requires cols <= |a| && cols <= |b|
  {
    forall j :: 0 <= j < cols ==> a[j] == b[j]
  }

  lemma {:induction false} RowDiffZero(a: seq<real>, b: seq<real>, cols: int)
    requires cols <= |a| && cols <= |b|
    ensures RowDiff(a, b, cols) == 0 <==> RowAgrees(a, b, cols)
  {
    if cols > 0 {
      RowDiffZero(a, b, cols - 1);
    }
  }

  /** The difference count is zero exactly when the two matrices agree entry by entry on
      the compared range. */
  lemma {:induction false} DiffCountZero(a: Rows, b: Rows, rows: int, cols: int)
    requires Covers(a, rows, cols) && Covers(b, rows, cols)
    ensures DiffCount(a, b, rows, cols) == 0 <==>
      forall i :: 0 <= i < rows ==> RowAgrees(a[i], b[i], cols)
  {
    if rows > 0 {
      DiffCountZero(a, b, rows - 1, cols);
      RowDiffZero(a[rows - 1], b[rows - 1], cols);
    }
  }

  /** A matrix compared with itself has no differing entry. */
  lemma SelfDiffZero(a: Rows, rows: int, cols: int)
    requires Covers(a, rows, cols)
    ensures DiffCount(a, a, rows, cols) == 0
  {
    DiffCountZero(a, a, rows, cols);
  }

  // ---------------------------------------------------------------------------
  // The class
  // ---------------------------------------------------------------------------

  class SimpleMatrix {
    var data: Rows
    /** `_shape`, computed once by the constructor. */
    var shape: (int, int)

    predicate Valid()
      reads this
    {
      shape == ShapeOf(data)
    }

    /** `SimpleMatrix(data)`: the rows are copied (a value here, so never aliased with
        the caller's lists) and the shape is taken from them. */
    constructor (rows: Rows)
      ensures data == rows && shape == ShapeOf(rows)
      ensures Valid()
    {
      data := rows;
      shape := ShapeOf(rows);
    }

    /** The `shape` property: the row count and the first row's length. */
    function Shape(): (r: (int, int))
      reads this
      requires Valid()
      ensures r.0 == |data| && r.0 >= 0 && r.1 >= 0
      ensures r.1 == if data == [] then 0 else |data[0]|
    {
      shape
    }

    /** `setdiag(diag_vals)`. The values are written in order; a diagonal position
        missing from a short row raises `IndexError`, after the earlier writes. */
    method SetDiag(diag: seq<real>) returns (r: Result<(), string>)
      modifies this
      ensures shape == old(shape)
      ensures r.Success? <==> DiagWritable(old(data), diag, shape)
      ensures r.Success? ==> data == WithDiag(old(data), diag, shape)
      ensures r.Failure? ==>
        exists i :: DiagFailsAt(old(data), diag, shape, i) && data == WithDiag(old(data), diag[..i], shape)
      ensures old(Valid()) ==> Valid()
    {
      ghost var rows := data;
      for i := 0 to |diag|
        invariant shape == old(shape)
        invariant DiagWritable(rows, diag[..i], shape)
        invariant data == WithDiag(rows, diag[..i], shape)
        invariant |data| == |rows| && forall k :: 0 <= k < |rows| ==> |data[k]| == |rows[k]|
      {
        if i < shape.0 && i < shape.1 {
          assert OnDiag(i, diag, shape);
          if !(i < |data| && i < |data[i]|) {
            assert DiagFailsAt(rows, diag, shape, i);
            assert ShapeOf(data) == ShapeOf(rows);
            return Failure("list assignment index out of range");
          }
          data := data[i := data[i][i := diag[i]]];
        }
        DiagWritableExtend(rows, diag, shape, i);
        assert data == WithDiag(rows, diag[..i + 1], shape);
      }
      assert diag[..|diag|] == diag;
      WithDiagEntries(rows, diag, shape);
      r := Success(());
    }

    /** `(self != other).nnz`: the positions within this matrix's shape where the two
        matrices differ. A position missing from either matrix raises `IndexError`. */
    method NotEqual(other: SimpleMatrix) returns (r: Result<int, string>)
      ensures r.Success? <==> Comparable(data, other.data, shape.0, shape.1)
      ensures r.Success? ==>
        r.value == if shape.1 <= 0 then 0 else DiffCount(data, other.data, shape.0, shape.1)
    {
      var diff := 0;
      var i := 0;
      while i < shape.0
        invariant i <= shape.0 || i == 0
        invariant shape.1 > 0 ==> Covers(data, i, shape.1) && Covers(other.data, i, shape.1)
        invariant shape.1 > 0 ==> diff == DiffCount(data, other.data, i, shape.1)
        invariant shape.1 <= 0 ==> diff == 0
      {
        var j := 0;
        while j < shape.1
          invariant j <= shape.1 || j == 0
          invariant j > 0 ==> i < |data| && i < |other.data| && j <= |data[i]| && j <= |other.data[i]|
          invariant shape.1 > 0 && j > 0 ==> diff == DiffCount(data, other.data, i, shape.1) + RowDiff(data[i], other.data[i], j)
          invariant shape.1 > 0 && j == 0 ==> diff == DiffCount(data, other.data, i, shape.1)
          invariant shape.1 <= 0 ==> diff == 0
        {
          if !(i < |data| && j < |data[i]| && i < |other.data| && j < |other.data[i]|) {
            assert !Covers(data, i + 1, shape.1) || !Covers(other.data, i + 1, shape.1);
            assert !Covers(data, shape.0, shape.1) || !Covers(other.data, shape.0, shape.1);
            return Failure("list index out of range");
          }
          if data[i][j] != other.data[i][j] {
            diff := diff + 1;
          }
          j := j + 1;
        }
        i := i + 1;
      }
      r := Success(diff);
    }
  }
}
