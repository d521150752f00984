/** The performance helpers (src/bendersx_engine/optimizations.py): an identity
    constructor, a CSR matrix-vector product and an infinity norm. */
module Optimizations {
  import opened SimpleMatrices
  import Numpy
  import Bigm
  import Floats

  /** `create_identity_optimized(n)`. */
  method CreateIdentityOptimized(n: int) returns (m: SimpleMatrix)
    ensures fresh(m)
    ensures m.data == IdentityRows(n) && m.Valid()
  {
    var k := if n < 0 then 0 else n;
    var rows := seq(k, i requires 0 <= i < k => seq(k, j requires 0 <= j < k => if i == j then 1.0 else 0.0));
    m := new SimpleMatrix(rows);
  }

  /** The identity is what `setdiag` with `n` ones makes of the `n`-by-`n` zero
      matrix. */
  lemma IdentityIsDiagOfZeros(n: nat)
    ensures Numpy.Zeros(Numpy.Dims(n, n)).Grid?
    ensures DiagWritable(Numpy.Zeros(Numpy.Dims(n, n)).rows, Numpy.Ones(Numpy.Len(n)).items, (n, n))
    ensures WithDiag(Numpy.Zeros(Numpy.Dims(n, n)).rows, Numpy.Ones(Numpy.Len(n)).items, (n, n)) == IdentityRows(n)
  {
    var z := Numpy.Zeros(Numpy.Dims(n, n)).rows;
    var d := Numpy.Ones(Numpy.Len(n)).items;
    assert DiagWritable(z, d, (n, n));
    WithDiagEntries(z, d, (n, n));
    var w := WithDiag(z, d, (n, n));
    var id := IdentityRows(n);
    forall i | 0 <= i < n
      ensures w[i] == id[i]
    {
      assert |w[i]| == |id[i]|;
    }
  }

  // ---------------------------------------------------------------------------
  // sparse_matvec_optimized
  // ---------------------------------------------------------------------------

  /** Positions `lo..hi` of a CSR row are valid in `data`, `indices` and, through
      `indices`, in `x`. */
  predicate RowInBounds(data: seq<real>, indices: seq<int>, xLen: int, lo: int, hi: int) {
    lo < hi ==>
      0 <= lo && hi <= |data| && hi <= |indices| && forall j :: lo <= j < hi ==> 0 <= indices[j] < xLen
  }

  /** Every row `i`, the positions `indptr[i]..indptr[i+1]`, is in bounds. */
  predicate WellFormedCsr(data: seq<real>, indices: seq<int>, indptr: seq<int>, xLen: int) {
    forall i :: 0 <= i < |indptr| - 1 ==> RowInBounds(data, indices, xLen, indptr[i], indptr[i + 1])
  }

  /** `sum(data[j] * x[indices[j]] for j in range(lo, hi))`; zero when `hi <= lo`. */
  function RowSum(data: seq<real>, indices: seq<int>, x: seq<real>, lo: int, hi: int): real
    requires RowInBounds(data, indices, |x|, lo, hi)
    decreases hi - lo
  {
    if hi <= lo then 0.0
    else RowSum(data, indices, x, lo, hi - 1) + data[hi - 1] * x[indices[hi - 1]]
  }

  /** `sparse_matvec_optimized(data, indices, indptr, x)`. */
  method SparseMatVec(data: seq<real>, indices: seq<int>, indptr: seq<int>, x: seq<real>)
    returns (result: seq<real>)
    requires WellFormedCsr(data, indices, indptr, |x|)
    ensures |result| == (if |indptr| == 0 then 0 else |indptr| - 1)
    ensures forall i :: 0 <= i < |result| ==>
      result[i] == RowSum(data, indices, x, indptr[i], indptr[i + 1])
  {
    var rows := if |indptr| == 0 then 0 else |indptr| - 1;
    result := seq(rows, _ => 0.0);
    for i := 0 to rows
      invariant |result| == rows
      invariant forall k :: 0 <= k < i ==> result[k] == RowSum(data, indices, x, indptr[k], indptr[k + 1])
    {
      assert RowInBounds(data, indices, |x|, indptr[i], indptr[i + 1]);
      var s := 0.0;
      var j := indptr[i];
      while j < indptr[i + 1]
        invariant indptr[i] <= j && (j <= indptr[i + 1] || j == indptr[i])
        invariant s == RowSum(data, indices, x, indptr[i], j)
        decreases indptr[i + 1] - j
      {
        s := s + data[j] * x[indices[j]];
        j := j + 1;
      }
      result := result[i := s];
    }
  }

  /** A row with no stored entries contributes 0.0. */
  lemma EmptyRowIsZero(data: seq<real>, indices: seq<int>, x: seq<real>, lo: int, hi: int)
    requires hi <= lo
    ensures RowInBounds(data, indices, |x|, lo, hi)
    ensures RowSum(data, indices, x, lo, hi) == 0.0
  {
  }

  /** The CSR arrays of the `n`-by-`n` identity. */
  function IdentityCsrData(n: nat): seq<real> { seq(n, _ => 1.0) }
  function IdentityCsrIndices(n: nat): seq<int> { seq(n, j => j) }
  function IdentityCsrIndptr(n: nat): seq<int> { seq(n + 1, i => i) }

  /** The identity's CSR arrays are well formed for a vector of length `n`. */
  lemma IdentityCsrWellFormed(n: nat)
    ensures WellFormedCsr(IdentityCsrData(n), IdentityCsrIndices(n), IdentityCsrIndptr(n), n)
  {
    var indices := IdentityCsrIndices(n);
    var indptr := IdentityCsrIndptr(n);
    forall k | 0 <= k < |indptr| - 1
      ensures RowInBounds(IdentityCsrData(n), indices, n, indptr[k], indptr[k + 1])
    {
      assert indptr[k] == k && indptr[k + 1] == k + 1;
      assert indices[k] == k;
    }
  }

  /** The product with the identity's CSR arrays gives back `x`. */
  lemma IdentityMatVec(x: seq<real>, i: int)
    requires 0 <= i < |x|
    ensures WellFormedCsr(IdentityCsrData(|x|), IdentityCsrIndices(|x|), IdentityCsrIndptr(|x|), |x|)
    ensures RowSum(IdentityCsrData(|x|), IdentityCsrIndices(|x|), x, IdentityCsrIndptr(|x|)[i], IdentityCsrIndptr(|x|)[i + 1])
         == x[i]
  {
    var data := IdentityCsrData(|x|);
    var indices := IdentityCsrIndices(|x|);
    var indptr := IdentityCsrIndptr(|x|);
    IdentityCsrWellFormed(|x|);
    assert indptr[i] == i && indptr[i + 1] == i + 1;
    assert data[i] == 1.0 && indices[i] == i;
    assert RowInBounds(data, indices, |x|, i, i);
    assert RowSum(data, indices, x, i, i + 1) == RowSum(data, indices, x, i, i) + data[i] * x[indices[i]];
  }

  // ---------------------------------------------------------------------------
  // sparse_norm_optimized
  // ---------------------------------------------------------------------------

  /** `sparse_norm_optimized(data)`: the largest magnitude, 0.0 for no entries. */
  function SparseNorm(data: seq<real>): (r: real)
    ensures data == [] ==> r == 0.0
    ensures forall i :: 0 <= i < |data| ==> Floats.Abs(data[i]) <= r
    ensures data != [] ==> exists i :: 0 <= i < |data| && r == Floats.Abs(data[i])
  {
    if data == [] then 0.0
    else
      Bigm.InfNormAttained(data);
      Bigm.InfNorm(data)
  }
}
