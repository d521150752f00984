/** The shared-matrix registry (src/bendersx_engine/shared_memory.py): a CSR matrix is
    published as three named segments, resolved back from its metadata, and every
    segment registered in `_shared_pool` is released at cleanup. The operating system's
    named segments are a map from segment name to contents, and `_shared_pool` is the
    set of names it holds; the `uuid4().hex` parts of the names are parameters. A
    publication that fails part-way leaves the segments it already created in the
    system but not in `_shared_pool`, so no cleanup releases them. */
module SharedMemory {
  import opened Wrappers

  /** A CSR matrix: its shape and its three arrays with their numpy dtype names. */
  datatype Csr = Csr(
    shape: (int, int),
    data: seq<real>, dataDtype: string,
    indices: seq<int>, indicesDtype: string,
    indptr: seq<int>, indptrDtype: string)

  /** The contents of a segment: the array copied into its buffer. */
  datatype Segment = RealSegment(reals: seq<real>) | IntSegment(ints: seq<int>)

  /** The dictionary `csr_to_shared` returns. */
  datatype CsrMeta = CsrMeta(
    shape: (int, int),
    dataName: string, dataDtype: string, dataShape: int,
    indicesName: string, indicesDtype: string, indicesShape: int,
    indptrName: string, indptrDtype: string, indptrShape: int)

  /** `f"{prefix}_{hex}_{suffix}"`. */
  function SegmentName(prefix: string, hex: string, suffix: string): (r: string)
    ensures |r| == |prefix| + |hex| + |suffix| + 2
    ensures |suffix| > 0 ==> r[|r| - 1] == suffix[|suffix| - 1]
    ensures |prefix| > 0 ==> r[0] == prefix[0]
  {
    prefix + "_" + hex + "_" + suffix
  }

  /** The three segment names; they end in different letters, so they are distinct
      whatever the prefix and the hex parts. */
  function DataName(prefix: string, hex: string): string { SegmentName(prefix, hex, "data") }
  function IndicesName(prefix: string, hex: string): string { SegmentName(prefix, hex, "indices") }
  function IndptrName(prefix: string, hex: string): string { SegmentName(prefix, hex, "indptr") }

  lemma NamesDistinct(prefix: string, h1: string, h2: string, h3: string)
    ensures DataName(prefix, h1) != IndicesName(prefix, h2)
    ensures DataName(prefix, h1) != IndptrName(prefix, h3)
    ensures IndicesName(prefix, h2) != IndptrName(prefix, h3)
  {
    var d := DataName(prefix, h1);
    var i := IndicesName(prefix, h2);
    var p := IndptrName(prefix, h3);
    assert d[|d| - 1] == 'a' && i[|i| - 1] == 's' && p[|p| - 1] == 'r';
  }

  /** `SharedMemory(create=True, size=0)` is refused, so every array must hold at
      least one element. */
  predicate Publishable(csr: Csr) {
    |csr.data| > 0 && |csr.indices| > 0 && |csr.indptr| > 0
  }

  /** None of the three names is taken yet. */
  predicate FreshNames(segs: map<string, Segment>, prefix: string, h1: string, h2: string, h3: string) {
    DataName(prefix, h1) !in segs && IndicesName(prefix, h2) !in segs && IndptrName(prefix, h3) !in segs
  }

  /** The segments after publishing `csr`. */
  function Published(segs: map<string, Segment>, prefix: string, csr: Csr, h1: string, h2: string, h3: string)
    : map<string, Segment>
  {
    segs[DataName(prefix, h1) := RealSegment(csr.data)]
        [IndicesName(prefix, h2) := IntSegment(csr.indices)]
        [IndptrName(prefix, h3) := IntSegment(csr.indptr)]
  }

  /** The three names `_shared_pool` gains by a publication. */
  function PoolNames(prefix: string, h1: string, h2: string, h3: string): set<string> {
    {DataName(prefix, h1), IndicesName(prefix, h2), IndptrName(prefix, h3)}
  }

  /** The segments after a publication that fails: `SharedMemory(create=True, size=0)`
      raises at the first empty array, after the segments of the arrays before it have
      been created. Their contents are still zero, since the arrays are copied only once
      all three segments exist. */
  function Orphaned(segs: map<string, Segment>, prefix: string, csr: Csr, h1: string, h2: string, h3: string)
    : map<string, Segment>
  {
    if |csr.data| == 0 then segs
    else
      var withData := segs[DataName(prefix, h1) := RealSegment(seq(|csr.data|, _ => 0.0))];
      if |csr.indices| == 0 then withData
      else withData[IndicesName(prefix, h2) := IntSegment(seq(|csr.indices|, _ => 0))]
  }

  /** A failed publication creates a segment for every array before the first empty
      one and keeps every earlier segment; none of the new names is registered, so
      they outlive any cleanup of the registered names. */
  lemma OrphanedSegments(segs: map<string, Segment>, pooled: set<string>, prefix: string, csr: Csr,
                         h1: string, h2: string, h3: string)
    requires FreshNames(segs, prefix, h1, h2, h3) && pooled <= segs.Keys && !Publishable(csr)
    ensures |csr.data| == 0 ==> Orphaned(segs, prefix, csr, h1, h2, h3) == segs
    ensures |csr.data| > 0 ==> DataName(prefix, h1) in Orphaned(segs, prefix, csr, h1, h2, h3) - pooled
    ensures |csr.data| > 0 && |csr.indices| > 0 ==>
      IndicesName(prefix, h2) in Orphaned(segs, prefix, csr, h1, h2, h3) - pooled
    ensures IndptrName(prefix, h3) !in Orphaned(segs, prefix, csr, h1, h2, h3)
    ensures forall k :: k in segs ==>
      k in Orphaned(segs, prefix, csr, h1, h2, h3) && Orphaned(segs, prefix, csr, h1, h2, h3)[k] == segs[k]
  {
    NamesDistinct(prefix, h1, h2, h3);
  }

  /** Releasing the names of a publication under fresh names restores the segments. */
  lemma PublishThenRelease(segs: map<string, Segment>, prefix: string, csr: Csr, h1: string, h2: string, h3: string)
    requires FreshNames(segs, prefix, h1, h2, h3)
    ensures Published(segs, prefix, csr, h1, h2, h3) - PoolNames(prefix, h1, h2, h3) == segs
  {
    PublishedSegments(segs, prefix, csr, h1, h2, h3);
  }

  /** The metadata describing the published `csr`. */
  function MetaOf(prefix: string, csr: Csr, h1: string, h2: string, h3: string): CsrMeta {
    CsrMeta(csr.shape,
      DataName(prefix, h1), csr.dataDtype, |csr.data|,
      IndicesName(prefix, h2), csr.indicesDtype, |csr.indices|,
      IndptrName(prefix, h3), csr.indptrDtype, |csr.indptr|)
  }

  /** `np.ndarray(shape, buffer=...)`: the first `n` elements of the buffer; a buffer
      that is too small, or a negative length, is an error. */
  function ReadReals(s: Segment, n: int): Option<seq<real>> {
    if s.RealSegment? && 0 <= n <= |s.reals| then Some(s.reals[..n]) else None
  }

  function ReadInts(s: Segment, n: int): Option<seq<int>> {
    if s.IntSegment? && 0 <= n <= |s.ints| then Some(s.ints[..n]) else None
  }

  /** `csr_from_shared(meta)`: None when a segment is missing or cannot hold the
      recorded array. */
  function Resolve(segs: map<string, Segment>, meta: CsrMeta): (r: Option<Csr>)
    ensures r.Some? ==> meta.dataName in segs && meta.indicesName in segs && meta.indptrName in segs
    ensures r.Some? ==>
      (r.value.shape == meta.shape && |r.value.data| == meta.dataShape
       && |r.value.indices| == meta.indicesShape && |r.value.indptr| == meta.indptrShape)
  {
    if meta.dataName !in segs || meta.indicesName !in segs || meta.indptrName !in segs then None
    else
      var d := ReadReals(segs[meta.dataName], meta.dataShape);
      var i := ReadInts(segs[meta.indicesName], meta.indicesShape);
      var p := ReadInts(segs[meta.indptrName], meta.indptrShape);
      if d.None? || i.None? || p.None? then None
      else Some(Csr(meta.shape, d.value, meta.dataDtype, i.value, meta.indicesDtype, p.value, meta.indptrDtype))
  }

  /** Publishing adds exactly the three named segments, each a copy of its array, and
      changes no other segment. */
  lemma PublishedSegments(segs: map<string, Segment>, prefix: string, csr: Csr, h1: string, h2: string, h3: string)
    ensures Published(segs, prefix, csr, h1, h2, h3).Keys
         == segs.Keys + {DataName(prefix, h1), IndicesName(prefix, h2), IndptrName(prefix, h3)}
    ensures Published(segs, prefix, csr, h1, h2, h3)[DataName(prefix, h1)] == RealSegment(csr.data)
    ensures Published(segs, prefix, csr, h1, h2, h3)[IndicesName(prefix, h2)] == IntSegment(csr.indices)
    ensures Published(segs, prefix, csr, h1, h2, h3)[IndptrName(prefix, h3)] == IntSegment(csr.indptr)
    ensures forall k :: k in segs && k !in {DataName(prefix, h1), IndicesName(prefix, h2), IndptrName(prefix, h3)} ==>
      Published(segs, prefix, csr, h1, h2, h3)[k] == segs[k]
  {
    NamesDistinct(prefix, h1, h2, h3);
  }

  /** Round trip: resolving the metadata of a published matrix gives the matrix back. */
  lemma PublishThenResolve(segs: map<string, Segment>, prefix: string, csr: Csr, h1: string, h2: string, h3: string)
    ensures Resolve(Published(segs, prefix, csr, h1, h2, h3), MetaOf(prefix, csr, h1, h2, h3)) == Some(csr)
  {
    NamesDistinct(prefix, h1, h2, h3);
    assert csr.data[..|csr.data|] == csr.data;
    assert csr.indices[..|csr.indices|] == csr.indices;
    assert csr.indptr[..|csr.indptr|] == csr.indptr;
  }

  /** Publishing under fresh names does not change what earlier metadata resolves to. */
  lemma PublishKeepsResolved(segs: map<string, Segment>, meta: CsrMeta, prefix: string, csr: Csr, h1: string, h2: string, h3: string)
    requires FreshNames(segs, prefix, h1, h2, h3)
    requires Resolve(segs, meta).Some?
    ensures Resolve(Published(segs, prefix, csr, h1, h2, h3), meta) == Resolve(segs, meta)
  {
    var after := Published(segs, prefix, csr, h1, h2, h3);
    assert after[meta.dataName] == segs[meta.dataName];
    assert after[meta.indicesName] == segs[meta.indicesName];
    assert after[meta.indptrName] == segs[meta.indptrName];
  }

  /** Copying the arrays into the three freshly created segments gives the published
      segments: each copy replaces the zeros its segment was created with. */
  lemma CopyIntoCreated(segs: map<string, Segment>, prefix: string, csr: Csr, h1: string, h2: string, h3: string)
    ensures segs[DataName(prefix, h1) := RealSegment(seq(|csr.data|, _ => 0.0))]
                [IndicesName(prefix, h2) := IntSegment(seq(|csr.indices|, _ => 0))]
                [IndptrName(prefix, h3) := IntSegment(seq(|csr.indptr|, _ => 0))]
                [DataName(prefix, h1) := RealSegment(csr.data)]
                [IndicesName(prefix, h2) := IntSegment(csr.indices)]
                [IndptrName(prefix, h3) := IntSegment(csr.indptr)]
         == Published(segs, prefix, csr, h1, h2, h3)
  {
  }

  /** The module-level `_shared_pool` together with the operating system's segments:
      `segments` maps each existing segment name to its contents and `pooled` holds the
      names registered in `_shared_pool`. */
  class SharedPool {
    var segments: map<string, Segment>
    var pooled: set<string>

    constructor ()
      ensures segments == map[] && pooled == {}
    {
      segments := map[];
      pooled := {};
    }

    /** `csr_to_shared(prefix, csr)`, with the three generated hex strings given. The
        segments are created one after another, so a matrix with an empty array fails
        after the segments before it exist, without registering them. */
    method CsrToShared(prefix: string, csr: Csr, h1: string, h2: string, h3: string)
      returns (meta: Result<CsrMeta, string>)
      requires FreshNames(segments, prefix, h1, h2, h3)
      modifies this
      ensures meta.Success? <==> Publishable(csr)
      ensures meta.Success? ==> meta.value == MetaOf(prefix, csr, h1, h2, h3)
      ensures meta.Success? ==> segments == Published(old(segments), prefix, csr, h1, h2, h3)
      ensures meta.Success? ==> pooled == old(pooled) + PoolNames(prefix, h1, h2, h3)
      ensures meta.Failure? ==> segments == Orphaned(old(segments), prefix, csr, h1, h2, h3)
      ensures meta.Failure? ==> pooled == old(pooled)
    {
      var nameData := DataName(prefix, h1);
      var nameIndices := IndicesName(prefix, h2);
      var nameIndptr := IndptrName(prefix, h3);
      var refused := "'size' must be a positive number different from zero";
      if |csr.data| == 0 {
        return Failure(refused);
      }
      segments := segments[nameData := RealSegment(seq(|csr.data|, _ => 0.0))];
      if |csr.indices| == 0 {
        return Failure(refused);
      }
      segments := segments[nameIndices := IntSegment(seq(|csr.indices|, _ => 0))];
      if |csr.indptr| == 0 {
        return Failure(refused);
      }
      segments := segments[nameIndptr := IntSegment(seq(|csr.indptr|, _ => 0))];

      CopyIntoCreated(old(segments), prefix, csr, h1, h2, h3);
      segments := segments[nameData := RealSegment(csr.data)];
      segments := segments[nameIndices := IntSegment(csr.indices)];
      segments := segments[nameIndptr := IntSegment(csr.indptr)];

      pooled := pooled + {nameData, nameIndices, nameIndptr};
      meta := Success(CsrMeta(csr.shape,
        nameData, csr.dataDtype, |csr.data|,
        nameIndices, csr.indicesDtype, |csr.indices|,
        nameIndptr, csr.indptrDtype, |csr.indptr|));
    }

    /** `csr_from_shared(meta)`: attaches to the named segments and never changes them.
        What it returns for the metadata of a publication is `PublishThenResolve`. */
    function CsrFromShared(meta: CsrMeta): (r: Option<Csr>)
      reads this
      ensures r == Resolve(segments, meta)
    {
      Resolve(segments, meta)
    }

    /** `cleanup_shared_memory()`: every registered segment is closed and unlinked, and
        the registry is cleared; segments that were never registered stay. Closing and
        unlinking are taken to succeed: a segment whose `close` or `unlink` raised would
        stay in the system although its name leaves the registry. */
    method Cleanup()
      modifies this
      ensures segments == old(segments) - old(pooled)
      ensures pooled == {}
    {
      segments := segments - pooled;
      pooled := {};
    }
  }
}
