/** The decomposition driver (src/bendersx_engine/algorithm.py). It publishes `A` and
    `B` to the shared pool, then runs a fixed number of rounds of: master problem,
    one subproblem per block, cut-pool update and pruning, merging the block
    productions into `x_prev`, dual gaps and repartitioning; finally it releases the
    pool and reports the total production. The master's solver outcomes and warm-start
    acceptances are inputs, one per round; the subproblems read `B` as its dense rows,
    which neither the real scipy nor the stand-in `csr_matrix` provides on this path. */
module Algorithm {
  import opened Wrappers
  import opened Floats
  import opened Config
  import opened Cuts
  import opened Partitioning
  import opened SharedMemory
  import opened Subproblem
  import opened Master

  /** `(float(total), x_prev, all_cuts, info)`. */
  datatype BendersOutput = BendersOutput(total: real, x: seq<real>, cuts: seq<Cut>, info: map<string, real>)

  /** The initial and, as it turns out, permanent block list. */
  function InitialBlocks(n: int): seq<Block> {
    [Block("block_0", 0, n)]
  }

  /** `x_prev[s:e] = v`: the slice, as Python normalises its bounds, is replaced by `v`. */
  function SliceAssign(xs: seq<real>, s: int, e: int, v: seq<real>): seq<real> {
    var lo := SliceBound(s, |xs|);
    var hi := SliceBound(e, |xs|);
    var hi' := if hi < lo then lo else hi;
    xs[..lo] + v + xs[hi'..]
  }

  /** For bounds inside the list, the slice reads back as `v` and every element
      before or after the slice is kept. */
  lemma SliceAssignInside(xs: seq<real>, s: int, e: int, v: seq<real>)
    requires 0 <= s <= e <= |xs|
    ensures |SliceAssign(xs, s, e, v)| == |xs| - (e - s) + |v|
    ensures SliceAssign(xs, s, e, v)[s..s + |v|] == v
    ensures forall i :: 0 <= i < s ==> SliceAssign(xs, s, e, v)[i] == xs[i]
    ensures forall i :: e <= i < |xs| ==> SliceAssign(xs, s, e, v)[i - (e - s) + |v|] == xs[i]
  {
    var r := SliceAssign(xs, s, e, v);
    assert r == xs[..s] + v + xs[e..];
    assert r[s..s + |v|] == v;
  }

  /** Assigning a whole-range slice of the right length replaces the list. */
  lemma SliceAssignWhole(xs: seq<real>, n: int, v: seq<real>)
    requires |xs| == NBlock(0, n) && |v| == |xs|
    ensures SliceAssign(xs, 0, n, v) == v
  {
  }

  /** `{bid: theta[idx] - obj for idx, (bid, _, _) in enumerate(blocks)}`: every block's
      gap is measured against the same `obj`, and a repeated id keeps its last gap. */
  function DualGaps(blocks: seq<Block>, theta: seq<Float>, obj: real): (gaps: map<string, Float>)
    requires |blocks| <= |theta|
    ensures forall id :: id in gaps <==> exists i :: 0 <= i < |blocks| && blocks[i].id == id
  {
    if blocks == [] then map[]
    else
      var init := DualGaps(blocks[..|blocks| - 1], theta, obj);
      assert forall i :: 0 <= i < |blocks| - 1 ==> blocks[..|blocks| - 1][i] == blocks[i];
      init[blocks[|blocks| - 1].id := SubReal(theta[|blocks| - 1], obj)]
  }

  /** A block whose id no later block repeats gets its own gap, `theta[idx] - obj`. */
  lemma {:induction false} DualGapsValue(blocks: seq<Block>, theta: seq<Float>, obj: real, i: int)
    requires |blocks| <= |theta| && 0 <= i < |blocks| && LastWithId(blocks, i)
    ensures blocks[i].id in DualGaps(blocks, theta, obj)
    ensures DualGaps(blocks, theta, obj)[blocks[i].id] == SubReal(theta[i], obj)
    decreases |blocks|
  {
    var last := |blocks| - 1;
    var init := blocks[..last];
    var before := DualGaps(init, theta, obj);
    assert DualGaps(blocks, theta, obj) == before[blocks[last].id := SubReal(theta[last], obj)];
    if i < last {
      assert init[i] == blocks[i];
      assert LastWithId(init, i) by {
        forall j | i < j < |init|
          ensures init[j].id != init[i].id
        {
          assert init[j] == blocks[j];
        }
      }
      DualGapsValue(init, theta, obj, i);
      assert blocks[last].id != blocks[i].id;
    }
  }

  /** No later block shares the id of block `i`. */
  predicate LastWithId(blocks: seq<Block>, i: int)
    requires 0 <= i < |blocks|
  {
    forall j :: i < j < |blocks| ==> blocks[j].id != blocks[i].id
  }

  /** `[res[-1] for res in results if res[-1] is not None]`. */
  function NewCuts(results: seq<SubproblemResult>): (cs: seq<Cut>)
    ensures forall c :: c in cs ==> exists k :: 0 <= k < |results| && results[k].cut == Some(c)
    ensures forall k :: 0 <= k < |results| && results[k].cut.Some? ==> results[k].cut.value in cs
    ensures |cs| <= |results|
  {
    if results == [] then []
    else
      var init := NewCuts(results[..|results| - 1]);
      var last := results[|results| - 1];
      assert forall k :: 0 <= k < |results| - 1 ==> results[..|results| - 1][k] == results[k];
      init + (if last.cut.Some? then [last.cut.value] else [])
  }

  /** Every entry equal: the production of a block spread evenly. */
  predicate Uniform(xs: seq<real>) {
    forall i, j :: 0 <= i < |xs| && 0 <= j < |xs| ==> xs[i] == xs[j]
  }

  /** A sufficient condition for a run without `IndexError`: at least `m0` resource
      totals, a row of `B` for each of them and, for the planned objective, rows
      covering `[0, n)` and penalty lists covering every resource. */
  predicate WellSizedInput(n: int, m0: nat, totalR: seq<real>, bRows: seq<seq<real>>, config: BendersConfig) {
    m0 <= |totalR| <= |bRows| &&
    config.matrixGenParams.Some? &&
    (config.matrixGenParams.value.planwirtschaftObjective ==>
      BlockReadable(bRows, 0, NBlock(0, n), |totalR|) &&
      (config.matrixGenParams.value.underproductionPenalties.Some? ==>
        |config.matrixGenParams.value.underproductionPenalties.value| >= |totalR|) &&
      (config.matrixGenParams.value.overproductionPenalties.Some? ==>
        |config.matrixGenParams.value.overproductionPenalties.value| >= |totalR|))
  }

  /** On a well-sized input the worker can run on the initial block with any
      allocation row no longer than `total_r`. */
  lemma WellSizedForWorker(n: int, m0: nat, totalR: seq<real>, bRows: seq<seq<real>>, config: BendersConfig, r: seq<real>)
    requires WellSizedInput(n, m0, totalR, bRows, config) && |r| <= |totalR|
    ensures WorkerInput(bRows, 0, n, r, config)
  {
  }

  /** The repartition call uses `max_block_size = n`, so the initial block is never
      split: the block list never changes. */
  lemma BlocksNeverChange(n: int, gaps: map<string, Float>)
    ensures Repartition(InitialBlocks(n), gaps, n) == InitialBlocks(n)
  {
    RepartitionSmallBlocks(InitialBlocks(n), gaps, n);
  }

  /** Segments published under prefix "A" never clash with those published under "B":
      names fresh for "B" stay fresh once `A` is published. */
  lemma PrefixesSeparate(segs: map<string, Segment>, a: Csr, h1: string, h2: string, h3: string,
                         g1: string, g2: string, g3: string)
    requires FreshNames(segs, "B", g1, g2, g3)
    ensures FreshNames(Published(segs, "A", a, h1, h2, h3), "B", g1, g2, g3)
  {
    PublishedSegments(segs, "A", a, h1, h2, h3);
    var names := {DataName("A", h1), IndicesName("A", h2), IndptrName("A", h3)};
    assert forall k :: k in names ==> k[0] == 'A';
    assert DataName("B", g1)[0] == 'B';
    assert IndicesName("B", g2)[0] == 'B';
    assert IndptrName("B", g3)[0] == 'B';
  }

  /** One subproblem result of the single block: its id, an even spread over the block
      and, if any, an optimality cut for the block. */
  predicate BlockResult(res: SubproblemResult, n: int) {
    res.blockId == "block_0" && |res.xBlock| == NBlock(0, n) && Uniform(res.xBlock) &&
    (res.cut.Some? ==> res.cut.value.kind == Opt && res.cut.value.blockId == "block_0")
  }

  /** Every cut of the pool is an optimality cut of the single block. */
  predicate PoolOfBlock(cuts: seq<Cut>) {
    forall c :: c in cuts ==> c.kind == Opt && c.blockId == "block_0"
  }

  /** The tuple the worker returns for a block handed the allocation row `r`: the even
      spread of the demand, the objective, duals 0.5 on every resource, the offset
      `obj - pi . r` and the optimality cut built from them. */
  function WorkerResult(blockId: string, start: int, end: int, b: seq<seq<real>>, r: seq<real>,
                        config: BendersConfig): SubproblemResult
    requires WorkerInput(b, start, end, r, config)
  {
    var obj := Objective(b, start, end, r, config);
    var pi := FixedDuals(r);
    var mu := obj - Dot(pi, r);
    SubproblemResult(blockId, obj, XBlock(Demand(b, start, end, r), NBlock(start, end)), pi, [mu],
                     MakeOptCut(blockId, Lift(pi), Fin(mu)))
  }

  /** The worker's result on the initial block is a result of that block. */
  lemma WorkerResultOfBlock(n: int, b: seq<seq<real>>, r: seq<real>, config: BendersConfig)
    requires WorkerInput(b, 0, n, r, config)
    ensures BlockResult(WorkerResult("block_0", 0, n, b, r, config), n)
  {
    var res := WorkerResult("block_0", 0, n, b, r, config);
    CutAlwaysEmitted("block_0", r, res.mu[0]);
  }

  /** The solver outcomes fit a program with a single block. */
  predicate OutcomesFit(outcomes: seq<SolverOutcome>, m0: nat) {
    forall k :: 0 <= k < |outcomes| && outcomes[k].Optimal? ==> |outcomes[k].colValue| == m0 + 1
  }

  /** `r_vars[0]` of a round whose master solve ended with `outcome`, for the single
      block: the first row of the reshaped solution, or of the even split. */
  function RoundAllocation(outcome: SolverOutcome, totalR: seq<real>, m0: nat): (r: seq<real>)
    requires m0 <= |totalR|
    requires outcome.Optimal? ==> |outcome.colValue| == m0 + 1
    ensures |r| <= |totalR|
  {
    if outcome.Optimal? then Reshape(outcome.colValue[..1 * m0], 1, m0)[0]
    else EvenSplit(totalR, 1)[0]
  }

  /** With a single block, `r_vars[0]` is the solver's first `m0` columns when the
      solve was optimal and the whole of `total_r` otherwise. */
  lemma RoundAllocationValue(outcome: SolverOutcome, totalR: seq<real>, m0: nat)
    requires m0 <= |totalR|
    requires outcome.Optimal? ==> |outcome.colValue| == m0 + 1
    ensures outcome.Optimal? ==> RoundAllocation(outcome, totalR, m0) == outcome.colValue[..m0]
    ensures outcome.NotOptimal? ==> RoundAllocation(outcome, totalR, m0) == totalR
  {
    var r := RoundAllocation(outcome, totalR, m0);
    if outcome.Optimal? {
      var flat := outcome.colValue[..m0];
      forall j | 0 <= j < m0
        ensures r[j] == flat[j]
      {
        ReshapeEntry(flat, 1, m0, 0, j);
      }
    } else {
      forall j | 0 <= j < |totalR|
        ensures r[j] == totalR[j]
      {
      }
    }
  }

  /** The worker of round `k` can read everything it needs with that round's
      `r_vars[0]`. */
  predicate RoundReadable(n: int, m0: nat, totalR: seq<real>, bRows: seq<seq<real>>, config: BendersConfig,
                          outcomes: seq<SolverOutcome>, k: nat)
    requires config.matrixGenParams.Some? && OutcomesFit(outcomes, m0) && m0 <= |totalR| && k < |outcomes|
  {
    WorkerReadable(bRows, 0, n, RoundAllocation(outcomes[k], totalR, m0), config)
  }

  /** Round `k` gets through: the master finds `m0` resource totals (otherwise
      `total_r[j]` raises `IndexError`) and the worker's reads succeed. */
  predicate RoundOk(n: int, m0: nat, totalR: seq<real>, bRows: seq<seq<real>>, config: BendersConfig,
                    outcomes: seq<SolverOutcome>, k: nat)
    requires config.matrixGenParams.Some? && OutcomesFit(outcomes, m0) && k < |outcomes|
  {
    m0 <= |totalR| && RoundReadable(n, m0, totalR, bRows, config, outcomes, k)
  }

  /** The first `k` rounds all get through. */
  predicate RunsThrough(n: int, m0: nat, totalR: seq<real>, bRows: seq<seq<real>>, config: BendersConfig,
                        outcomes: seq<SolverOutcome>, k: nat)
  {
    config.matrixGenParams.Some? && OutcomesFit(outcomes, m0) && k <= |outcomes| &&
    (k > 0 ==> m0 <= |totalR| && forall j :: 0 <= j < k ==> RoundReadable(n, m0, totalR, bRows, config, outcomes, j))
  }

  /** A well-sized input gets through every round, whatever the solver does. */
  lemma WellSizedRunsThrough(n: int, m0: nat, totalR: seq<real>, bRows: seq<seq<real>>, config: BendersConfig,
                             outcomes: seq<SolverOutcome>, k: nat)
    requires WellSizedInput(n, m0, totalR, bRows, config) && OutcomesFit(outcomes, m0) && k <= |outcomes|
    ensures RunsThrough(n, m0, totalR, bRows, config, outcomes, k)
  {
    forall j | 0 <= j < k
      ensures RoundReadable(n, m0, totalR, bRows, config, outcomes, j)
    {
      WellSizedForWorker(n, m0, totalR, bRows, config, RoundAllocation(outcomes[j], totalR, m0));
    }
  }

  /** When every solve is optimal and the planned objective is off, the worker reads
      only the first `m0` rows of `B`: the run gets through exactly when there are `m0`
      resource totals and `m0` rows of `B`, however many totals there are. */
  lemma OptimalRunsThrough(n: int, m0: nat, totalR: seq<real>, bRows: seq<seq<real>>, config: BendersConfig,
                           outcomes: seq<SolverOutcome>, k: nat)
    requires config.matrixGenParams.Some? && !config.matrixGenParams.value.planwirtschaftObjective
    requires OutcomesFit(outcomes, m0) && 0 < k <= |outcomes|
    requires forall j :: 0 <= j < k ==> outcomes[j].Optimal?
    ensures RunsThrough(n, m0, totalR, bRows, config, outcomes, k) <==> m0 <= |totalR| && m0 <= |bRows|
  {
    if m0 <= |totalR| {
      forall j | 0 <= j < k
        ensures RoundReadable(n, m0, totalR, bRows, config, outcomes, j) <==> m0 <= |bRows|
      {
        RoundAllocationValue(outcomes[j], totalR, m0);
      }
      assert RoundReadable(n, m0, totalR, bRows, config, outcomes, 0) <==> m0 <= |bRows|;
    }
  }

  /** One more round gets through when round `k` does. */
  lemma RunsThroughStep(n: int, m0: nat, totalR: seq<real>, bRows: seq<seq<real>>, config: BendersConfig,
                        outcomes: seq<SolverOutcome>, k: nat)
    requires RunsThrough(n, m0, totalR, bRows, config, outcomes, k) && k < |outcomes|
    requires RoundOk(n, m0, totalR, bRows, config, outcomes, k)
    ensures RunsThrough(n, m0, totalR, bRows, config, outcomes, k + 1)
  {
  }

  /** The result of the single block in round `k` (counted from 0). */
  function RoundResult(n: int, m0: nat, totalR: seq<real>, bRows: seq<seq<real>>, config: BendersConfig,
                       outcomes: seq<SolverOutcome>, k: nat): SubproblemResult
    requires RunsThrough(n, m0, totalR, bRows, config, outcomes, k + 1)
  {
    assert RoundReadable(n, m0, totalR, bRows, config, outcomes, k);
    WorkerResult("block_0", 0, n, bRows, RoundAllocation(outcomes[k], totalR, m0), config)
  }

  /** The demand the worker of round `k` spreads over the block. */
  function RoundDemand(n: int, m0: nat, totalR: seq<real>, bRows: seq<seq<real>>, config: BendersConfig,
                       outcomes: seq<SolverOutcome>, k: nat): real
    requires RunsThrough(n, m0, totalR, bRows, config, outcomes, k + 1)
  {
    assert RoundReadable(n, m0, totalR, bRows, config, outcomes, k);
    Demand(bRows, 0, n, RoundAllocation(outcomes[k], totalR, m0))
  }

  /** `all_cuts` after `k` rounds: each round adds the new cuts and prunes the pool. */
  function PoolAfter(n: int, m0: nat, totalR: seq<real>, bRows: seq<seq<real>>, config: BendersConfig,
                     outcomes: seq<SolverOutcome>, k: nat): seq<Cut>
    requires RunsThrough(n, m0, totalR, bRows, config, outcomes, k)
  {
    if k == 0 then []
    else
      ParetoSelect(PoolAfter(n, m0, totalR, bRows, config, outcomes, k - 1)
                     + NewCuts([RoundResult(n, m0, totalR, bRows, config, outcomes, k - 1)]),
                   config.cutPoolMultiplier)
  }

  /** `x_prev` after `k` rounds: zeros at first, then the last round's block production. */
  function ProductionAfter(n: int, m0: nat, totalR: seq<real>, bRows: seq<seq<real>>, config: BendersConfig,
                           outcomes: seq<SolverOutcome>, k: nat): seq<real>
    requires RunsThrough(n, m0, totalR, bRows, config, outcomes, k)
  {
    if k == 0 then seq(NBlock(0, n), _ => 0.0)
    else RoundResult(n, m0, totalR, bRows, config, outcomes, k - 1).xBlock
  }

  /** `last_basis` as round `k` finds it: the initial one before the first round, then
      the basis of the previous solve if it was optimal. */
  function BasisBefore(initial: Option<Basis>, outcomes: seq<SolverOutcome>, k: nat): Option<Basis>
    requires k <= |outcomes|
  {
    if k == 0 then initial
    else if outcomes[k - 1].Optimal? then Some(outcomes[k - 1].basis)
    else None
  }

  /** The master program of a round over the initial block, given the pool it was built from. */
  function MasterModel(n: int, m0: nat, totalR: seq<real>, cuts: seq<Cut>, start: Option<Basis>): LpModel
    requires m0 <= |totalR|
  {
    LpModel(Columns(1, m0), ResourceRows(1, m0, totalR) + CutRows(cuts, BlockPos(InitialBlocks(n)), m0, 1 * m0), start)
  }

  /** The session's program after `k` rounds: the initial one before the first round,
      then the program of the last round, built from the pool that round started with
      and warm-started from the stored basis when `setBasis` accepted it. */
  function ModelAfter(n: int, m0: nat, totalR: seq<real>, bRows: seq<seq<real>>, config: BendersConfig,
                      outcomes: seq<SolverOutcome>, basisAccepted: seq<bool>,
                      initialModel: LpModel, initialBasis: Option<Basis>, k: nat): LpModel
    requires k <= |outcomes| && k <= |basisAccepted|
    requires k > 0 ==> m0 <= |totalR| && RunsThrough(n, m0, totalR, bRows, config, outcomes, k - 1)
  {
    if k == 0 then initialModel
    else
      MasterModel(n, m0, totalR, PoolAfter(n, m0, totalR, bRows, config, outcomes, k - 1),
                  if basisAccepted[k - 1] then BasisBefore(initialBasis, outcomes, k - 1) else None)
  }

  /** The session's program when round `k` is the first to raise: the columns and the
      resource rows of the totals there are when `total_r` is short, otherwise the
      program of round `k`, whose worker raised. */
  function ModelAtFailure(n: int, m0: nat, totalR: seq<real>, bRows: seq<seq<real>>, config: BendersConfig,
                          outcomes: seq<SolverOutcome>, basisAccepted: seq<bool>,
                          initialModel: LpModel, initialBasis: Option<Basis>, k: nat): LpModel
    requires RunsThrough(n, m0, totalR, bRows, config, outcomes, k) && k < |outcomes| && k < |basisAccepted|
  {
    if m0 > |totalR| then LpModel(Columns(1, m0), ResourceRowsUpTo(1, m0, totalR, |totalR|), None)
    else ModelAfter(n, m0, totalR, bRows, config, outcomes, basisAccepted, initialModel, initialBasis, k + 1)
  }

  /** `last_basis` when round `k` is the first to raise: untouched by a master that
      raised, otherwise set by round `k`'s solve. */
  function BasisAtFailure(initial: Option<Basis>, outcomes: seq<SolverOutcome>, m0: nat, totalR: seq<real>, k: nat): Option<Basis>
    requires k < |outcomes|
  {
    if m0 > |totalR| then BasisBefore(initial, outcomes, k) else BasisBefore(initial, outcomes, k + 1)
  }

  /** Every round contributes exactly one cut, an optimality cut of the single block. */
  lemma RoundNewCut(n: int, m0: nat, totalR: seq<real>, bRows: seq<seq<real>>,
                    config: BendersConfig, outcomes: seq<SolverOutcome>, k: nat)
    requires RunsThrough(n, m0, totalR, bRows, config, outcomes, k + 1)
    ensures var res := RoundResult(n, m0, totalR, bRows, config, outcomes, k);
      && res.cut.Some? && res.cut.value.kind == Opt && res.cut.value.blockId == "block_0"
      && NewCuts([res]) == [res.cut.value]
  {
    var res := RoundResult(n, m0, totalR, bRows, config, outcomes, k);
    var r := RoundAllocation(outcomes[k], totalR, m0);
    CutAlwaysEmitted("block_0", r, res.mu[0]);
    assert [res][..0] == [];
  }

  /** Pruning a pool of the single block's optimality cuts, extended by another, keeps
      only such cuts. */
  lemma PoolStep(before: seq<Cut>, c: Cut, maxK: int)
    requires PoolOfBlock(before) && c.kind == Opt && c.blockId == "block_0"
    ensures PoolOfBlock(ParetoSelect(before + [c], maxK))
  {
    var after := ParetoSelect(before + [c], maxK);
    forall x | x in after
      ensures x.kind == Opt && x.blockId == "block_0"
    {
      var i :| 0 <= i < |after| && after[i] == x;
      assert after[i] in before + [c];
    }
  }

  /** Every pool of the run holds only optimality cuts of the single block. */
  lemma {:induction false} PoolAfterOfBlock(n: int, m0: nat, totalR: seq<real>, bRows: seq<seq<real>>,
                                            config: BendersConfig, outcomes: seq<SolverOutcome>, k: nat)
    requires RunsThrough(n, m0, totalR, bRows, config, outcomes, k)
    ensures PoolOfBlock(PoolAfter(n, m0, totalR, bRows, config, outcomes, k))
  {
    if k > 0 {
      PoolAfterOfBlock(n, m0, totalR, bRows, config, outcomes, k - 1);
      RoundNewCut(n, m0, totalR, bRows, config, outcomes, k - 1);
      var res := RoundResult(n, m0, totalR, bRows, config, outcomes, k - 1);
      PoolStep(PoolAfter(n, m0, totalR, bRows, config, outcomes, k - 1), res.cut.value, config.cutPoolMultiplier);
    }
  }

  /** With a multiplier of at least 1, no pool of the run exceeds it. */
  lemma PoolAfterBounded(n: int, m0: nat, totalR: seq<real>, bRows: seq<seq<real>>,
                         config: BendersConfig, outcomes: seq<SolverOutcome>, k: nat)
    requires RunsThrough(n, m0, totalR, bRows, config, outcomes, k)
    requires config.cutPoolMultiplier >= 1
    ensures |PoolAfter(n, m0, totalR, bRows, config, outcomes, k)| <= config.cutPoolMultiplier
  {
    if k > 0 {
      ParetoSelectBounded(PoolAfter(n, m0, totalR, bRows, config, outcomes, k - 1)
                            + NewCuts([RoundResult(n, m0, totalR, bRows, config, outcomes, k - 1)]),
                          config.cutPoolMultiplier);
    }
  }

  /** After any round, `x_prev` spreads the demand under that round's `r_vars[0]` evenly
      over `[0, n)`, so the reported total is that demand (0.0 for `n <= 0`). */
  lemma ProductionAfterRound(n: int, m0: nat, totalR: seq<real>, bRows: seq<seq<real>>,
                             config: BendersConfig, outcomes: seq<SolverOutcome>, k: nat)
    requires RunsThrough(n, m0, totalR, bRows, config, outcomes, k) && 0 < k
    ensures var d := RoundDemand(n, m0, totalR, bRows, config, outcomes, k - 1);
      && |ProductionAfter(n, m0, totalR, bRows, config, outcomes, k)| == NBlock(0, n)
      && (forall i :: 0 <= i < NBlock(0, n) ==>
            ProductionAfter(n, m0, totalR, bRows, config, outcomes, k)[i] == d / (NBlock(0, n) as real))
      && Sum(ProductionAfter(n, m0, totalR, bRows, config, outcomes, k)) == if n > 0 then d else 0.0
  {
    var d := RoundDemand(n, m0, totalR, bRows, config, outcomes, k - 1);
    XBlockSumsToDemand(d, NBlock(0, n));
  }

  /** `x_prev` always has `n` equal entries. */
  lemma ProductionAfterUniform(n: int, m0: nat, totalR: seq<real>, bRows: seq<seq<real>>,
                               config: BendersConfig, outcomes: seq<SolverOutcome>, k: nat)
    requires RunsThrough(n, m0, totalR, bRows, config, outcomes, k)
    ensures |ProductionAfter(n, m0, totalR, bRows, config, outcomes, k)| == NBlock(0, n)
    ensures Uniform(ProductionAfter(n, m0, totalR, bRows, config, outcomes, k))
  {
    if k > 0 {
      ProductionAfterRound(n, m0, totalR, bRows, config, outcomes, k);
    }
  }

  /** The subproblem round: one worker call per block, each handed `r_vars[0]`. The
      first worker that raises ends the round with its `IndexError`. */
  method RunSubproblems(n: int, bRows: seq<seq<real>>, config: BendersConfig, blocks: seq<Block>, r: seq<real>)
    returns (out: Result<seq<SubproblemResult>, string>)
    requires config.matrixGenParams.Some?
    requires blocks == InitialBlocks(n)
    ensures out.Success? <==>
      forall k :: 0 <= k < |blocks| ==> WorkerReadable(bRows, blocks[k].start, blocks[k].end, r, config)
    ensures out.Success? ==> |out.value| == |blocks|
    ensures out.Success? ==> forall k :: 0 <= k < |out.value| ==>
      WorkerInput(bRows, blocks[k].start, blocks[k].end, r, config) &&
      out.value[k] == WorkerResult(blocks[k].id, blocks[k].start, blocks[k].end, bRows, r, config)
    ensures out.Success? ==> forall k :: 0 <= k < |out.value| ==> BlockResult(out.value[k], n)
  {
    var results: seq<SubproblemResult> := [];
    for k := 0 to |blocks|
      invariant |results| == k
      invariant forall t :: 0 <= t < k ==>
        WorkerInput(bRows, blocks[t].start, blocks[t].end, r, config) &&
        results[t] == WorkerResult(blocks[t].id, blocks[t].start, blocks[t].end, bRows, r, config)
      invariant forall t :: 0 <= t < k ==> BlockResult(results[t], n)
    {
      var bl := blocks[k];
      var res := SolveSubproblemWorker(bl.id, bl.start, bl.end, bRows, r, config);
      if res.Failure? {
        return Failure(res.error);
      }
      WorkerResultOfBlock(n, bRows, r, config);
      results := results + [res.value];
    }
    out := Success(results);
  }

  /** The merge: `x_prev` restarts at zero and each result's block range is overwritten
      with its production, the block found by the first matching id. With the single
      block covering `[0, n)`, the last result's production is what remains. */
  method Merge(n: int, blocks: seq<Block>, results: seq<SubproblemResult>) returns (x: seq<real>)
    requires blocks == InitialBlocks(n)
    requires forall k :: 0 <= k < |results| ==> BlockResult(results[k], n)
    ensures x == if results == [] then seq(NBlock(0, n), _ => 0.0) else results[|results| - 1].xBlock
  {
    x := seq(NBlock(0, n), _ => 0.0);
    for k := 0 to |results|
      invariant x == if k == 0 then seq(NBlock(0, n), _ => 0.0) else results[k - 1].xBlock
      invariant |x| == NBlock(0, n)
    {
      var res := results[k];
      assert BlockResult(res, n);
      assert blocks[0].id == res.blockId;
      var before := x;
      for t := 0 to |blocks|
        invariant x == before
        invariant forall u :: 0 <= u < t ==> blocks[u].id != res.blockId
      {
        var bl := blocks[t];
        if bl.id == res.blockId {
          SliceAssignWhole(x, n, res.xBlock);
          x := SliceAssign(x, bl.start, bl.end, res.xBlock);
          break;
        }
      }
      assert x == res.xBlock;
    }
  }

  /** Round `f` is the first to raise, and it left the session with `basis` and `model`. */
  predicate FailedAt(n: int, m0: nat, totalR: seq<real>, bRows: seq<seq<real>>, config: BendersConfig,
                     outcomes: seq<SolverOutcome>, basisAccepted: seq<bool>,
                     initialModel: LpModel, initialBasis: Option<Basis>, f: nat, basis: Option<Basis>, model: LpModel)
  {
    && f < |outcomes| && f < |basisAccepted|
    && RunsThrough(n, m0, totalR, bRows, config, outcomes, f)
    && !RoundOk(n, m0, totalR, bRows, config, outcomes, f)
    && basis == BasisAtFailure(initialBasis, outcomes, m0, totalR, f)
    && model == ModelAtFailure(n, m0, totalR, bRows, config, outcomes, basisAccepted, initialModel, initialBasis, f)
  }

  /** One round of the loop body: master problem, subproblems, pool update and pruning,
      merge, dual gaps and repartitioning. An `IndexError` in the master or a worker
      ends the round, with the session as that call left it. */
  method Round(n: int, m0: nat, totalR: seq<real>, bRows: seq<seq<real>>, config: BendersConfig,
               session: MasterSession, outcomes: seq<SolverOutcome>, basisAccepted: seq<bool>,
               k: nat, blocks: seq<Block>, cuts: seq<Cut>, ghost initialModel: LpModel, ghost initialBasis: Option<Basis>)
    returns (step: Result<(seq<Cut>, seq<real>, seq<Block>), string>)
    requires RunsThrough(n, m0, totalR, bRows, config, outcomes, k)
    requires k < |outcomes| && k < |basisAccepted|
    requires blocks == InitialBlocks(n)
    requires cuts == PoolAfter(n, m0, totalR, bRows, config, outcomes, k)
    requires session.lastBasis == BasisBefore(initialBasis, outcomes, k)
    modifies session
    ensures step.Success? <==> RoundOk(n, m0, totalR, bRows, config, outcomes, k)
    ensures step.Success? ==>
      && RunsThrough(n, m0, totalR, bRows, config, outcomes, k + 1)
      && step.value.0 == PoolAfter(n, m0, totalR, bRows, config, outcomes, k + 1)
      && step.value.1 == ProductionAfter(n, m0, totalR, bRows, config, outcomes, k + 1)
      && step.value.2 == InitialBlocks(n)
      && session.lastBasis == BasisBefore(initialBasis, outcomes, k + 1)
      && session.model
         == ModelAfter(n, m0, totalR, bRows, config, outcomes, basisAccepted, initialModel, initialBasis, k + 1)
    ensures step.Failure? ==>
      && session.lastBasis == BasisAtFailure(initialBasis, outcomes, m0, totalR, k)
      && session.model
         == ModelAtFailure(n, m0, totalR, bRows, config, outcomes, basisAccepted, initialModel, initialBasis, k)
  {
    var master := session.SolveMasterProblem(blocks, m0, totalR, cuts, basisAccepted[k], outcomes[k]);
    if master.Failure? {
      return Failure(master.error);
    }
    var r := master.value.rVars[0];
    assert r == RoundAllocation(outcomes[k], totalR, m0);
    var results := RunSubproblems(n, bRows, config, blocks, r);
    if results.Failure? {
      return Failure(results.error);
    }
    RunsThroughStep(n, m0, totalR, bRows, config, outcomes, k);
    assert results.value == [RoundResult(n, m0, totalR, bRows, config, outcomes, k)];

    var cuts' := ParetoSelect(cuts + NewCuts(results.value), config.cutPoolMultiplier);

    var x := Merge(n, blocks, results.value);
    var obj := results.value[|results.value| - 1].obj;
    var dualGaps := DualGaps(blocks, master.value.theta, obj);
    BlocksNeverChange(n, dualGaps);
    var blocks' := RepartitionBlocks(blocks, dualGaps, n);
    step := Success((cuts', x, blocks'));
  }

  /** The number of rounds, `range(max_iterations_per_phase)`. */
  function Rounds(config: BendersConfig): nat {
    NBlock(0, config.maxIterationsPerPhase)
  }

  /** The `for` loop of the driver: `rounds` rounds starting from zero production, the
      initial block and an empty pool, ended early by the first round that raises. */
  method RunRounds(n: int, m0: nat, totalR: seq<real>, bRows: seq<seq<real>>, config: BendersConfig,
                   session: MasterSession, outcomes: seq<SolverOutcome>, basisAccepted: seq<bool>, rounds: nat)
    returns (out: Result<(seq<real>, seq<Cut>), string>)
    requires config.matrixGenParams.Some? && OutcomesFit(outcomes, m0)
    requires rounds <= |outcomes| && rounds <= |basisAccepted|
    modifies session
    ensures out.Success? <==> RunsThrough(n, m0, totalR, bRows, config, outcomes, rounds)
    ensures out.Success? ==>
      && out.value.0 == ProductionAfter(n, m0, totalR, bRows, config, outcomes, rounds)
      && out.value.1 == PoolAfter(n, m0, totalR, bRows, config, outcomes, rounds)
      && session.lastBasis == BasisBefore(old(session.lastBasis), outcomes, rounds)
      && (rounds > 0 ==> m0 <= |totalR|)
      && session.model
         == ModelAfter(n, m0, totalR, bRows, config, outcomes, basisAccepted, old(session.model), old(session.lastBasis), rounds)
    ensures out.Failure? ==>
      exists f :: 0 <= f < rounds &&
                  FailedAt(n, m0, totalR, bRows, config, outcomes, basisAccepted, old(session.model),
                           old(session.lastBasis), f, session.lastBasis, session.model)
  {
    var x := seq(NBlock(0, n), _ => 0.0);
    var blocks := InitialBlocks(n);
    var allCuts := [];
    ghost var initialModel := session.model;
    ghost var initialBasis := session.lastBasis;

    for it := 0 to rounds
      invariant RunsThrough(n, m0, totalR, bRows, config, outcomes, it)
      invariant it > 0 ==> m0 <= |totalR| && RunsThrough(n, m0, totalR, bRows, config, outcomes, it - 1)
      invariant blocks == InitialBlocks(n)
      invariant allCuts == PoolAfter(n, m0, totalR, bRows, config, outcomes, it)
      invariant x == ProductionAfter(n, m0, totalR, bRows, config, outcomes, it)
      invariant session.lastBasis == BasisBefore(initialBasis, outcomes, it)
      invariant session.model
             == ModelAfter(n, m0, totalR, bRows, config, outcomes, basisAccepted, initialModel, initialBasis, it)
    {
      var step := Round(n, m0, totalR, bRows, config, session, outcomes, basisAccepted, it, blocks, allCuts,
                        initialModel, initialBasis);
      if step.Failure? {
        assert FailedAt(n, m0, totalR, bRows, config, outcomes, basisAccepted, initialModel, initialBasis,
                        it, session.lastBasis, session.model);
        return Failure(step.error);
      }
      allCuts, x, blocks := step.value.0, step.value.1, step.value.2;
    }
    out := Success((x, allCuts));
  }

  /** Publishing `A` and then `B` under fresh names and releasing both name sets gives
      the segments back as they were. */
  lemma ReleaseBoth(released: map<string, Segment>, aCsr: Csr, bCsr: Csr,
                    hexA: (string, string, string), hexB: (string, string, string))
    requires FreshNames(released, "A", hexA.0, hexA.1, hexA.2)
    requires FreshNames(released, "B", hexB.0, hexB.1, hexB.2)
    ensures FreshNames(Published(released, "A", aCsr, hexA.0, hexA.1, hexA.2), "B", hexB.0, hexB.1, hexB.2)
    ensures Published(Published(released, "A", aCsr, hexA.0, hexA.1, hexA.2), "B", bCsr, hexB.0, hexB.1, hexB.2)
            - (PoolNames("A", hexA.0, hexA.1, hexA.2) + PoolNames("B", hexB.0, hexB.1, hexB.2))
         == released
  {
    PrefixesSeparate(released, aCsr, hexA.0, hexA.1, hexA.2, hexB.0, hexB.1, hexB.2);
    var withA := Published(released, "A", aCsr, hexA.0, hexA.1, hexA.2);
    var withB := Published(withA, "B", bCsr, hexB.0, hexB.1, hexB.2);
    PublishThenRelease(withA, "B", bCsr, hexB.0, hexB.1, hexB.2);
    PublishThenRelease(released, "A", aCsr, hexA.0, hexA.1, hexA.2);
    assert withB - (PoolNames("A", hexA.0, hexA.1, hexA.2) + PoolNames("B", hexB.0, hexB.1, hexB.2))
        == withB - PoolNames("B", hexB.0, hexB.1, hexB.2) - PoolNames("A", hexA.0, hexA.1, hexA.2);
  }

  /** The driver's opening: release the pool, then publish `A` and `B`. A matrix with an
      empty array makes its publication fail, leaving what was created so far. */
  method PublishInputs(pool: SharedPool, aCsr: Csr, bCsr: Csr,
                       hexA: (string, string, string), hexB: (string, string, string))
    returns (out: Result<(CsrMeta, CsrMeta), string>)
    requires FreshNames(pool.segments - pool.pooled, "A", hexA.0, hexA.1, hexA.2)
    requires FreshNames(pool.segments - pool.pooled, "B", hexB.0, hexB.1, hexB.2)
    modifies pool
    ensures out.Success? <==> Publishable(aCsr) && Publishable(bCsr)
    ensures !Publishable(aCsr) ==>
      pool.segments == Orphaned(old(pool.segments) - old(pool.pooled), "A", aCsr, hexA.0, hexA.1, hexA.2) &&
      pool.pooled == {}
    ensures Publishable(aCsr) && !Publishable(bCsr) ==>
      pool.segments == Orphaned(Published(old(pool.segments) - old(pool.pooled), "A", aCsr, hexA.0, hexA.1, hexA.2),
                                "B", bCsr, hexB.0, hexB.1, hexB.2) &&
      pool.pooled == PoolNames("A", hexA.0, hexA.1, hexA.2)
    ensures out.Success? ==>
      pool.segments == Published(Published(old(pool.segments) - old(pool.pooled), "A", aCsr, hexA.0, hexA.1, hexA.2),
                                 "B", bCsr, hexB.0, hexB.1, hexB.2) &&
      pool.pooled == PoolNames("A", hexA.0, hexA.1, hexA.2) + PoolNames("B", hexB.0, hexB.1, hexB.2)
  {
    pool.Cleanup();
    ReleaseBoth(pool.segments, aCsr, bCsr, hexA, hexB);
    var aMeta := pool.CsrToShared("A", aCsr, hexA.0, hexA.1, hexA.2);
    if aMeta.Failure? {
      return Failure(aMeta.error);
    }
    var bMeta := pool.CsrToShared("B", bCsr, hexB.0, hexB.1, hexB.2);
    if bMeta.Failure? {
      return Failure(bMeta.error);
    }
    out := Success((aMeta.value, bMeta.value));
  }

  /** `benders_decomposition(n, m0, total_r, A, B, config)`. `A` and `B` are published
      as CSR matrices under the given hex names; a matrix with an empty array makes the
      publication, and so the whole call, fail. Otherwise every round is determined by
      its solver outcome. A round that raises `IndexError` ends the call before the
      final cleanup, so both matrices stay published. When every round gets through,
      the result carries the last round's production and the final cut pool, and the
      session keeps the last round's program and basis. */
  method BendersDecomposition(
    n: int, m0: nat, totalR: seq<real>, aCsr: Csr, bCsr: Csr, bRows: seq<seq<real>>,
    config: BendersConfig, pool: SharedPool, session: MasterSession,
    hexA: (string, string, string), hexB: (string, string, string),
    outcomes: seq<SolverOutcome>, basisAccepted: seq<bool>)
    returns (out: Result<BendersOutput, string>)
    requires config.matrixGenParams.Some?
    requires |outcomes| >= Rounds(config) && |basisAccepted| >= Rounds(config)
    requires OutcomesFit(outcomes, m0)
    requires FreshNames(pool.segments - pool.pooled, "A", hexA.0, hexA.1, hexA.2)
    requires FreshNames(pool.segments - pool.pooled, "B", hexB.0, hexB.1, hexB.2)
    modifies pool, session
    ensures out.Success? <==>
      Publishable(aCsr) && Publishable(bCsr) && RunsThrough(n, m0, totalR, bRows, config, outcomes, Rounds(config))
    ensures out.Success? ==> pool.segments == old(pool.segments) - old(pool.pooled) && pool.pooled == {}
    ensures !Publishable(aCsr) ==>
      pool.segments == Orphaned(old(pool.segments) - old(pool.pooled), "A", aCsr, hexA.0, hexA.1, hexA.2) &&
      pool.pooled == {}
    ensures Publishable(aCsr) && !Publishable(bCsr) ==>
      pool.segments == Orphaned(Published(old(pool.segments) - old(pool.pooled), "A", aCsr, hexA.0, hexA.1, hexA.2),
                                "B", bCsr, hexB.0, hexB.1, hexB.2) &&
      pool.pooled == PoolNames("A", hexA.0, hexA.1, hexA.2)
    ensures Publishable(aCsr) && Publishable(bCsr) && out.Failure? ==>
      pool.segments == Published(Published(old(pool.segments) - old(pool.pooled), "A", aCsr, hexA.0, hexA.1, hexA.2),
                                 "B", bCsr, hexB.0, hexB.1, hexB.2) &&
      pool.pooled == PoolNames("A", hexA.0, hexA.1, hexA.2) + PoolNames("B", hexB.0, hexB.1, hexB.2)
    ensures out.Success? ==>
      && out.value.x == ProductionAfter(n, m0, totalR, bRows, config, outcomes, Rounds(config))
      && out.value.cuts == PoolAfter(n, m0, totalR, bRows, config, outcomes, Rounds(config))
      && out.value.total == Sum(out.value.x)
      && out.value.info == map[]
    ensures out.Success? ==> |out.value.x| == NBlock(0, n) && Uniform(out.value.x)
    ensures out.Success? ==> PoolOfBlock(out.value.cuts)
    ensures out.Success? && config.cutPoolMultiplier >= 1 ==> |out.value.cuts| <= config.cutPoolMultiplier
    ensures out.Success? ==>
      session.lastBasis == BasisBefore(old(session.lastBasis), outcomes, Rounds(config))
    ensures out.Success? ==> Rounds(config) > 0 ==> m0 <= |totalR|
    ensures out.Success? ==>
      session.model == ModelAfter(n, m0, totalR, bRows, config, outcomes, basisAccepted,
                                  old(session.model), old(session.lastBasis), Rounds(config))
    ensures !Publishable(aCsr) || !Publishable(bCsr) ==>
      session.lastBasis == old(session.lastBasis) && session.model == old(session.model)
    ensures Publishable(aCsr) && Publishable(bCsr) && out.Failure? ==>
      exists f :: 0 <= f < Rounds(config) &&
                  FailedAt(n, m0, totalR, bRows, config, outcomes, basisAccepted, old(session.model),
                           old(session.lastBasis), f, session.lastBasis, session.model)
  {
    ghost var released := pool.segments - pool.pooled;
    var metas := PublishInputs(pool, aCsr, bCsr, hexA, hexB);
    if metas.Failure? {
      return Failure(metas.error);
    }

    var rounds := Rounds(config);
    var run := RunRounds(n, m0, totalR, bRows, config, session, outcomes, basisAccepted, rounds);
    if run.Failure? {
      return Failure(run.error);
    }
    var x, allCuts := run.value.0, run.value.1;
    ProductionAfterUniform(n, m0, totalR, bRows, config, outcomes, rounds);
    PoolAfterOfBlock(n, m0, totalR, bRows, config, outcomes, rounds);
    if config.cutPoolMultiplier >= 1 {
      PoolAfterBounded(n, m0, totalR, bRows, config, outcomes, rounds);
    }

    ReleaseBoth(released, aCsr, bCsr, hexA, hexB);
    pool.Cleanup();
    out := Success(BendersOutput(Sum(x), x, allCuts, map[]));
  }
}
