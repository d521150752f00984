/** The subproblem stand-in (src/bendersx_engine/subproblem.py). A block `[start, end)`
    receives the resource vector `r_i_assigned`; it spreads the resource-weighted demand
    evenly over the block, scores the result (optionally with the planned-economy
    objective and its under- and over-production penalties) and emits an optimality
    cut with the fixed dual 0.5 on every resource. The matrix `B` is given as its
    dense rows. */
module Subproblem {
  import opened Wrappers
  import opened Floats
  import opened Config
  import opened Cuts

  /** The tuple the worker returns. */
  datatype SubproblemResult = SubproblemResult(
    blockId: string,
    obj: real,
    xBlock: seq<real>,
    pi: seq<real>,
    mu: seq<real>,
    cut: Option<Cut>)

  /** Python's `sum`, adding from the left. */
  function Sum(xs: seq<real>): real {
    if xs == [] then 0.0 else Sum(xs[..|xs| - 1]) + xs[|xs| - 1]
  }

  /** A slice bound as Python normalises it: negative counts from the end, and the
      result is clipped to `[0, len]`. */
  function SliceBound(i: int, len: nat): (r: nat)
    ensures r <= len
  {
    if i < 0 then (if i + len < 0 then 0 else i + len) else if i > len then len else i
  }

  /** `s[start:end]`. */
  function PySlice<T>(s: seq<T>, start: int, end: int): (r: seq<T>)
    ensures 0 <= start <= end <= |s| ==> r == s[start..end]
  {
    var lo := SliceBound(start, |s|);
    var hi := SliceBound(end, |s|);
    if lo < hi then s[lo..hi] else []
  }

  /** `s[k]` for `-len(s) <= k < len(s)`: a negative index counts from the end. */
  function PyIndex<T>(s: seq<T>, k: int): T
    requires -|s| <= k < |s|
  {
    if k < 0 then s[k + |s|] else s[k]
  }

  /** `max(0, end - start)`. */
  function NBlock(start: int, end: int): nat {
    if end - start < 0 then 0 else end - start
  }

  // ---------------------------------------------------------------------------
  // Demand and the even spread
  // ---------------------------------------------------------------------------

  /** The first `k` terms of `sum(sum(B[i][start:end]) * r[i] for i in range(len(r)))`. */
  function DemandUpTo(b: seq<seq<real>>, start: int, end: int, r: seq<real>, k: nat): real
    requires k <= |r| && k <= |b|
  {
    if k == 0 then 0.0
    else DemandUpTo(b, start, end, r, k - 1) + Sum(PySlice(b[k - 1], start, end)) * r[k - 1]
  }

  function Demand(b: seq<seq<real>>, start: int, end: int, r: seq<real>): real
    requires |r| <= |b|
  {
    DemandUpTo(b, start, end, r, |r|)
  }

  /** `x_block`: `n` equal shares of the demand. */
  function XBlock(demand: real, n: nat): (x: seq<real>)
    ensures |x| == n
    ensures forall j :: 0 <= j < n ==> x[j] == demand / (n as real)
  {
    seq(n, _ => if n > 0 then demand / (n as real) else 0.0)
  }

  lemma {:induction false} SumConstant(c: real, n: nat)
    ensures Sum(seq(n, _ => c)) == (n as real) * c
  {
    if n > 0 {
      assert seq(n, _ => c)[..n - 1] == seq(n - 1, _ => c);
      SumConstant(c, n - 1);
    }
  }

  /** The even spread hands out exactly the demand (in exact arithmetic); an empty
      block gets nothing. */
  lemma XBlockSumsToDemand(demand: real, n: nat)
    ensures Sum(XBlock(demand, n)) == if n > 0 then demand else 0.0
  {
    if n > 0 {
      SumConstant(demand / (n as real), n);
      assert XBlock(demand, n) == seq(n, _ => demand / (n as real));
      assert (n as real) * (demand / (n as real)) == demand;
    }
  }

  // ---------------------------------------------------------------------------
  // The planned-economy objective
  // ---------------------------------------------------------------------------

  /** The first `n` terms of `sum(B[i][start + j] * x[j] for j in range(n))`. */
  function ProducedUpTo(row: seq<real>, start: int, x: seq<real>, n: nat): real
    requires n <= |x|
    requires n > 0 ==> -|row| <= start && start + n <= |row|
  {
    if n == 0 then 0.0
    else ProducedUpTo(row, start, x, n - 1) + PyIndex(row, start + n - 1) * x[n - 1]
  }

  /** Resource `i` of block rows `B[i][start:start+n]` can be read for every resource
      `i < m0`. */
  predicate BlockReadable(b: seq<seq<real>>, start: int, n: nat, m0: nat) {
    m0 <= |b| && forall i :: 0 <= i < m0 ==> n > 0 ==> -|b[i]| <= start && start + n <= |b[i]|
  }

  /** `produced_vec`. */
  function ProducedVec(b: seq<seq<real>>, start: int, x: seq<real>, m0: nat): (p: seq<real>)
    requires BlockReadable(b, start, |x|, m0)
    ensures |p| == m0
  {
    seq(m0, i requires 0 <= i < m0 => ProducedUpTo(b[i], start, x, |x|))
  }

  function Max0(v: real): real { if v < 0.0 then 0.0 else v }

  /** One resource's score: production minus the penalised shortfall and surplus. */
  function Score(planned: real, produced: real, under: real, over: real): real {
    produced - under * Max0(planned - produced) - over * Max0(produced - planned)
  }

  /** The first `k` terms of the planned-economy objective. */
  function PlanObjectiveUpTo(r: seq<real>, produced: seq<real>, under: seq<real>, over: seq<real>, k: nat): real
    requires k <= |r| && k <= |produced| && k <= |under| && k <= |over|
  {
    if k == 0 then 0.0
    else PlanObjectiveUpTo(r, produced, under, over, k - 1) + Score(r[k - 1], produced[k - 1], under[k - 1], over[k - 1])
  }

  /** A non-negative penalty never raises the score above the production, and meeting
      the plan exactly costs nothing. */
  lemma ScoreBounded(planned: real, produced: real, under: real, over: real)
    requires under >= 0.0 && over >= 0.0
    ensures Score(planned, produced, under, over) <= produced
    ensures produced == planned ==> Score(planned, produced, under, over) == produced
  {
    assert under * Max0(planned - produced) >= 0.0;
    assert over * Max0(produced - planned) >= 0.0;
  }

  predicate NonNegative(xs: seq<real>) {
    forall i :: 0 <= i < |xs| ==> xs[i] >= 0.0
  }

  /** With non-negative penalties the planned objective is at most the total
      production, and equals it when every resource is produced exactly as planned. */
  lemma {:induction false} PlanObjectiveBounded(r: seq<real>, produced: seq<real>, under: seq<real>, over: seq<real>, k: nat)
    requires k <= |r| && k <= |produced| && k <= |under| && k <= |over|
    requires NonNegative(under) && NonNegative(over)
    ensures PlanObjectiveUpTo(r, produced, under, over, k) <= Sum(produced[..k])
    ensures produced[..k] == r[..k] ==> PlanObjectiveUpTo(r, produced, under, over, k) == Sum(produced[..k])
  {
    if k > 0 {
      assert produced[..k][..k - 1] == produced[..k - 1];
      if produced[..k] == r[..k] {
        assert produced[..k - 1] == r[..k - 1];
        assert produced[k - 1] == produced[..k][k - 1] == r[k - 1];
      }
      PlanObjectiveBounded(r, produced, under, over, k - 1);
      ScoreBounded(r[k - 1], produced[k - 1], under[k - 1], over[k - 1]);
    }
  }

  /** The penalty settings: `planwirtschaft_objective`, and the per-resource penalties
      with the scalar defaults (1.0 under, 0.0 over) broadcast to `m0` resources. */
  function UnderPenalties(params: PlanParams, m0: nat): (u: seq<real>)
    ensures params.underproductionPenalties.None? ==>
      |u| == m0 && forall i :: 0 <= i < m0 ==> u[i] == params.underproductionPenalty.GetOr(1.0)
    ensures params.underproductionPenalties.Some? ==> u == params.underproductionPenalties.value
  {
    match params.underproductionPenalties
    case Some(us) => us
    case None => seq(m0, _ => params.underproductionPenalty.GetOr(1.0))
  }

  function OverPenalties(params: PlanParams, m0: nat): (o: seq<real>)
    ensures params.overproductionPenalties.None? ==>
      |o| == m0 && forall i :: 0 <= i < m0 ==> o[i] == params.overproductionPenalty.GetOr(0.0)
    ensures params.overproductionPenalties.Some? ==> o == params.overproductionPenalties.value
  {
    match params.overproductionPenalties
    case Some(os) => os
    case None => seq(m0, _ => params.overproductionPenalty.GetOr(0.0))
  }

  /** The reads the worker makes all succeed: a row of `B` for every resource and, for
      the planned objective, the block's columns in every such row and penalty lists
      that cover every resource. Otherwise one of them raises `IndexError`. */
  predicate WorkerReadable(b: seq<seq<real>>, start: int, end: int, r: seq<real>, config: BendersConfig)
    requires config.matrixGenParams.Some?
  {
    |r| <= |b| &&
    (config.matrixGenParams.value.planwirtschaftObjective ==>
      BlockReadable(b, start, NBlock(start, end), |r|) &&
      |UnderPenalties(config.matrixGenParams.value, |r|)| >= |r| &&
      |OverPenalties(config.matrixGenParams.value, |r|)| >= |r|)
  }

  /** An input the worker completes: a configuration after `__post_init__` and reads
      that all succeed. */
  predicate WorkerInput(b: seq<seq<real>>, start: int, end: int, r: seq<real>, config: BendersConfig) {
    config.matrixGenParams.Some? && WorkerReadable(b, start, end, r, config)
  }

  /** The objective the worker reports. */
  function Objective(b: seq<seq<real>>, start: int, end: int, r: seq<real>, config: BendersConfig): real
    requires WorkerInput(b, start, end, r, config)
  {
    var params := config.matrixGenParams.value;
    var x := XBlock(Demand(b, start, end, r), NBlock(start, end));
    if params.planwirtschaftObjective then
      PlanObjectiveUpTo(r, ProducedVec(b, start, x, |r|), UnderPenalties(params, |r|), OverPenalties(params, |r|), |r|)
    else
      Sum(x)
  }

  /** `pi_i`: 0.5 for every resource. */
  function FixedDuals(r: seq<real>): (pi: seq<real>)
    ensures |pi| == |r| && forall i :: 0 <= i < |r| ==> pi[i] == 0.5
  {
    seq(|r|, _ => 0.5)
  }

  /** The loop building `produced_vec`. */
  method ProducedVector(b: seq<seq<real>>, start: int, xBlock: seq<real>, m0: nat) returns (producedVec: seq<real>)
    requires BlockReadable(b, start, |xBlock|, m0)
    ensures producedVec == ProducedVec(b, start, xBlock, m0)
  {
    producedVec := [];
    for i := 0 to m0
      invariant producedVec == ProducedVec(b, start, xBlock, m0)[..i]
    {
      var prod := 0.0;
      for j := 0 to |xBlock|
        invariant prod == ProducedUpTo(b[i], start, xBlock, j)
      {
        prod := prod + PyIndex(b[i], start + j) * xBlock[j];
      }
      producedVec := producedVec + [prod];
    }
  }

  /** The loop accumulating the planned-economy objective. */
  method PlannedObjective(r: seq<real>, producedVec: seq<real>, under: seq<real>, over: seq<real>) returns (obj: real)
    requires |r| <= |producedVec| && |r| <= |under| && |r| <= |over|
    ensures obj == PlanObjectiveUpTo(r, producedVec, under, over, |r|)
  {
    obj := 0.0;
    for i := 0 to |r|
      invariant obj == PlanObjectiveUpTo(r, producedVec, under, over, i)
    {
      var planned := r[i];
      var produced := producedVec[i];
      var underDev := Max0(planned - produced);
      var overDev := Max0(produced - planned);
      obj := obj + (produced - under[i] * underDev - over[i] * overDev);
    }
  }

  /** `solve_subproblem_worker`. Nothing is observable before one of its reads fails,
      so the reads are checked before the computation: an input on which one of them
      fails gives the `IndexError`. */
  method SolveSubproblemWorker(blockId: string, start: int, end: int, b: seq<seq<real>>, r: seq<real>, config: BendersConfig)
    returns (out: Result<SubproblemResult, string>)
    requires config.matrixGenParams.Some?
    ensures out.Success? <==> WorkerReadable(b, start, end, r, config)
    ensures out.Success? ==>
      var res := out.value;
      && res.blockId == blockId
      && res.xBlock == XBlock(Demand(b, start, end, r), NBlock(start, end))
      && res.obj == Objective(b, start, end, r, config)
      && res.pi == FixedDuals(r)
      && res.mu == [res.obj - Dot(res.pi, r)]
      && res.cut == MakeOptCut(blockId, Lift(res.pi), Fin(res.mu[0]))
  {
    if !WorkerReadable(b, start, end, r, config) {
      return Failure("IndexError: list index out of range");
    }
    var nBlock := NBlock(start, end);
    var demand := Demand(b, start, end, r);
    var xBlock := XBlock(demand, nBlock);
    var obj := Sum(xBlock);
    var params := config.matrixGenParams.value;
    if params.planwirtschaftObjective {
      var m0 := |r|;
      var under := UnderPenalties(params, m0);
      var over := OverPenalties(params, m0);
      var producedVec := ProducedVector(b, start, xBlock, m0);
      obj := PlannedObjective(r, producedVec, under, over);
    }
    var pi := FixedDuals(r);
    var mu := obj - Dot(pi, r);
    var cut := MakeOptCut(blockId, Lift(pi), Fin(mu));
    out := Success(SubproblemResult(blockId, obj, xBlock, pi, [mu], cut));
  }

  /** The cut always exists: the duals and the offset are finite. */
  lemma CutAlwaysEmitted(blockId: string, r: seq<real>, mu: real)
    ensures MakeOptCut(blockId, Lift(FixedDuals(r)), Fin(mu)).Some?
    ensures MakeOptCut(blockId, Lift(FixedDuals(r)), Fin(mu)).value
         == Cut(Opt, blockId, Lift(FixedDuals(r)), Fin(mu))
  {
  }

  /** `sum(0.5 * r[j])` is half the total of `r`. */
  lemma {:induction false} HalfDot(r: seq<real>)
    ensures Dot(FixedDuals(r), r) == 0.5 * SumFront(r)
    decreases |r|
  {
    if r != [] {
      assert FixedDuals(r)[1..] == FixedDuals(r[1..]);
      HalfDot(r[1..]);
    }
  }

  /** The total of `r`, adding from the front. */
  function SumFront(xs: seq<real>): real
    decreases |xs|
  {
    if xs == [] then 0.0 else xs[0] + SumFront(xs[1..])
  }

  /** Without the planned objective the reported objective is the demand itself (or
      0.0 for an empty block), and the cut's offset is that minus half the total
      resource. */
  lemma DefaultObjective(b: seq<seq<real>>, start: int, end: int, r: seq<real>, config: BendersConfig)
    requires WorkerInput(b, start, end, r, config)
    requires !config.matrixGenParams.value.planwirtschaftObjective
    ensures Objective(b, start, end, r, config)
         == if NBlock(start, end) > 0 then Demand(b, start, end, r) else 0.0
    ensures Objective(b, start, end, r, config) - Dot(FixedDuals(r), r)
         == Objective(b, start, end, r, config) - 0.5 * SumFront(r)
  {
    XBlockSumsToDemand(Demand(b, start, end, r), NBlock(start, end));
    HalfDot(r);
  }

  /** The worker test: block "b0" over `[0, 4)` of a single all-ones row with
      resource 1.0 under the default configuration. */
  lemma WorkerExample()
    ensures WorkerInput([[1.0, 1.0, 1.0, 1.0]], 0, 4, [1.0], Defaults.(matrixGenParams := Some(NoParams)))
    ensures Demand([[1.0, 1.0, 1.0, 1.0]], 0, 4, [1.0]) == 4.0
    ensures XBlock(4.0, NBlock(0, 4)) == [1.0, 1.0, 1.0, 1.0]
  {
    var row := [1.0, 1.0, 1.0, 1.0];
    assert row[0..4] == row == seq(4, _ => 1.0);
    SumConstant(1.0, 4);
    assert Sum(PySlice(row, 0, 4)) == 4.0;
    assert DemandUpTo([row], 0, 4, [1.0], 1) == DemandUpTo([row], 0, 4, [1.0], 0) + 4.0 * 1.0;
  }
}
