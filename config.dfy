/** The part of the solver configuration (src/bendersx_engine/config.py) that the
    engine reads. Environment probing, thread settings and printing are not modelled. */
module Config {
  import opened Wrappers

  /** The recognised entries of the open-ended `matrix_gen_params` dictionary; an
      absent entry is `None` (or `false` for the flags). */
  datatype PlanParams = PlanParams(
    planwirtschaftObjective: bool,
    underproductionPenalty: Option<real>,
    overproductionPenalty: Option<real>,
    underproductionPenalties: Option<seq<real>>,
    overproductionPenalties: Option<seq<real>>,
    prioritySectors: bool)

  /** `{}`. */
  const NoParams: PlanParams := PlanParams(false, None, None, None, None, false)

  datatype BendersConfig = BendersConfig(
    maxIterationsPerPhase: int,
    cutPoolMultiplier: int,
    adaptiveBigMFactor: real,
    bigMCap: real,
    matrixGenParams: Option<PlanParams>,
    prioritySectorAllocationFactor: real)

  /** `BendersConfig()` before `__post_init__`. */
  const Defaults: BendersConfig := BendersConfig(3, 8, 50.0, 10000000.0, None, 1.0)

  /** `__post_init__`: a missing `matrix_gen_params` becomes `{}`, and declaring
      priority sectors with an allocation factor below 1.0 raises `ValueError`. */
  function PostInit(cfg: BendersConfig): (r: Result<BendersConfig, string>)
    ensures r.Failure? <==> cfg.matrixGenParams.Some? && cfg.matrixGenParams.value.prioritySectors
                            && cfg.prioritySectorAllocationFactor < 1.0
    ensures r.Success? ==> r.value.matrixGenParams.Some?
    ensures r.Success? && cfg.matrixGenParams.Some? ==> r.value == cfg
    ensures r.Success? && cfg.matrixGenParams.None? ==> r.value == cfg.(matrixGenParams := Some(NoParams))
  {
    var params := cfg.matrixGenParams.GetOr(NoParams);
    if params.prioritySectors && cfg.prioritySectorAllocationFactor < 1.0 then
      Failure("priority_sector_allocation_factor must be >= 1.0")
    else
      Success(cfg.(matrixGenParams := Some(params)))
  }
}
