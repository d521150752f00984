/** Adaptive Big-M (src/bendersx_engine/bigm.py): the penalty on elastic slacks,
    `min(cap, scale * max(|c|_inf, |b|_inf, 1))`. */
module Bigm {
  import opened Floats
  import opened Config

  function MaxReal(a: real, b: real): real { if a >= b then a else b }

  function MinReal(a: real, b: real): real { if a <= b then a else b }

  /** `_inf_norm`: the largest absolute value, or 0.0 for an empty vector. */
  function InfNorm(values: seq<real>): (r: real)
    ensures values == [] ==> r == 0.0
    ensures forall i :: 0 <= i < |values| ==> Abs(values[i]) <= r
  {
    if values == [] then 0.0
    else if |values| == 1 then Abs(values[0])
    else
      var rest := InfNorm(values[1..]);
      assert forall i :: 1 <= i < |values| ==> values[i] == values[1..][i - 1];
      MaxReal(Abs(values[0]), rest)
  }

  /** The norm of a non-empty vector is the magnitude of one of its entries. */
  lemma {:induction false} InfNormAttained(values: seq<real>)
    requires values != []
    ensures exists i :: 0 <= i < |values| && InfNorm(values) == Abs(values[i])
  {
    if |values| > 1 {
      InfNormAttained(values[1..]);
      var j :| 0 <= j < |values[1..]| && InfNorm(values[1..]) == Abs(values[1..][j]);
      if InfNorm(values) != Abs(values[0]) {
        assert InfNorm(values) == Abs(values[j + 1]);
      }
    } else {
      assert InfNorm(values) == Abs(values[0]);
    }
  }

  /** `calculate_adaptive_big_m(c_sub, b_ub_core, config)`. */
  function CalculateAdaptiveBigM(cSub: seq<real>, bUbCore: seq<real>, config: BendersConfig): real
  {
    var scale := config.adaptiveBigMFactor;
    var bigM := Scaled(scale, Dominant(cSub, bUbCore));
    MinReal(bigM, config.bigMCap)
  }

  /** `max(c_norm, b_norm, 1.0)`, where an empty vector's norm is taken as 1.0. */
  function Dominant(cSub: seq<real>, bUbCore: seq<real>): real {
    var cNorm := if |cSub| > 0 then InfNorm(cSub) else 1.0;
    var bNorm := if |bUbCore| > 0 then InfNorm(bUbCore) else 1.0;
    MaxReal(MaxReal(cNorm, bNorm), 1.0)
  }

  /** `scale * m`. */
  function Scaled(scale: real, m: real): real {
    scale * m
  }

  /** The Big-M from the two norms. */
  function BigMFromNorms(cNorm: real, bNorm: real, scale: real, cap: real): real {
    MinReal(Scaled(scale, MaxReal(MaxReal(cNorm, bNorm), 1.0)), cap)
  }

  lemma InfNormNonNegative(values: seq<real>)
    ensures InfNorm(values) >= 0.0
  {
    if values != [] {
      assert Abs(values[0]) <= InfNorm(values);
    }
  }

  lemma DominantIgnoresEmpty(cSub: seq<real>, bUbCore: seq<real>)
    ensures Dominant(cSub, bUbCore) == MaxReal(MaxReal(InfNorm(cSub), InfNorm(bUbCore)), 1.0)
    ensures Dominant(cSub, bUbCore) >= 1.0
  {
    InfNormNonNegative(cSub);
    InfNormNonNegative(bUbCore);
  }

  lemma ScaledMonotone(s: real, a: real, b: real)
    requires s >= 0.0 && a <= b
    ensures Scaled(s, a) <= Scaled(s, b)
  {
    assert s * b - s * a == s * (b - a);
  }

  /** The result is the capped, scaled largest of the two infinity norms and 1.0; an
      empty vector counts as norm 1.0, which the floor of 1.0 makes the same as 0.0. */
  lemma BigMFormula(cSub: seq<real>, bUbCore: seq<real>, config: BendersConfig)
    ensures CalculateAdaptiveBigM(cSub, bUbCore, config)
         == BigMFromNorms(InfNorm(cSub), InfNorm(bUbCore), config.adaptiveBigMFactor, config.bigMCap)
  {
    DominantIgnoresEmpty(cSub, bUbCore);
  }

  /** The result never exceeds the cap and, for a non-negative scale, is at least
      `min(cap, scale)`. */
  lemma BigMBounds(cSub: seq<real>, bUbCore: seq<real>, config: BendersConfig)
    ensures CalculateAdaptiveBigM(cSub, bUbCore, config) <= config.bigMCap
    ensures config.adaptiveBigMFactor >= 0.0 ==>
      CalculateAdaptiveBigM(cSub, bUbCore, config) >= MinReal(config.bigMCap, config.adaptiveBigMFactor)
  {
    var scale := config.adaptiveBigMFactor;
    var m := Dominant(cSub, bUbCore);
    DominantIgnoresEmpty(cSub, bUbCore);
    if scale >= 0.0 {
      ScaledMonotone(scale, 1.0, m);
    }
  }

  /** For a non-negative scale the Big-M does not decrease when either norm grows. */
  lemma BigMMonotone(c1: seq<real>, c2: seq<real>, b1: seq<real>, b2: seq<real>, config: BendersConfig)
    requires config.adaptiveBigMFactor >= 0.0
    requires InfNorm(c1) <= InfNorm(c2) && InfNorm(b1) <= InfNorm(b2)
    ensures CalculateAdaptiveBigM(c1, b1, config) <= CalculateAdaptiveBigM(c2, b2, config)
  {
    var scale := config.adaptiveBigMFactor;
    DominantIgnoresEmpty(c1, b1);
    DominantIgnoresEmpty(c2, b2);
    var m1 := Dominant(c1, b1);
    var m2 := Dominant(c2, b2);
    ScaledMonotone(scale, m1, m2);
  }

  /** The Big-M test: `[1, 2]` and `[3]` under the default configuration give 150. */
  lemma BigMExample()
    ensures CalculateAdaptiveBigM([1.0, 2.0], [3.0], Defaults) == 150.0
  {
    assert InfNorm([2.0]) == 2.0;
    assert [1.0, 2.0][1..] == [2.0];
    assert InfNorm([1.0, 2.0]) == 2.0;
    assert InfNorm([3.0]) == 3.0;
  }
}
