/** Cut factory and cut-pool pruning (src/bendersx_engine/cuts.py).

    A cut is the tuple `(tag, block_id, beta, alpha)`. Tags are open strings in the
    source: pruning keeps only "feas" and "opt", and the master treats every tag
    other than "opt" as a feasibility cut, so the tag is `Feas`, `Opt` or `Other`. */
module Cuts {
  import opened Floats
  import opened Wrappers

  /** A tag that is neither "feas" nor "opt". */
  type OtherTag = t: string | t != "feas" && t != "opt" witness "other"

  datatype Kind = Feas | Opt | Other(tag: OtherTag)

  datatype Cut = Cut(kind: Kind, blockId: string, beta: seq<Float>, alpha: Float)

  function Min(a: int, b: int): int { if a <= b then a else b }

  function Max(a: int, b: int): int { if a >= b then a else b }

  // ---------------------------------------------------------------------------
  // Building cuts
  // ---------------------------------------------------------------------------

  /** `_dot(a, b)`: `zip` stops at the shorter vector. */
  function Dot(a: seq<real>, b: seq<real>): real
    decreases |a|
  {
    if |a| == 0 || |b| == 0 then 0.0 else a[0] * b[0] + Dot(a[1..], b[1..])
  }

  /** The dot product only sees the common prefix of the two vectors. */
  lemma {:induction false} DotTruncates(a: seq<real>, b: seq<real>)
    ensures Dot(a, b) == Dot(a[..Min(|a|, |b|)], b[..Min(|a|, |b|)])
    decreases |a|
  {
    if |a| != 0 && |b| != 0 {
      DotTruncates(a[1..], b[1..]);
      var m := Min(|a|, |b|);
      assert a[..m][1..] == a[1..][..m - 1];
      assert b[..m][1..] == b[1..][..m - 1];
    }
  }

  lemma {:induction false} DotSymmetric(a: seq<real>, b: seq<real>)
    ensures Dot(a, b) == Dot(b, a)
    decreases |a|
  {
    if |a| != 0 && |b| != 0 {
      DotSymmetric(a[1..], b[1..]);
    }
  }

  /** Appending one coordinate to two equally long vectors adds one product. */
  lemma {:induction false} DotSnoc(a: seq<real>, b: seq<real>, x: real, y: real)
    requires |a| == |b|
    ensures Dot(a + [x], b + [y]) == Dot(a, b) + x * y
    decreases |a|
  {
    if |a| != 0 {
      assert (a + [x])[1..] == a[1..] + [x];
      assert (b + [y])[1..] == b[1..] + [y];
      DotSnoc(a[1..], b[1..], x, y);
    }
  }

  /** The finite values of a vector of reals. */
  function Lift(xs: seq<real>): (r: seq<Float>)
    ensures |r| == |xs|
    ensures forall i :: 0 <= i < |xs| ==> r[i] == Fin(xs[i])
  {
    seq(|xs|, i requires 0 <= i < |xs| => Fin(xs[i]))
  }

  /** `make_feas_cut`: always succeeds; beta is the dual vector verbatim and alpha is
      its dot product with the assigned resources. */
  function MakeFeasCut(blockId: string, piFeasOnly: seq<real>, rAssigned: seq<real>): (c: Cut)
    ensures c.kind == Feas && c.blockId == blockId
    ensures |c.beta| == |piFeasOnly|
    ensures forall i :: 0 <= i < |piFeasOnly| ==> c.beta[i] == Fin(piFeasOnly[i])
    ensures c.alpha.Fin?
    ensures c.alpha.val == Dot(piFeasOnly[..Min(|piFeasOnly|, |rAssigned|)], rAssigned[..Min(|piFeasOnly|, |rAssigned|)])
  {
    DotTruncates(piFeasOnly, rAssigned);
    Cut(Feas, blockId, Lift(piFeasOnly), Fin(Dot(piFeasOnly, rAssigned)))
  }

  /** `any(math.isnan(x) for x in xs)`. */
  function AnyNaN(xs: seq<Float>): (b: bool)
    ensures b <==> exists i :: 0 <= i < |xs| && IsNaN(xs[i])
  {
    if xs == [] then false
    else if IsNaN(xs[0]) then true
    else
      var rest := AnyNaN(xs[1..]);
      assert forall i :: 1 <= i < |xs| ==> xs[i] == xs[1..][i - 1];
      rest
  }

  /** `make_opt_cut`: rejected (None) exactly when a dual entry or the offset is NaN;
      infinities are accepted. */
  function MakeOptCut(blockId: string, pi: seq<Float>, mu: Float): (r: Option<Cut>)
    ensures r.None? <==> (exists i :: 0 <= i < |pi| && IsNaN(pi[i])) || IsNaN(mu)
    ensures r.Some? ==> r.value.kind == Opt && r.value.blockId == blockId
    ensures r.Some? ==> r.value.beta == pi && r.value.alpha == mu
  {
    if AnyNaN(pi) || IsNaN(mu) then None else Some(Cut(Opt, blockId, pi, mu))
  }

  // ---------------------------------------------------------------------------
  // Ranking by |offset|: `list.sort(key=lambda c: abs(c[3]), reverse=True)`
  // ---------------------------------------------------------------------------

  predicate NoNaNOffsets(cs: seq<Cut>) {
    forall i :: 0 <= i < |cs| ==> !IsNaN(cs[i].alpha)
  }

  /** Non-increasing in |offset|. */
  predicate ByMagnitude(cs: seq<Cut>) {
    forall i, j :: 0 <= i < j < |cs| ==> AbsLe(cs[j].alpha, cs[i].alpha)
  }

  /** Inserts `c` in front of the first cut whose |offset| is not larger, so that `c`
      stays ahead of the cuts of equal magnitude that followed it in the input. */
  function InsertByMagnitude(c: Cut, s: seq<Cut>): (r: seq<Cut>)
    ensures multiset(r) == multiset(s) + multiset{c}
    ensures |r| == |s| + 1
    ensures forall x :: x in r <==> x == c || x in s
  {
    if s == [] then [c]
    else if AbsLe(s[0].alpha, c.alpha) then [c] + s
    else
      var t := InsertByMagnitude(c, s[1..]);
      assert s == [s[0]] + s[1..];
      [s[0]] + t
  }

  /** Python's stable descending sort by |offset|, written as an insertion sort. */
  function SortByMagnitude(cs: seq<Cut>): (r: seq<Cut>)
    ensures multiset(r) == multiset(cs)
    ensures |r| == |cs|
    ensures forall x :: x in r <==> x in cs
  {
    if cs == [] then []
    else
      var t := SortByMagnitude(cs[1..]);
      assert cs == [cs[0]] + cs[1..];
      InsertByMagnitude(cs[0], t)
  }

  lemma {:induction false} InsertKeepsOrder(c: Cut, s: seq<Cut>)
    requires !IsNaN(c.alpha) && NoNaNOffsets(s) && ByMagnitude(s)
    ensures ByMagnitude(InsertByMagnitude(c, s))
    ensures NoNaNOffsets(InsertByMagnitude(c, s))
  {
    if s == [] {
    } else if AbsLe(s[0].alpha, c.alpha) {
      InsertInFront(c, s);
    } else {
      AbsLeTotal(s[0].alpha, c.alpha);
      InsertKeepsOrder(c, s[1..]);
      InsertBehind(c, s);
    }
  }

  /** A cut no smaller than everything after it can head an ordered list. */
  lemma {:induction false} ByMagnitudeCons(h: Cut, t: seq<Cut>)
    requires ByMagnitude(t) && !IsNaN(h.alpha) && NoNaNOffsets(t)
    requires forall x :: x in t ==> AbsLe(x.alpha, h.alpha)
    ensures ByMagnitude([h] + t) && NoNaNOffsets([h] + t)
  {
    var r := [h] + t;
    forall i, j | 0 <= i < j < |r| ensures AbsLe(r[j].alpha, r[i].alpha) {
      assert r[j] == t[j - 1];
      if i == 0 {
        assert r[j] in t;
      } else {
        assert r[i] == t[i - 1];
      }
    }
    forall i | 0 <= i < |r| ensures !IsNaN(r[i].alpha) {
      if i > 0 {
        assert r[i] == t[i - 1];
      }
    }
  }

  lemma {:induction false} InsertInFront(c: Cut, s: seq<Cut>)
    requires !IsNaN(c.alpha) && NoNaNOffsets(s) && ByMagnitude(s)
    requires s != [] && AbsLe(s[0].alpha, c.alpha)
    ensures ByMagnitude([c] + s) && NoNaNOffsets([c] + s)
  {
    forall x | x in s ensures AbsLe(x.alpha, c.alpha) {
      var k :| 0 <= k < |s| && s[k] == x;
      if k > 0 {
        AbsLeTransitive(s[k].alpha, s[0].alpha, c.alpha);
      }
    }
    ByMagnitudeCons(c, s);
  }

  lemma {:induction false} InsertBehind(c: Cut, s: seq<Cut>)
    requires !IsNaN(c.alpha) && NoNaNOffsets(s) && ByMagnitude(s)
    requires s != [] && AbsLe(c.alpha, s[0].alpha)
    requires ByMagnitude(InsertByMagnitude(c, s[1..])) && NoNaNOffsets(InsertByMagnitude(c, s[1..]))
    ensures ByMagnitude([s[0]] + InsertByMagnitude(c, s[1..]))
    ensures NoNaNOffsets([s[0]] + InsertByMagnitude(c, s[1..]))
  {
    var t := InsertByMagnitude(c, s[1..]);
    var h := s[0];
    var rest := s[1..];
    assert forall x :: x in rest ==> AbsLe(x.alpha, h.alpha) by {
      forall x | x in rest ensures AbsLe(x.alpha, h.alpha) {
        var k :| 0 <= k < |rest| && rest[k] == x;
        assert s[k + 1] == x;
      }
    }
    assert forall x :: x in t ==> x == c || x in rest;
    ByMagnitudeCons(h, t);
  }

  /** The ranking is non-increasing in |offset| (and, by its contract, a permutation). */
  lemma {:induction false} SortByMagnitudeOrders(cs: seq<Cut>)
    requires NoNaNOffsets(cs)
    ensures ByMagnitude(SortByMagnitude(cs))
    ensures NoNaNOffsets(SortByMagnitude(cs))
  {
    if cs != [] {
      SortByMagnitudeOrders(cs[1..]);
      InsertKeepsOrder(cs[0], SortByMagnitude(cs[1..]));
    }
  }

  /** Same |offset| as `k`. */
  predicate SameMagnitude(a: Float, k: Float) {
    AbsLe(a, k) && AbsLe(k, a)
  }

  /** The cuts whose |offset| equals |k|, in their order in `cs`. */
  function WithMagnitude(cs: seq<Cut>, k: Float): (r: seq<Cut>)
    ensures |r| <= |cs|
  {
    if cs == [] then []
    else (if SameMagnitude(cs[0].alpha, k) then [cs[0]] else []) + WithMagnitude(cs[1..], k)
  }

  lemma {:induction false} InsertStable(c: Cut, s: seq<Cut>, k: Float)
    requires !IsNaN(c.alpha) && NoNaNOffsets(s)
    ensures WithMagnitude(InsertByMagnitude(c, s), k)
         == (if SameMagnitude(c.alpha, k) then [c] else []) + WithMagnitude(s, k)
  {
    if s == [] {
    } else if AbsLe(s[0].alpha, c.alpha) {
      var r := [c] + s;
      assert r[1..] == s;
    } else {
      InsertStable(c, s[1..], k);
      InsertStableBehind(c, s, k);
    }
  }

  /** The step of `InsertStable` where the cut passes the head: the head is larger than
      the cut, so at most one of them has magnitude |k|. */
  lemma InsertStableBehind(c: Cut, s: seq<Cut>, k: Float)
    requires s != [] && !AbsLe(s[0].alpha, c.alpha) && !IsNaN(c.alpha) && !IsNaN(s[0].alpha)
    requires WithMagnitude(InsertByMagnitude(c, s[1..]), k)
          == (if SameMagnitude(c.alpha, k) then [c] else []) + WithMagnitude(s[1..], k)
    ensures WithMagnitude(InsertByMagnitude(c, s), k)
         == (if SameMagnitude(c.alpha, k) then [c] else []) + WithMagnitude(s, k)
  {
    var x := s[0];
    var t := InsertByMagnitude(c, s[1..]);
    var head := if SameMagnitude(x.alpha, k) then [x] else [];
    var mine := if SameMagnitude(c.alpha, k) then [c] else [];
    assert InsertByMagnitude(c, s) == [x] + t;
    ConsWithMagnitude(x, t, k);
    ConsWithMagnitude(x, s[1..], k);
    assert [x] + s[1..] == s;
    if head != [] && mine != [] {
      AbsLeTransitive(x.alpha, k, c.alpha);
      assert false;
    }
    SwapOneOfEmpty(head, mine, WithMagnitude(s[1..], k));
  }

  lemma ConsWithMagnitude(x: Cut, t: seq<Cut>, k: Float)
    ensures WithMagnitude([x] + t, k) == (if SameMagnitude(x.alpha, k) then [x] else []) + WithMagnitude(t, k)
  {
    assert ([x] + t)[1..] == t;
  }

  lemma SwapOneOfEmpty<T>(a: seq<T>, b: seq<T>, rest: seq<T>)
    requires a == [] || b == []
    ensures a + (b + rest) == b + (a + rest)
  {
  }

  /** Stability: for every magnitude, the cuts of that magnitude keep their input order. */
  lemma {:induction false} SortByMagnitudeStable(cs: seq<Cut>, k: Float)
    requires NoNaNOffsets(cs)
    ensures WithMagnitude(SortByMagnitude(cs), k) == WithMagnitude(cs, k)
  {
    if cs != [] {
      SortByMagnitudeStable(cs[1..], k);
      SortByMagnitudeOrders(cs[1..]);
      InsertStable(cs[0], SortByMagnitude(cs[1..]), k);
    }
  }

  // ---------------------------------------------------------------------------
  // Pruning: `pareto_select_cuts`
  // ---------------------------------------------------------------------------

  /** `[c for c in cuts if c[0] == tag]`. */
  function OfKind(cs: seq<Cut>, kind: Kind): (r: seq<Cut>)
    ensures |r| <= |cs|
    ensures forall x :: x in r ==> x.kind == kind && x in cs
    ensures forall x :: x in cs && x.kind == kind ==> x in r
  {
    if cs == [] then []
    else
      var t := OfKind(cs[1..], kind);
      assert forall i :: 1 <= i < |cs| ==> cs[i] == cs[1..][i - 1];
      (if cs[0].kind == kind then [cs[0]] else []) + t
  }

  /** Python's `s[:k]`: a negative `k` drops `-k` elements from the end. */
  function PyPrefix<T>(s: seq<T>, k: int): (r: seq<T>)
    ensures r <= s
    ensures k >= 0 ==> |r| == Min(k, |s|)
    ensures k < 0 ==> |r| == Max(0, |s| + k)
  {
    if k >= 0 then s[..Min(k, |s|)] else s[..Max(0, |s| + k)]
  }

  /** Slots reserved for feasibility cuts: `max(1, max_k // 3)`. */
  function MaxFeas(maxK: int): int {
    Max(1, maxK / 3)
  }

  function RankedFeas(cuts: seq<Cut>): seq<Cut> {
    SortByMagnitude(OfKind(cuts, Feas))
  }

  function RankedOpt(cuts: seq<Cut>): seq<Cut> {
    SortByMagnitude(OfKind(cuts, Opt))
  }

  /** `pareto_select_cuts(cuts_list, max_k, config)`. */
  function ParetoSelect(cuts: seq<Cut>, maxK: int): (r: seq<Cut>)
    ensures |cuts| <= maxK ==> r == cuts
    ensures forall i :: 0 <= i < |r| ==> r[i] in cuts
  {
    if |cuts| <= maxK then cuts
    else
      var f := PyPrefix(RankedFeas(cuts), MaxFeas(maxK));
      var o := PyPrefix(RankedOpt(cuts), maxK - MaxFeas(maxK));
      assert forall x :: x in f ==> x in RankedFeas(cuts);
      assert forall x :: x in o ==> x in RankedOpt(cuts);
      f + o
  }

  /** `r` is at most `maxFeas` cuts taken from the front of `rf`, all feasibility
      cuts, followed by cuts taken from the front of `ro`, all optimality cuts. */
  predicate FeasThenOpt(r: seq<Cut>, nf: int, rf: seq<Cut>, ro: seq<Cut>, maxFeas: int) {
    && 0 <= nf <= |r| && nf <= maxFeas
    && r[..nf] <= rf && r[nf..] <= ro
    && (forall i :: 0 <= i < nf ==> r[i].kind == Feas)
    && (forall i :: nf <= i < |r| ==> r[i].kind == Opt)
  }

  /** When pruning, the result is the best-ranked feasibility cuts followed by the
      best-ranked optimality cuts, each group a prefix of the stable ranking of its kind
      (so ordered by |offset|). The groups fill their quotas: `max(1, max_k // 3)`
      feasibility cuts and, for `max_k >= 1`, `max_k` minus that many optimality cuts,
      or every cut of the kind when there are fewer. */
  lemma {:induction false} ParetoSelectShape(cuts: seq<Cut>, maxK: int)
    requires |cuts| > maxK
    ensures FeasThenOpt(ParetoSelect(cuts, maxK), Min(MaxFeas(maxK), |RankedFeas(cuts)|),
                        RankedFeas(cuts), RankedOpt(cuts), MaxFeas(maxK))
    ensures maxK >= 1 ==>
      |ParetoSelect(cuts, maxK)| - Min(MaxFeas(maxK), |RankedFeas(cuts)|)
        == Min(maxK - MaxFeas(maxK), |RankedOpt(cuts)|)
  {
    var rf := RankedFeas(cuts);
    var ro := RankedOpt(cuts);
    var f := PyPrefix(rf, MaxFeas(maxK));
    var o := PyPrefix(ro, maxK - MaxFeas(maxK));
    var r := ParetoSelect(cuts, maxK);
    ParetoSelectPrefixes(cuts, maxK);
    var nf := |f|;
    assert r[..nf] == f && r[nf..] == o;
    PrefixOfKind(f, rf, Feas);
    PrefixOfKind(o, ro, Opt);
    assert FeasThenOpt(r, nf, rf, ro, MaxFeas(maxK));
  }

  /** Helper of `ParetoSelectShape`: unfolds the pruning branch of `ParetoSelect`. */
  lemma ParetoSelectPrefixes(cuts: seq<Cut>, maxK: int)
    requires |cuts| > maxK
    ensures ParetoSelect(cuts, maxK)
         == PyPrefix(RankedFeas(cuts), MaxFeas(maxK)) + PyPrefix(RankedOpt(cuts), maxK - MaxFeas(maxK))
    ensures |PyPrefix(RankedFeas(cuts), MaxFeas(maxK))| == Min(MaxFeas(maxK), |RankedFeas(cuts)|)
  {
  }

  /** A prefix of a ranking of one kind holds only cuts of that kind. */
  lemma PrefixOfKind(p: seq<Cut>, ranked: seq<Cut>, kind: Kind)
    requires p <= ranked && forall x :: x in ranked ==> x.kind == kind
    ensures forall i :: 0 <= i < |p| ==> p[i].kind == kind
  {
    forall i | 0 <= i < |p| ensures p[i].kind == kind {
      assert p[i] == ranked[i] && ranked[i] in ranked;
    }
  }

  /** Each kept group is non-increasing in |offset| when no offset is NaN. */
  lemma ParetoSelectRanked(cuts: seq<Cut>, maxK: int)
    requires |cuts| > maxK && NoNaNOffsets(cuts)
    ensures ByMagnitude(PyPrefix(RankedFeas(cuts), MaxFeas(maxK)))
    ensures ByMagnitude(PyPrefix(RankedOpt(cuts), maxK - MaxFeas(maxK)))
  {
    var fs := OfKind(cuts, Feas);
    var os := OfKind(cuts, Opt);
    assert NoNaNOffsets(fs) by {
      forall i | 0 <= i < |fs| ensures !IsNaN(fs[i].alpha) {
        var x := fs[i];
        assert x in cuts;
      }
    }
    assert NoNaNOffsets(os) by {
      forall i | 0 <= i < |os| ensures !IsNaN(os[i].alpha) {
        var x := os[i];
        assert x in cuts;
      }
    }
    SortByMagnitudeOrders(fs);
    SortByMagnitudeOrders(os);
  }

  /** With a budget of at least one, pruning keeps at most `max_k` cuts. */
  lemma ParetoSelectBounded(cuts: seq<Cut>, maxK: int)
    requires maxK >= 1
    ensures |ParetoSelect(cuts, maxK)| <= maxK
  {
    if |cuts| > maxK {
      assert 1 <= MaxFeas(maxK) <= maxK;
    }
  }

  /** With a budget of zero or less, `opt_cuts[:max_k - 1]` counts from the end, so
      pruning keeps one feasibility cut and drops only `1 - max_k` optimality cuts. */
  lemma ParetoSelectNonPositiveBudget(cuts: seq<Cut>, maxK: int)
    requires maxK <= 0 && |cuts| > maxK
    ensures |ParetoSelect(cuts, maxK)|
         == Min(1, |OfKind(cuts, Feas)|) + Max(0, |OfKind(cuts, Opt)| - 1 + maxK)
  {
    assert MaxFeas(maxK) == 1;
  }

  /** A feasibility cut in the input guarantees one in the output, whatever the budget. */
  lemma ParetoSelectKeepsFeasibility(cuts: seq<Cut>, maxK: int, c: Cut)
    requires c in cuts && c.kind == Feas
    ensures exists x :: x in ParetoSelect(cuts, maxK) && x.kind == Feas
  {
    if |cuts| > maxK {
      var fs := OfKind(cuts, Feas);
      assert c in fs;
      assert |RankedFeas(cuts)| == |fs| >= 1;
      var r := ParetoSelect(cuts, maxK);
      var f := PyPrefix(RankedFeas(cuts), MaxFeas(maxK));
      assert r[0] == f[0] == RankedFeas(cuts)[0];
      assert r[0] in RankedFeas(cuts);
      assert r[0] in r;
    }
  }

  /** Pruning drops every cut tagged neither "feas" nor "opt". */
  lemma ParetoSelectDropsOtherTags(cuts: seq<Cut>, maxK: int)
    requires |cuts| > maxK
    ensures forall i :: 0 <= i < |ParetoSelect(cuts, maxK)| ==> !ParetoSelect(cuts, maxK)[i].kind.Other?
  {
    ParetoSelectShape(cuts, maxK);
  }
}
