/** The Benders callback of facility-location/src/callbacks.py: on a new
    integer solution (MIPSOL) or an optimally solved node relaxation
    (MIPNODE) it solves the subproblem at the candidate `y` and, when the
    subproblem costs more than the candidate `eta`, adds the optimality cut
    built from the subproblem's duals as a lazy constraint. */
module Callbacks {
  import opened Sums
  import opened Dataset
  import opened Subproblem

  /** Gurobi's callback codes and status code used by the callback. */
  const MIPSOL: int := 4
  const MIPNODE: int := 5
  const OPTIMAL: int := 2

  /** The lazy constraint `eta >= constant + Σ_j coef[j] * y[j]`. */
  datatype Cut = Cut(constant: real, coef: seq<real>)

  /** The right-hand side of a cut at a master point `y`. */
  function CutRhs(cut: Cut, y: seq<real>): real
    requires |cut.coef| == |y|
  {
    cut.constant + Dot(cut.coef, y)
  }

  predicate Holds(cut: Cut, y: seq<real>, eta: real)
    requires |cut.coef| == |y|
  {
    eta >= CutRhs(cut, y)
  }

  /** `add_optimality_cut`: the constant is `Σ_i demands[i] * mu[i]`, and
      the capacity term `Σ_j capacities[j] * nu[j] * y[j]` is added to it. */
  function OptimalityCut(d: Data, mu: seq<real>, nu: seq<real>): (cut: Cut)
    requires d.Valid() && |mu| == |d.I| && |nu| == |d.J|
    ensures cut.constant == Dot(d.demands, mu)
    ensures |cut.coef| == |d.J|
    ensures forall j :: 0 <= j < |d.J| ==> cut.coef[j] == d.capacities[j] * nu[j]
  {
    Cut(Dot(d.demands, mu), Times(d.capacities, nu))
  }

  /** At every master point the cut's right-hand side is the dual bound of
      the subproblem at that point, for the duals the cut was built from. */
  lemma CutRhsIsDualBound(d: Data, mu: seq<real>, nu: seq<real>, y: seq<real>)
    requires d.Valid() && |mu| == |d.I| && |nu| == |d.J| && |y| == |d.J|
    ensures CutRhs(OptimalityCut(d, mu, nu), y) == DualBound(d, y, mu, nu)
  {
    DotTimesSwap(d.capacities, nu, y);
  }

  /** A cut that no feasible facility choice and shipment plan violates:
      `eta` set to the plan's cost always satisfies it. */
  ghost predicate ValidCut(d: Data, cut: Cut)
    requires d.Valid()
  {
    && |cut.coef| == |d.J|
    && forall y, x :: |y| == |d.J| && Feasible(d, y, x) ==> Holds(cut, y, TotalCost(d, x))
  }

  /** Soundness of the optimality cut: built from dual-feasible prices it
      excludes no feasible solution of the original problem. */
  lemma CutSound(d: Data, mu: seq<real>, nu: seq<real>)
    requires d.Valid() && DualFeasible(d, mu, nu)
    ensures ValidCut(d, OptimalityCut(d, mu, nu))
  {
    var cut := OptimalityCut(d, mu, nu);
    forall y, x | |y| == |d.J| && Feasible(d, y, x)
      ensures Holds(cut, y, TotalCost(d, x))
    {
      CutRhsIsDualBound(d, mu, nu, y);
      WeakDuality(d, y, x, mu, nu);
    }
  }

  /** When the subproblem was solved to optimality at the candidate `y`, the
      cut is tight there: its right-hand side is the subproblem's objective. */
  lemma CutTightAtCandidate(d: Data, y: seq<real>, r: SubResult)
    requires d.Valid() && |y| == |d.J|
    requires SolvedToOptimality(d, y, r)
    ensures CutRhs(OptimalityCut(d, r.mu, r.nu), y) == r.obj
  {
    CutRhsIsDualBound(d, r.mu, r.nu, y);
  }

  /** ... so a cut added because `obj > eta` cuts off the candidate
      `(y, eta)`, and only then. */
  lemma CutViolatedByCandidate(d: Data, y: seq<real>, eta: real, r: SubResult)
    requires d.Valid() && |y| == |d.J|
    requires SolvedToOptimality(d, y, r)
    ensures !Holds(OptimalityCut(d, r.mu, r.nu), y, eta) <==> r.obj > eta
  {
    CutTightAtCandidate(d, y, r);
  }

  /** What the callback reads from the solver: `cbGetSolution` of `y` and
      `eta` (MIPSOL), the node status and `cbGetNodeRel` of `y` and `eta`
      (MIPNODE). */
  datatype SolverView = SolverView(
    solutionY: seq<real>,
    solutionEta: real,
    nodeStatus: int,
    nodeRelY: seq<real>,
    nodeRelEta: real)

  /** `solve_subproblem(dat, ·)` hands back one dual per customer and one
      per facility. */
  ghost predicate Shaped(d: Data, solve: seq<real> -> SubResult)
  {
    forall y :: |y| == |d.J| ==> |solve(y).mu| == |d.I| && |solve(y).nu| == |d.J|
  }

  /** A subproblem solve that builds its answer with `SolveResult` from the
      LP's objective and row prices has the shape `Invoke` relies on. */
  lemma ShapedBySolveResult(d: Data, lp: seq<real> -> LpSolution)
    requires forall y :: HasDuals(d, lp(y))
    ensures Shaped(d, y => SolveResult(d, lp(y)))
  {
  }

  /** The duals the subproblem hands back are dual feasible, whatever `y`. */
  ghost predicate DualsFeasible(d: Data, solve: seq<real> -> SubResult)
    requires d.Valid()
  {
    forall y :: |y| == |d.J| ==> DualFeasible(d, solve(y).mu, solve(y).nu)
  }

  class Callback {
    const dat: Data
    /** Optimality cuts added at integer solutions. */
    var numCutsMip: nat
    /** Optimality cuts added at node relaxations. */
    var numCutsRel: nat
    /** The lazy constraints passed to `cbLazy`, oldest first. */
    var cuts: seq<Cut>

    ghost predicate Valid()
      reads this
    {
      && dat.Valid()
      && |cuts| == numCutsMip + numCutsRel
      && forall k :: 0 <= k < |cuts| ==> |cuts[k].coef| == |dat.J|
    }

    /** Every cut in the pool is valid for the original problem. */
    ghost predicate CutsValid()
      reads this`cuts
      requires dat.Valid()
    {
      forall k :: 0 <= k < |cuts| ==> ValidCut(dat, cuts[k])
    }

    constructor (dat: Data)
      requires dat.Valid()
      ensures Valid() && CutsValid()
      ensures this.dat == dat
      ensures numCutsMip == 0 && numCutsRel == 0 && cuts == []
    {
      this.dat := dat;
      numCutsMip := 0;
      numCutsRel := 0;
      cuts := [];
    }

    /** `add_optimality_cut`: hand the cut built from `mu` and `nu` to the
        solver. The counters are the caller's business. */
    method AddOptimalityCut(mu: seq<real>, nu: seq<real>)
      requires dat.Valid() && |mu| == |dat.I| && |nu| == |dat.J|
      modifies this
      ensures cuts == old(cuts) + [OptimalityCut(dat, mu, nu)]
      ensures numCutsMip == old(numCutsMip) && numCutsRel == old(numCutsRel)
      // a cut from dual-feasible prices keeps the pool valid
      ensures old(CutsValid()) && DualFeasible(dat, mu, nu) ==> CutsValid()
    {
      var cut := OptimalityCut(dat, mu, nu);
      if CutsValid() && DualFeasible(dat, mu, nu) {
        CutSound(dat, mu, nu);
        AppendValidCut(dat, cuts, cut);
      }
      cuts := cuts + [cut];
    }

    /** `__call__(mod, where)`, with the solver's answers in `view` and the
        subproblem solve as `solve`. */
    method Invoke(where: int, view: SolverView, solve: seq<real> -> SubResult)
      requires Valid()
      requires Shaped(dat, solve)
      requires where == MIPSOL ==> |view.solutionY| == |dat.J|
      requires where == MIPNODE && view.nodeStatus == OPTIMAL ==> |view.nodeRelY| == |dat.J|
      modifies this
      ensures Valid()
      // a new integer solution: cut and count it iff the subproblem costs more than eta
      ensures where == MIPSOL ==>
                var r := solve(view.solutionY);
                if r.obj > view.solutionEta then
                  && cuts == old(cuts) + [OptimalityCut(dat, r.mu, r.nu)]
                  && numCutsMip == old(numCutsMip) + 1 && numCutsRel == old(numCutsRel)
                else
                  cuts == old(cuts) && numCutsMip == old(numCutsMip) && numCutsRel == old(numCutsRel)
      // a node whose relaxation is not solved to optimality: nothing happens
      ensures where == MIPNODE && view.nodeStatus != OPTIMAL ==>
                cuts == old(cuts) && numCutsMip == old(numCutsMip) && numCutsRel == old(numCutsRel)
      // an optimal node relaxation: the same rule, counted separately
      ensures where == MIPNODE && view.nodeStatus == OPTIMAL ==>
                var r := solve(view.nodeRelY);
                if r.obj > view.nodeRelEta then
                  && cuts == old(cuts) + [OptimalityCut(dat, r.mu, r.nu)]
                  && numCutsRel == old(numCutsRel) + 1 && numCutsMip == old(numCutsMip)
                else
                  cuts == old(cuts) && numCutsMip == old(numCutsMip) && numCutsRel == old(numCutsRel)
      // any other callback code: nothing happens
      ensures where != MIPSOL && where != MIPNODE ==>
                cuts == old(cuts) && numCutsMip == old(numCutsMip) && numCutsRel == old(numCutsRel)
      // the pool only grows, and by at most the one cut one counter records
      ensures old(cuts) <= cuts
      ensures numCutsMip >= old(numCutsMip) && numCutsRel >= old(numCutsRel)
      ensures numCutsMip + numCutsRel <= old(numCutsMip) + old(numCutsRel) + 1
      // with dual-feasible duals, only valid cuts are ever added
      ensures old(CutsValid()) && DualsFeasible(dat, solve) ==> CutsValid()
    {
      if where == MIPSOL {
        var yValues := view.solutionY;
        var etaValue := view.solutionEta;
        var r := solve(yValues);
        if r.obj > etaValue {
          AddOptimalityCut(r.mu, r.nu);
          numCutsMip := numCutsMip + 1;
        }
      } else if where == MIPNODE {
        var status := view.nodeStatus;
        if status != OPTIMAL {
          return;
        }
        var yValues := view.nodeRelY;
        var etaValue := view.nodeRelEta;
        var r := solve(yValues);
        if r.obj > etaValue {
          AddOptimalityCut(r.mu, r.nu);
          numCutsRel := numCutsRel + 1;
        }
      }
    }
  }

  /** A pool of valid cuts stays valid when a valid cut is appended. */
  lemma AppendValidCut(d: Data, before: seq<Cut>, cut: Cut)
    requires d.Valid()
    requires forall k :: 0 <= k < |before| ==> ValidCut(d, before[k])
    requires ValidCut(d, cut)
    ensures forall k :: 0 <= k < |before + [cut]| ==> ValidCut(d, (before + [cut])[k])
  {
    forall k | 0 <= k < |before + [cut]|
      ensures ValidCut(d, (before + [cut])[k])
    {
      if k < |before| {
        assert (before + [cut])[k] == before[k];
      } else {
        assert (before + [cut])[k] == cut;
      }
    }
  }
}
