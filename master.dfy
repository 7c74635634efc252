/** The master problem of `solve_CFLP` (facility-location/src/master_problem.py):
    binary opening decisions `y` and the subproblem-cost estimate `eta`,
    the objective `Σ_j fixed_costs[j] * y[j] + eta`, the Feasibility row,
    and the lazy optimality cuts the callback adds. */
module Master {
  import opened Sums
  import opened Dataset
  import opened Subproblem
  import opened Callbacks

  predicate IsBinary(v: real)
  {
    v == 0.0 || v == 1.0
  }

  /** One binary `y[j]` per facility and one continuous `eta` with the
      default lower bound 0. */
  predicate Domain(d: Data, y: seq<real>, eta: real)
  {
    && |y| == |d.J|
    && (forall j :: 0 <= j < |y| ==> IsBinary(y[j]))
    && eta >= 0.0
  }

  /** The master objective, minimised. */
  function MasterObjective(d: Data, y: seq<real>, eta: real): real
    requires d.Valid() && |y| == |d.J|
  {
    Dot(d.fixedCosts, y) + eta
  }

  /** The Feasibility row: the open capacity covers the total demand. */
  predicate CapacityCoversDemand(d: Data, y: seq<real>)
    requires d.Valid() && |y| == |d.J|
  {
    Dot(d.capacities, y) >= Sum(d.demands)
  }

  /** A point the master problem with the lazy cuts `cuts` accepts. */
  predicate MasterFeasible(d: Data, cuts: seq<Cut>, y: seq<real>, eta: real)
    requires d.Valid()
  {
    && Domain(d, y, eta)
    && CapacityCoversDemand(d, y)
    && forall k :: 0 <= k < |cuts| ==> |cuts[k].coef| == |y| && Holds(cuts[k], y, eta)
  }

  /** The cost, in the original facility location problem, of opening `y`
      and shipping `x`. */
  function PlanCost(d: Data, y: seq<real>, x: seq<seq<real>>): real
    requires d.Valid() && |y| == |d.J| && IsMatrix(x, |d.I|, |d.J|)
  {
    Dot(d.fixedCosts, y) + TotalCost(d, x)
  }

  /** The Feasibility row is implied: whatever opening admits a feasible
      shipment plan has enough capacity for the total demand, so the row
      cuts off only openings the subproblem would reject. */
  lemma FeasibilityIsValid(d: Data, y: seq<real>, x: seq<seq<real>>)
    requires d.Valid() && |y| == |d.J|
    requires Feasible(d, y, x)
    ensures CapacityCoversDemand(d, y)
  {
    var m := |d.J|;
    SumMono(d.demands, RowSums(x));
    TotalShipped(x, m);
    SumMono(ColumnSums(x, m), Times(d.capacities, y));
    SumTimes(d.capacities, y);
  }

  /** The master problem is a relaxation: an opening with a feasible plan,
      with `eta` set to the plan's cost, satisfies the Feasibility row and
      every valid cut, and its master objective is the plan's true cost. */
  lemma MasterIsRelaxation(d: Data, cuts: seq<Cut>, y: seq<real>, x: seq<seq<real>>)
    requires d.Valid() && |y| == |d.J|
    requires forall j :: 0 <= j < |y| ==> IsBinary(y[j])
    requires forall i, j :: 0 <= i < |d.I| && 0 <= j < |d.J| ==> d.shipmentCosts[i][j] >= 0.0
    requires forall k :: 0 <= k < |cuts| ==> ValidCut(d, cuts[k])
    requires Feasible(d, y, x)
    ensures MasterFeasible(d, cuts, y, TotalCost(d, x))
    ensures MasterObjective(d, y, TotalCost(d, x)) == PlanCost(d, y, x)
  {
    TotalCostNonNegative(d, x);
    FeasibilityIsValid(d, y, x);
  }

  /** Why `MasterIsRelaxation` needs non-negative unit costs: `eta` keeps
      the default lower bound 0, so with one facility, one customer and a
      unit cost of -1, the only feasible opening ships at cost -1 and the
      master rejects `eta` set to that cost. */
  lemma NegativeCostEscapesMaster()
    ensures var d := Data([0], [0], [1.0], [1.0], [0.0], [[-1.0]]);
            && d.Valid()
            && Feasible(d, [1.0], [[1.0]])
            && TotalCost(d, [[1.0]]) == -1.0
            && !MasterFeasible(d, [], [1.0], TotalCost(d, [[1.0]]))
  {
    var d := Data([0], [0], [1.0], [1.0], [0.0], [[-1.0]]);
    assert Range(1) == [0];
    assert Flatten([[1.0]]) == [1.0];
    assert Flatten([[-1.0]]) == [-1.0];
  }

  /** Benders' stopping argument: if `(ys, etas)` minimises the master
      problem over valid cuts, and the subproblem solved at `ys` has an
      objective no greater than `etas` (so the callback adds no cut), then
      opening `ys` and shipping its optimal plan `xs` is optimal for the
      whole facility location problem. */
  lemma NoCutMeansOptimal(d: Data, cuts: seq<Cut>, ys: seq<real>, etas: real, r: SubResult,
                          xs: seq<seq<real>>)
    requires d.Valid() && |ys| == |d.J|
    requires forall i, j :: 0 <= i < |d.I| && 0 <= j < |d.J| ==> d.shipmentCosts[i][j] >= 0.0
    requires forall k :: 0 <= k < |cuts| ==> ValidCut(d, cuts[k])
    requires MasterFeasible(d, cuts, ys, etas)
    requires forall y, eta :: MasterFeasible(d, cuts, y, eta) ==>
               MasterObjective(d, ys, etas) <= MasterObjective(d, y, eta)
    requires SolvedToOptimality(d, ys, r) && !(r.obj > etas)
    requires Optimal(d, ys, xs) && TotalCost(d, xs) == r.obj
    ensures forall y, x :: |y| == |d.J| && (forall j :: 0 <= j < |y| ==> IsBinary(y[j])) && Feasible(d, y, x) ==>
              PlanCost(d, ys, xs) <= PlanCost(d, y, x)
  {
    forall y, x | |y| == |d.J| && (forall j :: 0 <= j < |y| ==> IsBinary(y[j])) && Feasible(d, y, x)
      ensures PlanCost(d, ys, xs) <= PlanCost(d, y, x)
    {
      MasterIsRelaxation(d, cuts, y, x);
    }
  }

  /** `(obj, y_values)` with `y_values = [y[j].X for j in dat.J]`: the value
      of each facility's variable, in facility order. */
  function MasterResult(d: Data, objVal: real, x: map<int, real>): (r: (real, seq<real>))
    requires forall k :: 0 <= k < |d.J| ==> d.J[k] in x
    ensures r.0 == objVal && |r.1| == |d.J|
    ensures forall k :: 0 <= k < |d.J| ==> r.1[k] == x[d.J[k]]
  {
    (objVal, seq(|d.J|, k requires 0 <= k < |d.J| => x[d.J[k]]))
  }
}
