/** The transportation subproblem `solve_subproblem` states for a fixed
    choice of open facilities `y` (facility-location/src/sub_problem.py and
    the same formulation in facility-location/sub_problem.py): the LP itself,
    its dual, weak duality, and the shape of the answer handed back. */
module Subproblem {
  import opened Sums
  import opened Dataset

  // ---------------------------------------------------------------------
  // The primal LP
  // ---------------------------------------------------------------------

  /** All rows have the same lengths. */
  predicate SameShape(a: seq<seq<real>>, b: seq<seq<real>>)
  {
    |a| == |b| && forall i :: 0 <= i < |a| ==> |a[i]| == |b[i]|
  }

  /** `x[i][j]`, the amount shipped from facility `j` to customer `i`: one
      continuous variable per pair, with the default lower bound 0. */
  predicate ShipmentDomain(d: Data, x: seq<seq<real>>)
  {
    && IsMatrix(x, |d.I|, |d.J|)
    && forall i, j :: 0 <= i < |d.I| && 0 <= j < |d.J| ==> x[i][j] >= 0.0
  }

  /** Column `j`: what facility `j` sends to each customer. */
  function Column(x: seq<seq<real>>, j: nat): (col: seq<real>)
    requires forall i :: 0 <= i < |x| ==> j < |x[i]|
    ensures |col| == |x|
    ensures forall i :: 0 <= i < |x| ==> col[i] == x[i][j]
  {
    seq(|x|, i requires 0 <= i < |x| => x[i][j])
  }

  /** What each customer receives. */
  function RowSums(x: seq<seq<real>>): (r: seq<real>)
    ensures |r| == |x|
    ensures forall i :: 0 <= i < |x| ==> r[i] == Sum(x[i])
  {
    seq(|x|, i requires 0 <= i < |x| => Sum(x[i]))
  }

  /** What each of the `cols` facilities ships. */
  function ColumnSums(x: seq<seq<real>>, cols: nat): (r: seq<real>)
    requires IsMatrix(x, |x|, cols)
    ensures |r| == cols
    ensures forall j :: 0 <= j < cols ==> r[j] == Sum(Column(x, j))
  {
    seq(cols, j requires 0 <= j < cols => Sum(Column(x, j)))
  }

  /** The demand rows `Σ_j x[i][j] >= demands[i]`. */
  predicate DemandSatisfied(d: Data, x: seq<seq<real>>)
    requires d.Valid() && IsMatrix(x, |d.I|, |d.J|)
  {
    forall i :: 0 <= i < |d.I| ==> Sum(x[i]) >= d.demands[i]
  }

  /** The capacity rows `Σ_i x[i][j] <= capacities[j] * y[j]`. */
  predicate CapacityRespected(d: Data, y: seq<real>, x: seq<seq<real>>)
    requires d.Valid() && |y| == |d.J| && IsMatrix(x, |d.I|, |d.J|)
  {
    forall j :: 0 <= j < |d.J| ==> Sum(Column(x, j)) <= d.capacities[j] * y[j]
  }

  /** A shipment plan the subproblem accepts for the open facilities `y`. */
  predicate Feasible(d: Data, y: seq<real>, x: seq<seq<real>>)
    requires d.Valid() && |y| == |d.J|
  {
    && ShipmentDomain(d, x)
    && DemandSatisfied(d, x)
    && CapacityRespected(d, y, x)
  }

  lemma {:induction false} FlattenSameShape(a: seq<seq<real>>, b: seq<seq<real>>)
    requires SameShape(a, b)
    ensures |Flatten(a)| == |Flatten(b)|
  {
    if |a| > 0 {
      FlattenSameShape(a[1..], b[1..]);
    }
  }

  /** The objective `Σ_{i in I} Σ_{j in J} shipment_costs[i, j] * x[i, j]`,
      summed in the order of the generator: customer by customer. */
  function TotalCost(d: Data, x: seq<seq<real>>): real
    requires d.Valid() && IsMatrix(x, |d.I|, |d.J|)
  {
    FlattenSameShape(d.shipmentCosts, x);
    Dot(Flatten(d.shipmentCosts), Flatten(x))
  }

  /** Cost row by row. */
  function RowCosts(c: seq<seq<real>>, x: seq<seq<real>>): real
    requires SameShape(c, x)
  {
    if |c| == 0 then 0.0 else Dot(c[0], x[0]) + RowCosts(c[1..], x[1..])
  }

  lemma {:induction false} CostByRows(c: seq<seq<real>>, x: seq<seq<real>>)
    requires SameShape(c, x)
    ensures |Flatten(c)| == |Flatten(x)|
    ensures Dot(Flatten(c), Flatten(x)) == RowCosts(c, x)
  {
    FlattenSameShape(c, x);
    if |c| > 0 {
      CostByRows(c[1..], x[1..]);
      DotConcat(c[0], Flatten(c[1..]), x[0], Flatten(x[1..]));
    }
  }

  /** The objective is the sum over customers of what their deliveries cost. */
  lemma TotalCostByRows(d: Data, x: seq<seq<real>>)
    requires d.Valid() && IsMatrix(x, |d.I|, |d.J|)
    ensures TotalCost(d, x) == RowCosts(d.shipmentCosts, x)
  {
    CostByRows(d.shipmentCosts, x);
  }

  /** With non-negative unit costs no plan in the domain costs less than 0. */
  lemma TotalCostNonNegative(d: Data, x: seq<seq<real>>)
    requires d.Valid() && ShipmentDomain(d, x)
    requires forall i, j :: 0 <= i < |d.I| && 0 <= j < |d.J| ==> d.shipmentCosts[i][j] >= 0.0
    ensures TotalCost(d, x) >= 0.0
  {
    var c, f := Flatten(d.shipmentCosts), Flatten(x);
    FlattenNonNegative(d.shipmentCosts);
    FlattenNonNegative(x);
    FlattenSameShape(d.shipmentCosts, x);
    DotNonNegative(c, f);
  }

  lemma {:induction false} FlattenNonNegative(a: seq<seq<real>>)
    requires forall i :: 0 <= i < |a| ==> NonNegative(a[i])
    ensures NonNegative(Flatten(a))
  {
    if |a| > 0 {
      FlattenNonNegative(a[1..]);
      var f := Flatten(a);
      assert f == a[0] + Flatten(a[1..]);
      forall k | 0 <= k < |f| ensures f[k] >= 0.0 {
        if k >= |a[0]| {
          assert f[k] == Flatten(a[1..])[k - |a[0]|];
        }
      }
    }
  }

  /** A closed facility (`y[j] == 0`) ships nothing to anyone. */
  lemma ClosedFacilityShipsNothing(d: Data, y: seq<real>, x: seq<seq<real>>, j: nat)
    requires d.Valid() && |y| == |d.J|
    requires Feasible(d, y, x)
    requires j < |d.J| && y[j] == 0.0
    ensures forall i :: 0 <= i < |d.I| ==> x[i][j] == 0.0
  {
    var col := Column(x, j);
    assert NonNegative(col);
    assert Sum(col) <= d.capacities[j] * y[j] == 0.0;
    SumZeroEntries(col);
  }

  /** Opening more (or raising a fractional `y[j]`) keeps every plan
      feasible, as long as capacities are non-negative. */
  lemma MoreOpenStaysFeasible(d: Data, y: seq<real>, y2: seq<real>, x: seq<seq<real>>)
    requires d.Valid() && |y| == |d.J| && |y2| == |d.J|
    requires NonNegative(d.capacities)
    requires forall j :: 0 <= j < |d.J| ==> y[j] <= y2[j]
    requires Feasible(d, y, x)
    ensures Feasible(d, y2, x)
  {
    forall j | 0 <= j < |d.J|
      ensures d.capacities[j] * y[j] <= d.capacities[j] * y2[j]
    {
      assert d.capacities[j] * (y2[j] - y[j]) >= 0.0;
    }
  }

  // ---------------------------------------------------------------------
  // The dual and weak duality
  // ---------------------------------------------------------------------

  /** Duals of the demand rows (`mu`, one per customer) and the capacity rows
      (`nu`, one per facility), feasible for the dual of the transportation
      LP: a `>=` row of a minimisation has a non-negative price, a `<=` row a
      non-positive one, and no route is priced above its unit cost. */
  predicate DualFeasible(d: Data, mu: seq<real>, nu: seq<real>)
    requires d.Valid()
  {
    && |mu| == |d.I| && |nu| == |d.J|
    && NonNegative(mu) && NonPositive(nu)
    && forall i, j :: 0 <= i < |d.I| && 0 <= j < |d.J| ==> mu[i] + nu[j] <= d.shipmentCosts[i][j]
  }

  /** The dual objective at open facilities `y`:
      `Σ_i demands[i] * mu[i] + Σ_j (capacities[j] * y[j]) * nu[j]`. */
  function DualBound(d: Data, y: seq<real>, mu: seq<real>, nu: seq<real>): real
    requires d.Valid() && |y| == |d.J| && |mu| == |d.I| && |nu| == |d.J|
  {
    Dot(d.demands, mu) + Dot(Times(d.capacities, y), nu)
  }

  /** One customer: priced by `mu_i + nu_j`, the deliveries cost no more
      than at the true unit costs. */
  lemma {:induction false} RowBound(c: seq<real>, x: seq<real>, mui: real, nu: seq<real>)
    requires |c| == |x| == |nu|
    requires NonNegative(x)
    requires forall j :: 0 <= j < |c| ==> mui + nu[j] <= c[j]
    ensures Dot(c, x) >= mui * Sum(x) + Dot(nu, x)
  {
    if |c| > 0 {
      RowBound(c[1..], x[1..], mui, nu[1..]);
      assert (c[0] - mui - nu[0]) * x[0] >= 0.0;
    }
  }

  /** Σ_i Σ_j nu[j] * x[i][j], customer by customer. */
  function NuTerm(nu: seq<real>, x: seq<seq<real>>): real
    requires forall i :: 0 <= i < |x| ==> |x[i]| == |nu|
  {
    if |x| == 0 then 0.0 else Dot(nu, x[0]) + NuTerm(nu, x[1..])
  }

  lemma {:induction false} RowsBound(c: seq<seq<real>>, x: seq<seq<real>>, mu: seq<real>, nu: seq<real>)
    requires SameShape(c, x) && |mu| == |c|
    requires forall i :: 0 <= i < |c| ==> |c[i]| == |nu| && NonNegative(x[i])
    requires forall i, j :: 0 <= i < |c| && 0 <= j < |nu| ==> mu[i] + nu[j] <= c[i][j]
    ensures RowCosts(c, x) >= Dot(mu, RowSums(x)) + NuTerm(nu, x)
  {
    if |c| > 0 {
      RowBound(c[0], x[0], mu[0], nu);
      RowsBound(c[1..], x[1..], mu[1..], nu);
      assert RowSums(x)[1..] == RowSums(x[1..]);
    }
  }

  /** Exchanging the order of summation:
      Σ_i Σ_j nu[j] x[i][j] == Σ_j nu[j] Σ_i x[i][j]. */
  lemma {:induction false} NuTermByColumns(nu: seq<real>, x: seq<seq<real>>)
    requires IsMatrix(x, |x|, |nu|)
    ensures NuTerm(nu, x) == Dot(nu, ColumnSums(x, |nu|))
  {
    var m := |nu|;
    if |x| == 0 {
      assert ColumnSums(x, m) == Zeros(m);
      DotZeros(nu);
      DotComm(nu, Zeros(m));
    } else {
      NuTermByColumns(nu, x[1..]);
      forall j | 0 <= j < m
        ensures ColumnSums(x, m)[j] == x[0][j] + ColumnSums(x[1..], m)[j]
      {
        assert Column(x, j)[1..] == Column(x[1..], j);
      }
      assert ColumnSums(x, m) == Add(x[0], ColumnSums(x[1..], m));
      DotAddRight(nu, x[0], ColumnSums(x[1..], m));
    }
  }

  lemma {:induction false} NuTermOnes(x: seq<seq<real>>, m: nat)
    requires IsMatrix(x, |x|, m)
    ensures NuTerm(seq(m, _ => 1.0), x) == Sum(RowSums(x))
  {
    if |x| > 0 {
      NuTermOnes(x[1..], m);
      SumAsDot(x[0]);
      assert RowSums(x)[1..] == RowSums(x[1..]);
    }
  }

  /** Everything the facilities ship is received by the customers:
      the row sums and the column sums of a plan have the same total. */
  lemma TotalShipped(x: seq<seq<real>>, m: nat)
    requires IsMatrix(x, |x|, m)
    ensures Sum(RowSums(x)) == Sum(ColumnSums(x, m))
  {
    var ones := seq(m, _ => 1.0);
    NuTermOnes(x, m);
    NuTermByColumns(ones, x);
    SumAsDot(ColumnSums(x, m));
  }

  /** Weak duality: every feasible plan costs at least the dual bound of any
      dual-feasible `(mu, nu)`. This is the lower bound the optimality cut
      places on `eta`. */
  lemma WeakDuality(d: Data, y: seq<real>, x: seq<seq<real>>, mu: seq<real>, nu: seq<real>)
    requires d.Valid() && |y| == |d.J|
    requires Feasible(d, y, x)
    requires DualFeasible(d, mu, nu)
    ensures TotalCost(d, x) >= DualBound(d, y, mu, nu)
  {
    var c, m := d.shipmentCosts, |d.J|;
    TotalCostByRows(d, x);
    RowsBound(c, x, mu, nu);
    NuTermByColumns(nu, x);
    DotMonoNonNegative(d.demands, RowSums(x), mu);
    DotComm(mu, RowSums(x));
    DotMonoNonPositive(nu, ColumnSums(x, m), Times(d.capacities, y));
    DotComm(Times(d.capacities, y), nu);
  }

  /** The plan costs no more than any other feasible plan. */
  ghost predicate Optimal(d: Data, y: seq<real>, x: seq<seq<real>>)
    requires d.Valid() && |y| == |d.J|
  {
    && Feasible(d, y, x)
    && forall x2 :: Feasible(d, y, x2) ==> TotalCost(d, x) <= TotalCost(d, x2)
  }

  /** A feasible plan whose cost meets the dual bound of dual-feasible prices
      is optimal: the certificate the solver's `(ObjVal, Pi)` amounts to. */
  lemma DualCertificate(d: Data, y: seq<real>, x: seq<seq<real>>, mu: seq<real>, nu: seq<real>)
    requires d.Valid() && |y| == |d.J|
    requires Feasible(d, y, x) && DualFeasible(d, mu, nu)
    requires TotalCost(d, x) == DualBound(d, y, mu, nu)
    ensures Optimal(d, y, x)
  {
    forall x2 | Feasible(d, y, x2)
      ensures TotalCost(d, x) <= TotalCost(d, x2)
    {
      WeakDuality(d, y, x2, mu, nu);
    }
  }

  // ---------------------------------------------------------------------
  // The answer `solve_subproblem` returns
  // ---------------------------------------------------------------------

  /** What the solver leaves behind after `optimize`: `ObjVal` and the `Pi`
      attribute of each demand and capacity constraint, keyed as the
      constraints were (by customer and by facility). */
  datatype LpSolution = LpSolution(objVal: real, demandPi: map<int, real>, capacityPi: map<int, real>)

  /** `(obj, mu, nu)`. */
  datatype SubResult = SubResult(obj: real, mu: seq<real>, nu: seq<real>)

  /** The constraints exist for every customer and every facility, since
      they were added over `dat.I` and `dat.J`. */
  predicate HasDuals(d: Data, sol: LpSolution)
  {
    && (forall k :: 0 <= k < |d.I| ==> d.I[k] in sol.demandPi)
    && (forall k :: 0 <= k < |d.J| ==> d.J[k] in sol.capacityPi)
  }

  /** `obj = ObjVal; mu = [Pi of demand row i for i in I]; nu = [Pi of
      capacity row j for j in J]`. */
  function SolveResult(d: Data, sol: LpSolution): (r: SubResult)
    requires HasDuals(d, sol)
    ensures r.obj == sol.objVal
    ensures |r.mu| == |d.I| && |r.nu| == |d.J|
    ensures forall k :: 0 <= k < |d.I| ==> r.mu[k] == sol.demandPi[d.I[k]]
    ensures forall k :: 0 <= k < |d.J| ==> r.nu[k] == sol.capacityPi[d.J[k]]
  {
    SubResult(
      sol.objVal,
      seq(|d.I|, k requires 0 <= k < |d.I| => sol.demandPi[d.I[k]]),
      seq(|d.J|, k requires 0 <= k < |d.J| => sol.capacityPi[d.J[k]]))
  }

  /** On a dataset read from a file, `I` and `J` are `0..n` and `0..m`, so
      `mu[i]` is the price of customer `i`'s demand row and `nu[j]` that of
      facility `j`'s capacity row. */
  lemma SolveResultIndexed(d: Data, sol: LpSolution)
    requires d.Valid() && HasDuals(d, sol)
    ensures var r := SolveResult(d, sol);
            && (forall i :: 0 <= i < |d.I| ==> i in sol.demandPi && r.mu[i] == sol.demandPi[i])
            && (forall j :: 0 <= j < |d.J| ==> j in sol.capacityPi && r.nu[j] == sol.capacityPi[j])
  {
    var r := SolveResult(d, sol);
    forall i | 0 <= i < |d.I|
      ensures i in sol.demandPi && r.mu[i] == sol.demandPi[i]
    {
      assert d.I[i] == i;
    }
    forall j | 0 <= j < |d.J|
      ensures j in sol.capacityPi && r.nu[j] == sol.capacityPi[j]
    {
      assert d.J[j] == j;
    }
  }

  /** What a solved subproblem guarantees (LP strong duality, part of the
      solver's contract and not proved here): the duals are feasible, the
      objective equals their dual bound, and an optimal plan attains it. */
  ghost predicate SolvedToOptimality(d: Data, y: seq<real>, r: SubResult)
    requires d.Valid() && |y| == |d.J|
  {
    && DualFeasible(d, r.mu, r.nu)
    && r.obj == DualBound(d, y, r.mu, r.nu)
    && exists x :: Optimal(d, y, x) && TotalCost(d, x) == r.obj
  }

  /** The first two parts of that contract alone already bound the returned
      objective below the cost of every feasible plan: dual-feasible prices
      whose dual bound is the objective make it a lower bound. */
  lemma SolvedObjectiveIsMinimum(d: Data, y: seq<real>, r: SubResult, x: seq<seq<real>>)
    requires d.Valid() && |y| == |d.J|
    requires DualFeasible(d, r.mu, r.nu) && r.obj == DualBound(d, y, r.mu, r.nu)
    requires Feasible(d, y, x)
    ensures r.obj <= TotalCost(d, x)
  {
    WeakDuality(d, y, x, r.mu, r.nu);
  }
}
