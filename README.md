# Benders decomposition for the capacitated facility location problem

A Dafny model of the core of a Python/Gurobi implementation of Benders
decomposition for the capacitated facility location problem (CFLP). It
covers four parts:

- **The reader of the dataset file** (`words.dfy`, `dataset.dfy`).
  - `word_reader` splits every line with `str.split()`.
  - `read_dataset` pulls words from that generator. In order it reads the
    facility count `m`, the customer count `n`, `m` interleaved
    (capacity, fixed cost) pairs, `n` demands, and an `m`×`n`
    facility-major cost matrix, which it stores transposed as
    customer-major.
  - The reader is a method over a word cursor (the class `WordStream`). It
    is proved equal to a positional specification `Parse`.
  - `Parse` is shown to accept exactly the well-formed word sequences, to
    place every field at its fixed word position, to ignore trailing words,
    and to round-trip with `Serialize`.
- **The transportation subproblem** `solve_subproblem` (`subproblem.dfy`).
  - It models the LP the code states: non-negative shipments, a demand
    `>=` row per customer, a capacity `<= capacities[j] * y[j]` row per
    facility, and the cost `Σ c[i][j] x[i][j]`.
  - Its dual, weak duality, and the dual certificate of optimality are
    proved.
  - Also modelled: the shape of the `(obj, mu, nu)` answer built from the
    solver's `ObjVal` and `Pi` values.
  - `facility-location/sub_problem.py` states the same formulation line for
    line, so the same members model both files. Some rows below cite one
    file and some the other.
- **The callback** (`callbacks.dfy`). It is a class with the two counters
  and the pool of lazy cuts.
  - On `MIPSOL`, and on `MIPNODE` when the node status is `OPTIMAL`, it
    solves the subproblem at the candidate `y`. It adds the optimality cut
    and bumps the matching counter exactly when `obj > eta`.
  - The cut is `eta >= Σ_i demands[i]·mu[i] + Σ_j capacities[j]·nu[j]·y[j]`.
    It is proved valid for every feasible solution of the CFLP whenever the
    duals are dual feasible.
  - Under the solver's strong-duality contract, the cut is tight at the
    candidate and cuts it off.
- **The master problem** `solve_CFLP` (`master.dfy`).
  - It covers the variable domains, the objective `Σ_j f[j] y[j] + eta` and
    the Feasibility row.
  - The Feasibility row is proved implied by subproblem feasibility.
  - With non-negative unit shipment costs, the master with valid cuts is
    proved a relaxation of the CFLP. The Benders stopping argument follows:
    when the callback adds no cut at a master optimum, that opening is
    optimal.

The formulation itself is stated by definitions that the lemmas below are
about:
- `Subproblem.ShipmentDomain` (the variables `x`,
  `facility-location/src/sub_problem.py:32`);
- `Subproblem.TotalCost` (the objective, line 35);
- `Subproblem.DemandSatisfied` (the Demand rows, lines 39-42);
- `Subproblem.CapacityRespected` (the Capacity rows, lines 45-51);
- `Subproblem.DualFeasible` and `Subproblem.DualBound` (the dual of that LP);
- `Master.Domain` (the variables `y` and `eta`,
  `facility-location/src/master_problem.py:36-37`);
- `Master.MasterObjective` (the objective, line 41);
- `Master.CapacityCoversDemand` (the Feasibility row, lines 47-50);
- `Words.SplitWords` (`line.split()`, `facility-location/src/data.py:19`).

`sums.dfy` holds the finite sums (`Sum`, `Dot`) that the `quicksum`
expressions denote, with the algebra the duality proofs need. All numbers
are exact `real`s.

Where the code and its comments disagree, the model follows the code.

- The comment at `facility-location/src/callbacks.py:110-112` describes the
  capacity term as subtracted. The code at line 114 adds it.
  `Callbacks.CutSound` proves that the cut, with the term added as the
  code does, holds at every feasible opening and plan when the duals follow
  the sign convention of a minimisation (`nu <= 0` on a `<=` row). The
  subtracted form of the comment is not modelled.
- The comment at `facility-location/src/master_problem.py:46` writes the
  Feasibility row with `<=`. The code at line 48 uses `>=`.
- `eta` is created with the solver's default lower bound 0
  (`facility-location/src/master_problem.py:37`). That bound is sound only
  when unit shipment costs are non-negative. `read_dataset` accepts any cost
  (`facility-location/src/data.py:52`). With a negative cost the master can
  cut off the true optimum. `Master.NegativeCostEscapesMaster` shows this
  on a one-facility, one-customer instance with unit cost -1.
- No separate error is raised when total capacity is below total demand.
  `solve_CFLP` only adds the Feasibility row
  (`facility-location/src/master_problem.py:47-50`) and leaves that case to
  the solver, and the model does the same.

## Model

| member | source | states |
|---|---|---|
| `Words.WordReader` | facility-location/src/data.py:16-20 | the generator yields, in order, the words of `line.split()` for every line, and each yielded word is non-empty and free of whitespace |
| `Words.SplitYieldsWords` | facility-location/src/data.py:19 | no word of `split()` is empty or contains a whitespace character |
| `Words.SplitKeepsCharacters` | facility-location/src/data.py:19 | the words of a line, laid end to end, are exactly its non-whitespace characters in order: only whitespace is dropped |
| `Words.SplitSpaced` | facility-location/src/data.py:19 | words are maximal: text made of words separated by non-empty whitespace runs, with any leading whitespace, splits back into exactly those words |
| `Words.WordsOfText` | facility-location/src/data.py:17-20 | when every line but the last ends in its newline, reading line by line yields the words of the whole text |
| `Dataset.WordStream.constructor` | facility-location/src/data.py:33 | a fresh word cursor stands at the first word |
| `Dataset.WordStream.Next` | facility-location/src/data.py:36-37 | `next(word)` hands out the word at the cursor and advances, or signals exhaustion at the end without moving |
| `Dataset.ReadPairs` | facility-location/src/data.py:40-46 | after the counts, `capacities[j]` is word `2+2j` and `fixed_costs[j]` is word `3+2j`; the first non-integral pair word, or running out before word `2+2m`, is the error reported |
| `Dataset.ReadValues` | facility-location/src/data.py:48-53 | a comprehension of `count` calls to `next` yields the next `count` words, or fails when fewer remain |
| `Dataset.ReadDataset` | facility-location/src/data.py:23-78 | the reader returns exactly `Parse(words)`: the same instance on success and the same error otherwise |
| `Dataset.ReadBody` | facility-location/src/data.py:39-78 | with the cursor past the two counts, reading the pairs, the demands and the cost matrix returns exactly `ParseBody`: the instance laid out from the words, or the error at the first word that is missing or not integral |
| `Dataset.FirstNonInteger` | facility-location/src/data.py:42-44 | the first word in a range that `int()` rejects, or the range end when every word there is integral |
| `Dataset.ReshapeAt` | facility-location/src/data.py:51-53 | `reshape(rows, cols)` is row-major: entry `[r][c]` is flat word `r·cols + c` (written `Mul(r, cols) + c`, where `Mul` is multiplication by repeated addition and `MulIsProduct` proves it equal to `r·cols`) |
| `Dataset.Transpose` | facility-location/src/data.py:55 | the transpose has the swapped shape and entry `[c][r]` equals `[r][c]` of the original |
| `Dataset.TransposeTwice` | facility-location/src/data.py:55 | transposing twice gives back the matrix |
| `Dataset.ReshapeFlatten` | facility-location/src/data.py:51-53 | a `rows`×`cols` matrix flattened has `rows·cols` entries and reshapes back to itself |
| `Dataset.FlattenReshape` | facility-location/src/data.py:52-53 | reshaping a flat run and flattening it again gives back the run |
| `Dataset.ParseFields` | facility-location/src/data.py:36-61 | a read instance has `I = 0..n`, `J = 0..m`, `n` demands, `m` capacities and fixed costs and an `n`×`m` cost matrix; the counts are words 0 and 1, `capacities[j]` is word `2+2j`, `fixed_costs[j]` word `3+2j`, `demands[i]` word `2+2m+i`, and the costs are the transposed `m`×`n` reshape of the run after the demands |
| `Dataset.ParseCostAt` | facility-location/src/data.py:50-55 | `shipment_costs[i][j]` is word `2+2m+n+j·n+i`: the file matrix is facility-major and is stored transposed |
| `Dataset.ParseAccepts` | facility-location/src/data.py:33-53 | reading succeeds if and only if both counts are non-negative integers, there are at least `2+2m+n+m·n` words, and every capacity and fixed-cost word is integral; fewer words is a failure |
| `Dataset.ParseErrors` | facility-location/src/data.py:36-53 | running out of words is reported at the end of the words, and an `int()` failure at the first non-integral word read as an integer |
| `Dataset.ParseIgnoresTrailing` | facility-location/src/data.py:33-53 | words after the ones the reader needs do not change the result: a successful read, an `int()` failure and a negative count all stay the same when words are appended |
| `Dataset.ParseSerialize` | facility-location/src/data.py:36-55 | writing a well-dimensioned instance with integral capacities and fixed costs in the file layout and reading it back gives the same instance |
| `Dataset.SerializeParse` | facility-location/src/data.py:36-55 | writing back a read instance reproduces exactly the words the reader consumed |
| `Subproblem.TotalCostByRows` | facility-location/src/sub_problem.py:35-36 | the objective, summed over `i in I for j in J`, equals the sum over customers of the cost of their deliveries |
| `Subproblem.TotalCostNonNegative` | facility-location/sub_problem.py:27-32 | with non-negative unit costs, no plan of non-negative shipments costs less than zero |
| `Subproblem.ClosedFacilityShipsNothing` | facility-location/src/sub_problem.py:45-51 | in a feasible plan a facility with `y[j] = 0` ships nothing to any customer |
| `Subproblem.MoreOpenStaysFeasible` | facility-location/sub_problem.py:44-47 | raising any `y[j]`, fractional or not, keeps every feasible plan feasible when capacities are non-negative |
| `Subproblem.TotalShipped` | facility-location/sub_problem.py:37-47 | the demand-row sums and the capacity-row sums of a plan have the same total |
| `Subproblem.WeakDuality` | facility-location/src/sub_problem.py:32-51 | for `mu >= 0`, `nu <= 0` and `mu[i] + nu[j] <= c[i][j]`, every feasible plan costs at least `Σ d·mu + Σ u·y·nu` |
| `Subproblem.DualCertificate` | facility-location/src/sub_problem.py:54-59 | a feasible plan whose cost equals the dual bound of dual-feasible prices costs no more than any other feasible plan |
| `Subproblem.SolveResult` | facility-location/src/sub_problem.py:57-61 | the result is `(ObjVal, mu, nu)` with one `mu` per customer in `I` order and one `nu` per facility in `J` order, each the `Pi` of that customer's or facility's row |
| `Subproblem.SolveResultIndexed` | facility-location/sub_problem.py:56-62 | on a read dataset, `mu[i]` is the price of customer `i`'s demand row and `nu[j]` that of facility `j`'s capacity row |
| `Subproblem.SolvedObjectiveIsMinimum` | facility-location/sub_problem.py:53-56 | when the returned duals are dual feasible and the objective equals their dual bound (the first two parts of the solver's strong-duality contract), the objective is at most the cost of every feasible plan |
| `Callbacks.OptimalityCut` | facility-location/src/callbacks.py:113-114 | the cut's constant is `Σ_i demands[i]·mu[i]` and it has one coefficient per facility, `capacities[j]·nu[j]` on `y[j]` |
| `Callbacks.CutRhsIsDualBound` | facility-location/src/callbacks.py:110-120 | at every master point `y`, the cut's right-hand side `Σ d·mu + Σ u·nu·y` is the subproblem's dual bound at `y`, with the capacity term added |
| `Callbacks.CutSound` | facility-location/src/callbacks.py:116-120 | a cut built from dual-feasible `(mu, nu)` is satisfied by every feasible opening and plan with `eta` set to the plan's cost |
| `Callbacks.CutTightAtCandidate` | facility-location/src/callbacks.py:57-62 | when the subproblem was solved to optimality at the candidate, the cut's right-hand side there is the subproblem objective |
| `Callbacks.CutViolatedByCandidate` | facility-location/src/callbacks.py:59-62 | the cut cuts off the candidate `(y, eta)` if and only if `obj > eta`, the condition under which it is added |
| `Callbacks.ShapedBySolveResult` | facility-location/src/sub_problem.py:57-61 | a subproblem solve that returns `(ObjVal, mu, nu)` built from the LP's row prices has one `mu` per customer and one `nu` per facility, the shape `Callback.Invoke` requires of its `solve` |
| `Callbacks.Callback.constructor` | facility-location/src/callbacks.py:20-35 | a new callback has both counters at 0 and no cuts |
| `Callbacks.Callback.AddOptimalityCut` | facility-location/src/callbacks.py:94-120 | the cut built from `mu` and `nu` is appended to the lazy constraints and nothing else changes; when `(mu, nu)` are dual feasible, a pool holding only valid cuts still holds only valid cuts |
| `Callbacks.Callback.Invoke` | facility-location/src/callbacks.py:37-92 | MIPSOL: cut and bump `num_cuts_mip` iff `obj > eta`; MIPNODE with non-OPTIMAL status or any other code: no change; optimal MIPNODE: cut and bump `num_cuts_rel` iff `obj > eta`; the pool only grows, its length stays the sum of the counters, and with dual-feasible duals it holds only valid cuts |
| `Master.FeasibilityIsValid` | facility-location/src/master_problem.py:44-50 | any opening with a feasible shipment plan satisfies `Σ u[j] y[j] >= Σ d[i]`, so the row excludes only openings the subproblem rejects |
| `Master.MasterIsRelaxation` | facility-location/src/master_problem.py:36-50 | with non-negative unit shipment costs, a binary opening with a feasible plan, with `eta` set to the plan's cost, meets the domains, the Feasibility row and every valid cut, and its master objective `Σ f y + eta` is its true cost |
| `Master.NoCutMeansOptimal` | facility-location/src/master_problem.py:53-62 | with non-negative unit shipment costs, an optimum of the master over valid cuts at which the callback adds no cut (`obj <= eta`) gives an opening and plan optimal for the whole problem |
| `Master.NegativeCostEscapesMaster` | facility-location/src/master_problem.py:37 | with `eta >= 0` and a unit cost of -1, a feasible opening and plan costing -1 violate the master's domain for `eta`, so the relaxation needs non-negative costs |
| `Master.MasterResult` | facility-location/src/master_problem.py:62-67 | the result is `(ObjVal, y_values)` with `y_values[k]` the value of facility `J[k]`'s variable, so it has `|J|` entries |

## Left out

- The Gurobi solver is left out: `optimize`, branch and bound, `ObjVal`,
  `Pi`, `X`, `cbGetSolution`, `cbGetNodeRel`, `cbGet` and `cbLazy` as a
  mechanism.
  - The subproblem solve is the parameter `solve` of `Callback.Invoke`, and
    what the solver reads back is the datatype `SolverView` or
    `LpSolution`.
  - LP strong duality is the stated assumption `SolvedToOptimality`, which
    is not proved.
  - Which master point the solver finally returns is not modelled either.
    `Master.NoCutMeansOptimal` takes its optimality as a hypothesis.
- Solver parameters are left out. These are `OutputFlag` and
  `LazyConstraints` (`master_problem.py:16`), including the fact that lazy
  constraints are enabled before `optimize` runs with the callback.
- `int()`/`float()` conversion of words is left out. The reader takes the
  words as numbers that are already converted. The only thing kept is
  whether `int()` accepts a value, which the model takes to mean the value
  is integral. So a word such as `3.0`, which `int()` rejects as a string,
  is not told apart from `3`.
- Opening the file and Python's newline translation are left out. The
  tokenizer takes the file as its sequence of lines, each with its line end.
- Console output is left out: the prints in `read_dataset` and the
  root-node message in the callback. They do not affect any result.
- The MIPNODE node count is left out, because it is read only for that
  message.
- The conversion to numpy arrays is left out. The values are exact reals,
  so floating-point rounding and 64-bit numpy integer limits are ignored.
- Random instance generation (`facility-location/data.py`,
  `facility-location/src/data_random.py`) and the two `main.py` files are
  left out. They are not part of the modelled core.
- Concurrency is left out. The solver calls the callback one event at a
  time.
- `Callbacks.Callback.Invoke`: a failed subproblem solve is not modelled. The
  parameter `solve` is a total function and always gives `(obj, mu, nu)`.
  In the code, `solve_subproblem` reads `ObjVal` and `Pi`
  (`facility-location/src/sub_problem.py:57-59`). On an infeasible or not
  optimally solved LP those reads raise. The exception then leaves
  `__call__` (`facility-location/src/callbacks.py:57`, `:86`) without a
  cut or a counter change.
- `Master.MasterIsRelaxation`: stated only for non-negative unit shipment
  costs, since for negative costs the code's master is not a relaxation
  (see `Master.NegativeCostEscapesMaster`); `Master.NoCutMeansOptimal`
  carries the same hypothesis.
- `Dataset.Parse`: when a count is negative, the model stops with
  `NegativeCount`. The Python code carries on with an empty `range` and
  numpy's handling of negative reshape sizes, and may return an instance
  or raise.
- `Dataset.ReadDataset`: negative counts are rejected in the same way as in
  `Dataset.Parse`.
