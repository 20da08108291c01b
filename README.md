# P6 traffic-split optimiser — a Dafny model

P6 works out how the traffic of each source–destination pair (an "sd") should
be split over that pair's candidate paths in a backbone network. This project
models four parts of it.

- **The problem builder** of `runLinearOptimizationModel`:
  - one path-ratio variable per `(sd, pathNum)`;
  - extra variables and an objective for each of the three model variants;
  - a `cap_L` and a `util_L` constraint for every link L, over the sparse
    link-flow expression;
  - a `traffic_split_sd` constraint for every demand key.
- **The interpretation of the solver's answer**: path ratios in percent,
  per-link utilisation recomputed from the solved ratios, the links at 10 % or
  more, the average utilisation, the IIS constraint names for an infeasible
  model, and the bare status otherwise.
- **The input regrouping** of `readFlows`, `readTraffic` and `readLinks`, after
  the CSV files have been read and grouped.
- **The baseline loop of `main`**: reset every link's `totalTraffic`, add each
  flow's traffic times its ratio to the links of its link map, and compute
  `calcLinkUtil`.

Python dictionaries are modelled as `Dicts.Dict`, which pairs an insertion-ordered
key sequence with a map; `Dicts.Valid` says the keys are listed once each and
every mapped key is listed. Gurobi's model object is the class
`LinearProgram.SolverModel`. It holds the variables, the named constraints
(a linear expression, a relation and a right-hand side) and the objective. The
builder's methods append to it. Any real-valued assignment to the variables
can be checked against every constraint exactly (`LinearProgram.Holds`).

The solver is a function parameter of `Results.RunLinearOptimizationModel`. It
receives the variables, constraints and objective the builder produced. It
answers with a status, a value for each variable and an IIS flag for each
constraint. No variable is created with `lb` or `ub`, so each has Gurobi's default bounds: at least 0 and no upper bound. `LinearProgram.WithinDefaultBounds` states these bounds, and `LinearProgram.Feasible` adds them to `SatisfiesAll`. A point Gurobi would return is feasible in this sense. All arithmetic is on exact reals.

The Python function returns nothing: its results are log lines. The model
returns them as a `Results.Report` value:
- `Solved(ratios, significant, average)` on OPTIMAL;
- `Infeasible(names)` on INFEASIBLE;
- `Ended(status)` on any other status.

The exceptions the code can raise are `Optimization.Fault` values:
- `InvalidModel` is the `ValueError` for an unknown model;
- `MissingTraffic(sd)` is the `KeyError` on `traffic[sd]`;
- `DivisionByZero` is the `ZeroDivisionError` on an empty link set.

Modules:
- `wrappers.dfy` (Option, Result);
- `dicts.dfy` (ordered dictionaries);
- `network.dfy` (network data, link keys, the path/link incidence test);
- `linear_program.dfy` (linear expressions, constraints, the solver model);
- `optimization.dfy` (the builder);
- `results.dfy` (result interpretation and the whole run);
- `data.dfy` (input regrouping);
- `baseline.dfy` (the baseline loop of `main`).

The code re-scans every path of every flow for each
link, and the model follows the code: `Optimization.FlowTerms` and
`Results.RealizedFlow` scan the same way. Both give the same coefficients.

Splitting `linkStart + linkEnd` back at position 5 recovers the two names
when `linkStart` has five characters. It also does so when `linkStart` is
shorter and `linkEnd` is empty (`Data.SplitJoinedKey`).

## Model

| member | source | states |
|---|---|---|
| Network.SplitLinkKey | p6/linearOptimization/LinearOptimization.py:77 | `(key[:5], key[5:])` concatenates back to the key, and its first half has `min(len(key), 5)` characters |
| Network.ConsecutivePairs | p6/linearOptimization/LinearOptimization.py:80 | the `zip(path[:-1], path[1:])` of a path has `len(path) - 1` pairs (none for fewer than two nodes), the i-th being `(path[i], path[i+1])` |
| Network.OnPathMeansHop | p6/linearOptimization/LinearOptimization.py:80 | a link's endpoint pair is in the zip iff some `path[i], path[i+1]` equals it; a path of fewer than two nodes contains no link |
| Network.PathSlots | p6/linearOptimization/LinearOptimization.py:61 | `range(len(flows[sd]))` gives exactly the pairs `(sd, 0) … (sd, count-1)` in order |
| Network.Slots | p6/linearOptimization/LinearOptimization.py:61 | every pair the variable generator yields names an existing path |
| Network.SlotsOfExact | p6/linearOptimization/LinearOptimization.py:61 | the generator over a list of sds yields exactly the valid `(sd, pathNum)` pairs of those sds, each once when the sds are distinct |
| Network.SlotsExact | p6/linearOptimization/LinearOptimization.py:61 | over all of `flows`, the generator yields every valid `(sd, pathNum)` pair once and nothing else |
| Optimization.RatioVars | p6/linearOptimization/LinearOptimization.py:61 | one `PathRatios[sd, pathNum]` variable per generated pair, in generator order |
| Optimization.PathRatioVarsExact | p6/linearOptimization/LinearOptimization.py:61 | a variable is a path-ratio variable iff it names an `(sd, pathNum)` with `pathNum < len(flows[sd])`; no variable is created twice |
| Optimization.Build | p6/linearOptimization/LinearOptimization.py:54-98 | unrecognised model: fault `InvalidModel`, only the path-ratio variables created, no objective, no constraint; otherwise the path-ratio variables then the variant's variables and objective, and either exactly `Formulation` or the stop at the first missing traffic key |
| Optimization.AddLinkConstraints | p6/linearOptimization/LinearOptimization.py:76-95 | adds `cap_L`, `util_L` for each link in order and reports no fault iff every link's flow only needs known traffic keys; otherwise stops as `StoppedAtMissingTraffic` says |
| Optimization.AddLinkPair | p6/linearOptimization/LinearOptimization.py:85-95 | one iteration of the link loop extends the constraints by that link's `cap_L` and `util_L`, leaving variables and objective alone |
| Optimization.LinkConstraintsStep | p6/linearOptimization/LinearOptimization.py:76-95 | the constraints of the first i+1 links are those of the first i followed by link i's `cap_L` and `util_L` |
| Optimization.AddSplitConstraints | p6/linearOptimization/LinearOptimization.py:97-98 | appends `traffic_split_sd` for each traffic key, in order, and nothing else |
| Optimization.SplitConstraints | p6/linearOptimization/LinearOptimization.py:97-98 | one split constraint per traffic key, the j-th for the j-th key |
| Optimization.FirstMissingMeaning | p6/linearOptimization/LinearOptimization.py:76-83 | no missing key iff every path crossing the link has its sd in `traffic`; otherwise the reported sd is missing from `traffic` and has a path crossing the link |
| Optimization.FlowTermsExact | p6/linearOptimization/LinearOptimization.py:78-83 | a term is in the link-flow expression iff it is `traffic[sd] × PathRatios[sd, pathNum]` for a path whose hops contain the link's `(key[:5], key[5:])` |
| Optimization.WellFormedUsable | p6/linearOptimization/LinearOptimization.py:76-85 | well-formed input gives every link a capacity and lets every flow be scanned |
| Optimization.LinkConstraintsAt | p6/linearOptimization/LinearOptimization.py:76-95 | the link loop emits 2 constraints per link: position 2i is `cap_L` and 2i+1 is `util_L` of the i-th link |
| Optimization.LinkConstraintsLength | p6/linearOptimization/LinearOptimization.py:76-95 | the link loop emits exactly two constraints per link |
| Optimization.FormulationShape | p6/linearOptimization/LinearOptimization.py:76-98 | exactly `2·len(links) + len(traffic)` constraints, named `cap_L`, `util_L` per link and then `traffic_split_sd` per traffic key, in loop order |
| Optimization.FormulationLinkPart | p6/linearOptimization/LinearOptimization.py:76-95 | positions 2i and 2i+1 of the whole formulation are the i-th link's capacity and utilisation constraints |
| Optimization.FormulationSplitPart | p6/linearOptimization/LinearOptimization.py:97-98 | after the link constraints come the split constraints, the j-th for the j-th traffic key |
| Optimization.UnitTermsSum | p6/linearOptimization/LinearOptimization.py:98 | `path_ratios.sum(sd, '*')` evaluates to the sum of that sd's ratios |
| Optimization.SplitConstraintMeaning | p6/linearOptimization/LinearOptimization.py:97-98 | `traffic_split_sd` holds iff sd has paths and its ratios sum to 1 (a traffic key with no flow gives the unsatisfiable `0 == 1`) |
| Optimization.CapConstraintMeaning | p6/linearOptimization/LinearOptimization.py:85 | `cap_L` holds iff the link's flow is at most its capacity |
| Optimization.UtilConstraintMeaning | p6/linearOptimization/LinearOptimization.py:87-95 | average and squared variants: `util_L` holds iff `Utilization[L] = flow/capacity`; max variant: iff `flow/capacity <= MaxUtilization` |
| Optimization.MaxUtilMeaning | p6/linearOptimization/LinearOptimization.py:91 | under maxUtilization, `util_L` holds iff `link_flow / capacity <= max_utilization` |
| Optimization.EqualUtilMeaning | p6/linearOptimization/LinearOptimization.py:87-93 | under average and squared utilisation, `util_L` holds iff `utilization[L]` is `link_flow / capacity` |
| Results.PathPercents | p6/linearOptimization/LinearOptimization.py:122-123 | one percentage per path of the sd, entry k being `PathRatios[sd, k].x × 100` |
| Results.PathPercentsTotal | p6/linearOptimization/LinearOptimization.py:120-123 | the logged path percentages of an sd add up to 100 × the sum of its ratios |
| Results.RatioReport | p6/linearOptimization/LinearOptimization.py:120-123 | one report entry per sd of `flows` |
| Results.RatioReportAt | p6/linearOptimization/LinearOptimization.py:120-123 | entry i is the i-th sd with `PathRatios[sd, pathNum].x × 100` for each of its paths |
| Results.ReportPaths | p6/linearOptimization/LinearOptimization.py:122-123 | the path loop yields exactly `PathPercents` |
| Results.ReportRatios | p6/linearOptimization/LinearOptimization.py:120-123 | the sd loop yields exactly `RatioReport` over `flows` in order |
| Results.ReportedSplitsAreWhole | p6/linearOptimization/LinearOptimization.py:120-123 | for an assignment satisfying the formulation, the logged percentages of every sd that has traffic add up to 100 |
| Results.RealizedFlowIsEval | p6/linearOptimization/LinearOptimization.py:131-136 | the recomputed `link_flow` equals the constraint's link-flow expression evaluated at the solution: same membership test, same coefficients |
| Results.LinkPercentIsEval | p6/linearOptimization/LinearOptimization.py:131-139 | a link's recomputed utilisation is `Eval(link_flow) / capacity × 100` |
| Results.SignificantExact | p6/linearOptimization/LinearOptimization.py:137-138 | a link is reported individually iff it is one of the links and its utilisation is at least 10 %, with that utilisation |
| Results.SummariseLinks | p6/linearOptimization/LinearOptimization.py:128-139 | the link loop yields exactly the significant links and the sum of all link percentages |
| Results.PercentOfBoundedFlow | p6/linearOptimization/LinearOptimization.py:137-139 | a flow no larger than a positive capacity is at most 100 % of it |
| Results.CapacityBoundsPercent | p6/linearOptimization/LinearOptimization.py:137-139 | when `cap_L` holds, the recomputed utilisation of L is at most 100 % |
| Results.MaxBoundsPercent | p6/linearOptimization/LinearOptimization.py:137-139 | when the max-variant `util_L` holds, the utilisation of L is at most `max_utilization × 100` |
| Results.UtilizationIsPercent | p6/linearOptimization/LinearOptimization.py:137-139 | when the average or squared `util_L` holds, `utilization[L] × 100` is the recomputed utilisation |
| Results.TotalPercentBounded | p6/linearOptimization/LinearOptimization.py:139 | a common bound on every link's percentage bounds their sum by count × bound |
| Results.AverageBounded | p6/linearOptimization/LinearOptimization.py:140 | dividing such a sum by the non-zero count keeps it under the bound |
| Results.SolutionWithinCapacity | p6/linearOptimization/LinearOptimization.py:128-140 | any assignment satisfying the formulation gives each link at most 100 % and, with links present, an average of at most 100 % |
| Results.MaxBoundsLink | p6/linearOptimization/LinearOptimization.py:137-139 | at an assignment satisfying the whole maxUtilization formulation, every link's utilisation is at most `max_utilization × 100` |
| Results.AverageBelowMax | p6/linearOptimization/LinearOptimization.py:128-140 | under maxUtilization a satisfying assignment has an average utilisation of at most `max_utilization × 100` |
| Results.FlaggedNamesExact | p6/linearOptimization/LinearOptimization.py:146-148 | a name is reported iff some constraint with its IIS flag set carries it; no more names than constraints |
| Results.ReportIis | p6/linearOptimization/LinearOptimization.py:146-148 | the constraint loop reports the flagged names in constraint order |
| Results.StoppedReportsMissing | p6/linearOptimization/LinearOptimization.py:79 | a builder stopped by a missing traffic key reports that key |
| Results.ReportOutcome | p6/linearOptimization/LinearOptimization.py:109-150 | the status dispatch: OPTIMAL reports ratios, significant links and the average (or fails on an empty link set), INFEASIBLE reports the IIS names, anything else the status |
| Optimization.RatioSumNonNegative | p6/linearOptimization/LinearOptimization.py:98 | non-negative ratios have a non-negative sum |
| Optimization.RatioBelowSum | p6/linearOptimization/LinearOptimization.py:98 | with non-negative ratios, each ratio is at most the `path_ratios.sum(sd, '*')` total |
| Results.RatiosNonNegative | p6/linearOptimization/LinearOptimization.py:61 | the default lower bound 0 of the `PathRatios` variables makes every path ratio of a flow non-negative |
| Results.SplitHoldsAtSolution | p6/linearOptimization/LinearOptimization.py:97-98 | at a solution, every demand key has paths and its ratios sum to one |
| Results.RatiosWithinUnit | p6/linearOptimization/LinearOptimization.py:61-98 | at a point Gurobi counts as feasible, every path ratio of a demand key lies between 0 and 1 |
| Results.ReportedRatiosWithinRange | p6/linearOptimization/LinearOptimization.py:109-123 | an OPTIMAL answer at a feasible point logs every path percentage of a demand key between 0 and 100 % |
| Results.OptimalReportWithinCapacity | p6/linearOptimization/LinearOptimization.py:109-141 | an OPTIMAL answer whose values satisfy the constraints reports only links between 10 % and 100 %, and an average of at most 100 % |
| Results.RunLinearOptimizationModel | p6/linearOptimization/LinearOptimization.py:30-150 | unknown model: `InvalidModel`; a missing traffic key: that `KeyError`; otherwise the dispatch applied to the solver's answer for exactly the variables (each with the default bounds of `WithinDefaultBounds`), `Formulation` and objective of the variant |
| Data.JoinKey | p6/utils/data.py:32 | `pathStart + pathEnd` (and the link and flow names): the result has both parts in place |
| Data.SplitJoinedKey | p6/utils/data.py:66 | splitting `linkStart + linkEnd` at 5 recovers the pair iff `linkStart` has 5 characters, or fewer with an empty `linkEnd` |
| Data.Split | p6/utils/data.py:36 | `str.split` always yields at least one piece |
| Data.SplitCount | p6/utils/data.py:36 | `split(';')` yields one more piece than there are separators |
| Data.SplitPiecesFree | p6/utils/data.py:36 | no piece contains the separator |
| Data.JoinSplit | p6/utils/data.py:36 | joining the pieces with the separator gives the string back |
| Data.SplitJoin | p6/utils/data.py:36 | splitting a join of separator-free pieces gives the pieces back |
| Data.SplitFree | p6/utils/data.py:36 | a string without the separator splits into itself |
| Data.SplitAfterFree | p6/utils/data.py:36 | splitting `a;b` with `a` separator-free yields `a` followed by the pieces of `b` |
| Data.Strip | p6/utils/data.py:36 | `path[1:-1]` is two characters shorter, or empty for strings shorter than two |
| Data.ParsePathShape | p6/utils/data.py:36 | a parsed path has one node more than its inner `;` count, and no node contains `;` |
| Data.ParseFormattedPath | p6/utils/data.py:36 | parsing a bracketed, `;`-joined node list gives the nodes back |
| Data.ParsePaths | p6/utils/data.py:36 | each path string of a group is parsed, in order |
| Data.GroupPathsValid | p6/utils/data.py:36 | the grouped paths form a well-formed dict: each key listed once, every stored key listed |
| Data.GroupPathsKeys | p6/utils/data.py:36 | the groups are exactly the `(timestamp, pathName)` keys that occur in the rows |
| Data.GroupPathsValues | p6/utils/data.py:36 | each group holds the parsed paths of its rows, in row order |
| Data.NoKeyNoPaths | p6/utils/data.py:36 | a key that occurs in no row collects no paths |
| Data.FirstValuesValid | p6/utils/data.py:99 | the grouped traffic forms a well-formed dict, as `NestedTrafficCount` and the nesting loop require |
| Data.FirstValuesKeys | p6/utils/data.py:99 | the grouped traffic has exactly the `(timestamp, flow)` keys of the rows |
| Data.FirstValuesFirst | p6/utils/data.py:99 | each grouped value is the traffic of the first row with that key |
| Data.NestInPlace | p6/utils/data.py:42-44 | adding `flows[t] = {}` when t is new, then `flows[t][name] = v`, is one nested insertion |
| Data.NestValid | p6/utils/data.py:42-44 | a nested insertion keeps outer and inner dicts well formed |
| Data.NestedIsValid | p6/utils/data.py:39-44 | the nesting loop keeps outer and inner dicts well formed |
| Data.NestedExact | p6/utils/data.py:39-44 | `out[t][name]` exists iff `(t, name)` is a grouped key that passes the filter, and holds that group's value unchanged; t is an outer key iff one of its groups passes |
| Data.NestFlows | p6/utils/data.py:39-44 | the flows loop builds exactly the nesting that keeps the groups with more than one path |
| Data.NestTraffic | p6/utils/data.py:102-106 | the traffic loop builds exactly the nesting of every grouped value |
| Data.NestedTrafficCount | p6/utils/data.py:99-106 | the nested traffic holds as many entries as there are grouped keys |
| Data.IndexLinksSucceeds | p6/utils/data.py:66-68 | with distinct link names the table has one entry per row, in row order, keyed by `linkStart + linkEnd` |
| Data.IndexLinksFails | p6/utils/data.py:67-68 | a repeated link name makes the indexing fail |
| Data.IndexLinksExact | p6/utils/data.py:66-68 | indexing succeeds iff the link names are distinct, and then entry i is row i under its name |
| Baseline.ResetZeroes | p6/main.py:32-33 | after the reset every link is present in the same order with the same endpoints and capacity and zero traffic |
| Baseline.ResetTraffic | p6/main.py:32-33 | the reset loop computes exactly `ResetAll` |
| Baseline.AddKnownLink | p6/main.py:40-42 | a known link gains exactly its share; the key order and every other link are unchanged |
| Baseline.AddNewLink | p6/main.py:43-49 | an unknown link is appended with its start, end, capacity and its share as `totalTraffic`; the other links are unchanged |
| Baseline.AddLinkTotal | p6/main.py:40-49 | after one step, link `key` holds its previous traffic (0 if new) plus the share, and no other link changes |
| Baseline.AddFlowStep | p6/main.py:40-49 | one more link of the flow's link map is one more `AddLink` step with `traffic × trafficRatio` |
| Baseline.AddFlowTraffic | p6/main.py:40-49 | the link-map loop computes exactly `AddFlow` |
| Baseline.AddFlowKeys | p6/main.py:40-49 | after one flow the links are the known ones plus those of its link map |
| Baseline.AddFlowTotals | p6/main.py:40-49 | after one flow every link holds its previous traffic plus `traffic × trafficRatio` if it is in the link map |
| Baseline.TrafficSumAbsent | p6/main.py:35-49 | a link in no flow's link map receives nothing |
| Baseline.OnSomeFlowStep | p6/main.py:35-49 | a link is on one of the first n flows iff it is on one of the first n-1 or on the n-th |
| Baseline.AddFlowsKeys | p6/main.py:35-49 | after a timestamp's flows, the links are the known ones plus those in some flow's link map |
| Baseline.AddFlowsTotals | p6/main.py:35-49 | after a timestamp's flows, every link holds its previous traffic plus the sum of the flows' shares on it |
| Baseline.TimestampTotals | p6/main.py:30-49 | after a timestamp, each link's `totalTraffic` is the sum of `traffic × trafficRatio` over that timestamp's flows whose link map holds it |
| Baseline.AddFlowKeepsKeys | p6/main.py:40-49 | one flow only appends links: the old key order is a prefix of the new |
| Baseline.AddFlowsKeepKeys | p6/main.py:35-49 | a timestamp's flows only append links |
| Baseline.KeysOnlyGrow | p6/main.py:30-49 | across timestamps links are never removed or reordered |
| Baseline.AddLinkKeepsTable | p6/main.py:40-49 | one step keeps the table a dict with positive capacities |
| Baseline.AddFlowKeepsTable | p6/main.py:40-49 | one flow keeps the table a dict with positive capacities |
| Baseline.AddFlowsKeepTable | p6/main.py:35-49 | a timestamp's flows keep the table a dict with positive capacities |
| Baseline.TimestampKeepsTable | p6/main.py:30-49 | a whole timestamp keeps the table a dict with positive capacities |
| Baseline.AfterStep | p6/main.py:30 | the table after i+1 timestamps is one more timestamp applied to the table after i |
| Baseline.LinkUtilExact | p6/main.py:15-21 | `calcLinkUtil` has the keys of `links` in the same order, each mapped to `totalTraffic / capacity × 100` |
| Baseline.CalcLinkUtil | p6/main.py:15-21 | the `util` loop computes exactly `LinkUtil` |
| Baseline.ProcessTimestamp | p6/main.py:30-58 | one timestamp: the table becomes `Timestamp` of the old table, and the utilisation is `calcLinkUtil` of the new one |
| Baseline.RunBaseline | p6/main.py:30-58 | over all timestamps the table ends as `AfterTimestamps`, and the i-th utilisation is `calcLinkUtil` of the table after the first i+1 timestamps |
| LinearProgram.SumTermsConcat | p6/linearOptimization/LinearOptimization.py:78-83 | a `quicksum` over concatenated terms is the sum of the two sums |
| LinearProgram.SumTermsSingle | p6/linearOptimization/LinearOptimization.py:89-93 | a single term evaluates to its coefficient times its variable |
| LinearProgram.ScaleTerms | p6/linearOptimization/LinearOptimization.py:91 | scaling keeps the number of terms |
| LinearProgram.SumTermsScaled | p6/linearOptimization/LinearOptimization.py:91 | scaled terms sum to the factor times the original sum |
| LinearProgram.ScaleEval | p6/linearOptimization/LinearOptimization.py:91 | `link_flow / capacity` evaluates to the value of `link_flow` divided by the capacity |
| LinearProgram.SolverModel.constructor | p6/linearOptimization/LinearOptimization.py:56 | a new model has no variables, constraints or objective |
| LinearProgram.SolverModel.AddVars | p6/linearOptimization/LinearOptimization.py:61-70 | `addVars` appends the variables and changes nothing else |
| LinearProgram.SolverModel.AddConstr | p6/linearOptimization/LinearOptimization.py:85-98 | `addConstr` appends one constraint and changes nothing else |
| LinearProgram.SolverModel.SetObjective | p6/linearOptimization/LinearOptimization.py:65-71 | `setObjective` sets the objective and changes nothing else |

## Left out

- The Gurobi environment, licence options, `.env` loading and `logFile` (LinearOptimization.py:12-19, 54-58): not logic.
- `m.write` of the LP file (LinearOptimization.py:100) and all logging: the logged results are returned as a `Report` instead.
- The solve itself: `m.optimize()` and `computeIIS()` are modelled by the `solve` parameter. The model does not claim that the answer is optimal or that the IIS is irreducible.
- The objective is represented symbolically (a linear sum or a sum of squares). Its optimality is not modelled.
- The per-variant `totalLinkUtil` at LinearOptimization.py:111-119: it is overwritten at line 128 before use. The averageUtilization and squaredUtilization branches (lines 113 and 117) divide by `len(links)` and fail on an empty link set. The maxUtilization branch (line 115) does not divide; there an empty link set fails only at line 140. In every variant `Outcome` reports that failure as `DivisionByZero`.
- The model argument is a `Selector`, either one of the three enum members or any other value. Comparing a plain string with the enum is not modelled.
- pandas CSV and gzip reading, the `groupby` ordering and `first()` skipping missing values, the `sys.exit` error paths, `config.ini`, and `writeDataToFile` (data.py:5-12, 29-31, 47-49, 65, 93, 116-135) are I/O and library code. The regrouping starts from already-read rows in group order.
- The routing helpers `getRoutersHashFromFlow` and `getFlowLinks` (main.py:36-37) are not part of this model. Each flow's link map is an input `flowLinksOf(timestamp, flow)` with positive capacities. The source computes it from the current `links`; the model does not.
- Progress logging and commented-out code in main.py (51-55, 60-106).
- Floating point: every quantity is an exact real, so rounding is not modelled.
- Positive capacities are a precondition (`Network.WellFormed`, `Baseline.PositiveCapacities`). The source divides by a capacity in four places: the averageUtilization objective (LinearOptimization.py:65), the maxUtilization `util_L` constraint (line 91), the OPTIMAL report of each link (line 137) and `calcLinkUtil` (main.py:19). A zero capacity makes each of these divisions fail (a `ZeroDivisionError` at the plain float divisions of line 137 and main.py:19), and the model does not cover that path. The squaredUtilization build (lines 70, 93) only multiplies, and a status other than OPTIMAL is reported without dividing. A zero-capacity squaredUtilization run that does not reach OPTIMAL therefore finishes normally in Python, and `WellFormed` rules that run out of the model too.
- Baseline.ProcessTimestamp: a flow with a non-empty link map and no traffic entry is a precondition (`TrafficKnown`). Python raises `KeyError` there; the model does not cover that path.
- Baseline.RunBaseline: the same `TrafficKnown` precondition holds for every timestamp: each flow with a non-empty link map has a traffic entry. Python raises `KeyError` at main.py:42 or 48 when one does not, and the run stops there; the model does not cover that path.
- Baseline.LinkRecord: every row carries `totalTraffic`. The rows `readLinks` returns have none until the first reset, which sets it before anything reads it.
- Data.IndexLinks: a repeated link name gives `None`. pandas raises an error there and the program exits.
