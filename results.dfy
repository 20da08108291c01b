/**
 * What `runLinearOptimizationModel` does once the solver has finished: on an
 * optimal status it reports the ratio of every path, recomputes the flow of
 * every link from the solution, reports the links at 10 % or more and the
 * average utilisation; on an infeasible status it names the constraints of
 * the irreducible infeasible subsystem; on any other status it reports the
 * status. The solver is a parameter: it is handed the variables, constraints
 * and objective the builder produced and answers with a status, a value per
 * variable and an IIS flag per constraint.
 */
module Results {
  import opened Wrappers
  import opened Dicts
  import opened Network
  import opened LinearProgram
  import opened Optimization

  /** `GRB.OPTIMAL` and `GRB.INFEASIBLE`. */
  const OPTIMAL := 2
  const INFEASIBLE := 3

  /** A link is reported when its utilisation is at least this many percent. */
  const REPORT_THRESHOLD := 10.0

  /** `m.status`, the `.x` of every variable, and the `IISConstr` flag of the i-th constraint. */
  datatype SolverOutcome = SolverOutcome(status: int, value: Assignment, iis: nat -> bool)

  /** What the run reports. */
  datatype Report =
    | Solved(ratios: seq<(string, seq<real>)>, significant: seq<(string, real)>, average: real)
    | Infeasible(conflicting: seq<string>)
    | Ended(status: int)

  // ----- path ratios -----

  /** `path_ratios[sd, pathNum].x * 100` for pathNum = 0 .. count - 1. */
  function PathPercents(x: Assignment, sd: string, count: nat): (r: seq<real>)
    ensures |r| == count
    ensures forall k :: 0 <= k < count ==> r[k] == x(PathRatio(sd, k)) * 100.0
  {
    if count == 0 then [] else PathPercents(x, sd, count - 1) + [x(PathRatio(sd, count - 1)) * 100.0]
  }

  function Total(s: seq<real>): real
  {
    if s == [] then 0.0 else Total(s[..|s| - 1]) + s[|s| - 1]
  }

  lemma TotalSnoc(s: seq<real>, v: real)
    ensures Total(s + [v]) == Total(s) + v
  {
    assert (s + [v])[..|s|] == s;
  }

  /** The ratios of one flow, in percent, add up to 100 times their sum. */
  lemma {:induction false} PathPercentsTotal(x: Assignment, sd: string, count: nat)
    ensures Total(PathPercents(x, sd, count)) == 100.0 * RatioSum(sd, count, x)
  {
    if count > 0 {
      PathPercentsTotal(x, sd, count - 1);
      TotalSnoc(PathPercents(x, sd, count - 1), x(PathRatio(sd, count - 1)) * 100.0);
    }
  }

  /** For each sd of `sds`, in order, the percentages of its paths. */
  function RatioReport(flows: Flows, x: Assignment, sds: seq<string>): (r: seq<(string, seq<real>)>)
    requires forall i :: 0 <= i < |sds| ==> sds[i] in flows.at
    ensures |r| == |sds|
  {
    if sds == [] then []
    else
      var sd := sds[|sds| - 1];
      RatioReport(flows, x, sds[..|sds| - 1]) + [(sd, PathPercents(x, sd, |flows.at[sd]|))]
  }

  /** Entry i of the report is the i-th sd with one percentage per path of it. */
  lemma {:induction false} RatioReportAt(flows: Flows, x: Assignment, sds: seq<string>)
    requires forall i :: 0 <= i < |sds| ==> sds[i] in flows.at
    ensures forall i :: 0 <= i < |sds| ==>
      RatioReport(flows, x, sds)[i] == (sds[i], PathPercents(x, sds[i], |flows.at[sds[i]]|))
  {
    if sds != [] {
      var init := sds[..|sds| - 1];
      RatioReportAt(flows, x, init);
      forall i | 0 <= i < |sds|
        ensures RatioReport(flows, x, sds)[i] == (sds[i], PathPercents(x, sds[i], |flows.at[sds[i]]|))
      {
        if i < |init| {
          assert sds[i] == init[i];
        }
      }
    }
  }

  /** The inner `for pathNum in range(len(flows[sd]))` loop. */
  method ReportPaths(x: Assignment, sd: string, count: nat) returns (percents: seq<real>)
    ensures percents == PathPercents(x, sd, count)
  {
    percents := [];
    var k := 0;
    while k < count
      invariant 0 <= k <= count
      invariant percents == PathPercents(x, sd, k)
    {
      percents := percents + [x(PathRatio(sd, k)) * 100.0];
      k := k + 1;
    }
  }

  /** The outer `for sd in flows` loop. */
  method ReportRatios(flows: Flows, x: Assignment) returns (ratios: seq<(string, seq<real>)>)
    requires Listed(flows)
    ensures ratios == RatioReport(flows, x, flows.keys)
  {
    var sds := flows.keys;
    ratios := [];
    var j := 0;
    while j < |sds|
      invariant 0 <= j <= |sds|
      invariant ratios == RatioReport(flows, x, sds[..j])
    {
      assert sds[..j + 1][..j] == sds[..j];
      var percents := ReportPaths(x, sds[j], |flows.at[sds[j]]|);
      ratios := ratios + [(sds[j], percents)];
      j := j + 1;
    }
    assert sds[..j] == sds;
  }

  /**
   * When every split constraint of a build holds, each reported flow that
   * has a traffic entry has path percentages adding up to 100.
   */
  lemma ReportedSplitsAreWhole(v: Variant, n: NetworkModel, x: Assignment)
    requires Valid(n.flows) && Valid(n.traffic) && UsableLinks(n, n.links.keys)
    requires SatisfiesAll(Formulation(v, n), x)
    ensures forall i :: 0 <= i < |n.flows.keys| && n.flows.keys[i] in n.traffic.at ==>
      Total(RatioReport(n.flows, x, n.flows.keys)[i].1) == 100.0
  {
    var sds := n.flows.keys;
    RatioReportAt(n.flows, x, sds);
    FormulationSplitPart(v, n);
    forall i | 0 <= i < |sds| && sds[i] in n.traffic.at
      ensures Total(RatioReport(n.flows, x, sds)[i].1) == 100.0
    {
      var sd := sds[i];
      var j :| 0 <= j < |n.traffic.keys| && n.traffic.keys[j] == sd;
      assert Holds(Formulation(v, n)[2 * |n.links.keys| + j], x);
      SplitConstraintMeaning(n, sd, x);
      PathPercentsTotal(x, sd, |n.flows.at[sd]|);
    }
  }

  /** The path-ratio variables come first, so their default bounds make every ratio of a flow non-negative. */
  lemma RatiosNonNegative(flows: Flows, rest: seq<Var>, x: Assignment, sd: string)
    requires Valid(flows) && sd in flows.at
    requires WithinDefaultBounds(PathRatioVars(flows) + rest, x)
    ensures forall k :: 0 <= k < |flows.at[sd]| ==> 0.0 <= x(PathRatio(sd, k))
  {
    var ratios := PathRatioVars(flows);
    var vars := ratios + rest;
    PathRatioVarsExact(flows);
    forall k | 0 <= k < |flows.at[sd]| ensures 0.0 <= x(PathRatio(sd, k)) {
      var r := PathRatio(sd, k);
      assert IsSlot(flows, Slot(r.sd, r.pathNum));
      assert r in ratios;
      var i :| 0 <= i < |ratios| && ratios[i] == r;
      assert vars[i] == PathRatio(sd, k);
    }
  }

  /** At a solution, the ratios of every demand key sum to one. */
  lemma SplitHoldsAtSolution(v: Variant, n: NetworkModel, x: Assignment, sd: string)
    requires UsableLinks(n, n.links.keys)
    requires SatisfiesAll(Formulation(v, n), x)
    requires sd in n.traffic.keys
    ensures sd in n.flows.at && RatioSum(sd, |n.flows.at[sd]|, x) == 1.0
  {
    var j :| 0 <= j < |n.traffic.keys| && n.traffic.keys[j] == sd;
    FormulationSplitPart(v, n);
    assert Holds(Formulation(v, n)[2 * |n.links.keys| + j], x);
    SplitConstraintMeaning(n, sd, x);
  }

  /** At a point Gurobi counts as feasible, every path ratio of a demand key lies between 0 and 1. */
  lemma RatiosWithinUnit(v: Variant, n: NetworkModel, x: Assignment, sd: string)
    requires Valid(n.flows) && UsableLinks(n, n.links.keys)
    requires Feasible(PathRatioVars(n.flows) + VariantVars(v, n.links), Formulation(v, n), x)
    requires sd in n.traffic.keys
    ensures sd in n.flows.at
    ensures forall k :: 0 <= k < |n.flows.at[sd]| ==> 0.0 <= x(PathRatio(sd, k)) <= 1.0
  {
    SplitHoldsAtSolution(v, n, x, sd);
    RatiosNonNegative(n.flows, VariantVars(v, n.links), x, sd);
    forall k | 0 <= k < |n.flows.at[sd]| ensures x(PathRatio(sd, k)) <= 1.0 {
      RatioBelowSum(sd, |n.flows.at[sd]|, x, k);
    }
  }

  // ----- link utilisation after the solve -----

  /**
   * `sum(path_ratios[sd, pathNum].x * traffic[sd] if linkTuple in zip(...)
   * else 0 ...)`, the flow the solution puts on the link `pair`.
   */
  function RealizedFlow(pair: (Node, Node), flows: Flows, traffic: Traffic, slots: seq<Slot>, x: Assignment): real
    requires SlotsIn(flows, slots)
  {
    if slots == [] then 0.0
    else
      var s := slots[0];
      var rest := RealizedFlow(pair, flows, traffic, slots[1..], x);
      if OnPath(pair, PathOf(flows, s)) && s.sd in traffic.at then x(RatioVar(s)) * traffic.at[s.sd] + rest else rest
  }

  /** The recomputed flow is the value of the `link_flow` expression the constraints were built from. */
  lemma {:induction false} RealizedFlowIsEval(pair: (Node, Node), flows: Flows, traffic: Traffic, slots: seq<Slot>, x: Assignment)
    requires SlotsIn(flows, slots)
    ensures RealizedFlow(pair, flows, traffic, slots, x) == SumTerms(FlowTerms(pair, flows, traffic, slots), x)
  {
    if slots != [] {
      var s := slots[0];
      var rest := FlowTerms(pair, flows, traffic, slots[1..]);
      RealizedFlowIsEval(pair, flows, traffic, slots[1..], x);
      if OnPath(pair, PathOf(flows, s)) && s.sd in traffic.at {
        var t := Term(traffic.at[s.sd], RatioVar(s));
        assert ([t] + rest)[0] == t && ([t] + rest)[1..] == rest;
      }
    }
  }

  /** `link_flow / links[link]['capacity'] * 100`. */
  function LinkPercent(n: NetworkModel, x: Assignment, key: string): real
    requires LinkUsable(n, key)
  {
    RealizedFlow(SplitLinkKey(key), n.flows, n.traffic, Slots(n.flows), x) / Capacity(n, key) * 100.0
  }

  lemma LinkPercentIsEval(n: NetworkModel, x: Assignment, key: string)
    requires LinkUsable(n, key)
    ensures LinkPercent(n, x, key) == Eval(LinkFlow(n, key), x) / Capacity(n, key) * 100.0
  {
    RealizedFlowIsEval(SplitLinkKey(key), n.flows, n.traffic, Slots(n.flows), x);
  }

  /** The `(link, percent)` lines logged for links at or above the threshold, in link order. */
  function Significant(n: NetworkModel, x: Assignment, keys: seq<string>): seq<(string, real)>
    requires UsableLinks(n, keys)
  {
    if keys == [] then []
    else
      var key := keys[|keys| - 1];
      var init := Significant(n, x, keys[..|keys| - 1]);
      if LinkPercent(n, x, key) >= REPORT_THRESHOLD then init + [(key, LinkPercent(n, x, key))] else init
  }

  /** A link is reported, with its utilisation, exactly when that utilisation reaches the threshold. */
  lemma {:induction false} SignificantExact(n: NetworkModel, x: Assignment, keys: seq<string>)
    requires UsableLinks(n, keys)
    ensures forall e :: e in Significant(n, x, keys) <==>
      e.0 in keys && LinkUsable(n, e.0) && e.1 == LinkPercent(n, x, e.0) && e.1 >= REPORT_THRESHOLD
  {
    if keys != [] {
      var init := keys[..|keys| - 1];
      assert UsableLinks(n, init);
      SignificantExact(n, x, init);
      assert forall k :: k in keys <==> k in init || k == keys[|keys| - 1];
    }
  }

  /** `totalLinkUtil` after the loop, before the division. */
  function TotalPercent(n: NetworkModel, x: Assignment, keys: seq<string>): real
    requires UsableLinks(n, keys)
  {
    if keys == [] then 0.0 else TotalPercent(n, x, keys[..|keys| - 1]) + LinkPercent(n, x, keys[|keys| - 1])
  }

  lemma UsablePrefix(n: NetworkModel, keys: seq<string>, i: nat)
    requires UsableLinks(n, keys) && i <= |keys|
    ensures UsableLinks(n, keys[..i])
  {
    assert forall j :: 0 <= j < i ==> keys[..i][j] == keys[j];
  }

  /** The `for link in links` loop after the solve. */
  method SummariseLinks(n: NetworkModel, x: Assignment) returns (significant: seq<(string, real)>, total: real)
    requires UsableLinks(n, n.links.keys)
    ensures significant == Significant(n, x, n.links.keys)
    ensures total == TotalPercent(n, x, n.links.keys)
  {
    var keys := n.links.keys;
    significant, total := [], 0.0;
    var i := 0;
    while i < |keys|
      invariant 0 <= i <= |keys|
      invariant UsableLinks(n, keys[..i])
      invariant significant == Significant(n, x, keys[..i])
      invariant total == TotalPercent(n, x, keys[..i])
    {
      UsablePrefix(n, keys, i + 1);
      assert keys[..i + 1][..i] == keys[..i];
      var percent := LinkPercent(n, x, keys[i]);
      if percent >= REPORT_THRESHOLD {
        significant := significant + [(keys[i], percent)];
      }
      total := total + percent;
      i := i + 1;
    }
    assert keys[..i] == keys;
  }

  lemma PercentOfBoundedFlow(flow: real, cap: real)
    requires cap > 0.0 && flow <= cap
    ensures flow / cap * 100.0 <= 100.0
  {
    assert flow / cap <= cap / cap;
  }

  /** A link whose capacity constraint holds is at most 100 % utilised. */
  lemma CapacityBoundsPercent(n: NetworkModel, x: Assignment, key: string)
    requires LinkUsable(n, key)
    requires Holds(CapConstraint(n, key), x)
    ensures LinkPercent(n, x, key) <= 100.0
  {
    CapConstraintMeaning(n, key, x);
    LinkPercentIsEval(n, x, key);
    PercentOfBoundedFlow(Eval(LinkFlow(n, key), x), Capacity(n, key));
  }

  /** Under maxUtilization, `util_L` makes `MaxUtilization * 100` an upper bound of the link's percentage. */
  lemma MaxBoundsPercent(n: NetworkModel, x: Assignment, key: string)
    requires LinkUsable(n, key)
    requires Holds(UtilConstraint(MaxUtilization, n, key), x)
    ensures LinkPercent(n, x, key) <= x(MaxUtilizationVar) * 100.0
  {
    UtilConstraintMeaning(MaxUtilization, n, key, x);
    LinkPercentIsEval(n, x, key);
  }

  /** Under the other variants, `util_L` makes `Utilization[L] * 100` the link's percentage. */
  lemma UtilizationIsPercent(v: Variant, n: NetworkModel, x: Assignment, key: string)
    requires v != MaxUtilization && LinkUsable(n, key)
    requires Holds(UtilConstraint(v, n, key), x)
    ensures x(Utilization(key)) * 100.0 == LinkPercent(n, x, key)
  {
    UtilConstraintMeaning(v, n, key, x);
    LinkPercentIsEval(n, x, key);
  }

  /** A sum of percentages each at most `bound`. */
  lemma {:induction false} TotalPercentBounded(n: NetworkModel, x: Assignment, keys: seq<string>, bound: real)
    requires UsableLinks(n, keys)
    requires forall i :: 0 <= i < |keys| ==> LinkPercent(n, x, keys[i]) <= bound
    ensures TotalPercent(n, x, keys) <= |keys| as real * bound
  {
    if keys != [] {
      var init := keys[..|keys| - 1];
      assert UsableLinks(n, init);
      assert forall i :: 0 <= i < |init| ==> init[i] == keys[i];
      TotalPercentBounded(n, x, init, bound);
    }
  }

  lemma AverageBounded(total: real, count: nat, bound: real)
    requires count > 0 && total <= count as real * bound
    ensures total / count as real <= bound
  {
    assert total / count as real <= (count as real * bound) / count as real;
  }

  /**
   * At a solution of the whole formulation every link is at most 100 %
   * utilised, and so is the average.
   */
  lemma SolutionWithinCapacity(v: Variant, n: NetworkModel, x: Assignment)
    requires UsableLinks(n, n.links.keys)
    requires SatisfiesAll(Formulation(v, n), x)
    ensures forall i :: 0 <= i < |n.links.keys| ==> LinkPercent(n, x, n.links.keys[i]) <= 100.0
    ensures |n.links.keys| > 0 ==> TotalPercent(n, x, n.links.keys) / |n.links.keys| as real <= 100.0
  {
    var keys := n.links.keys;
    FormulationLinkPart(v, n);
    forall i | 0 <= i < |keys| ensures LinkPercent(n, x, keys[i]) <= 100.0 {
      assert Holds(Formulation(v, n)[2 * i], x);
      CapacityBoundsPercent(n, x, keys[i]);
    }
    TotalPercentBounded(n, x, keys, 100.0);
    if |keys| > 0 {
      AverageBounded(TotalPercent(n, x, keys), |keys|, 100.0);
    }
  }

  /** At a solution of the maxUtilization formulation the `i`-th link is at most `MaxUtilization * 100` utilised. */
  lemma MaxBoundsLink(n: NetworkModel, x: Assignment, i: nat)
    requires UsableLinks(n, n.links.keys) && i < |n.links.keys|
    requires SatisfiesAll(Formulation(MaxUtilization, n), x)
    ensures LinkPercent(n, x, n.links.keys[i]) <= x(MaxUtilizationVar) * 100.0
  {
    FormulationLinkPart(MaxUtilization, n);
    assert Holds(Formulation(MaxUtilization, n)[2 * i + 1], x);
    MaxBoundsPercent(n, x, n.links.keys[i]);
  }

  /** At a solution of the maxUtilization formulation the average is at most `MaxUtilization * 100`. */
  lemma AverageBelowMax(n: NetworkModel, x: Assignment)
    requires UsableLinks(n, n.links.keys) && |n.links.keys| > 0
    requires SatisfiesAll(Formulation(MaxUtilization, n), x)
    ensures TotalPercent(n, x, n.links.keys) / |n.links.keys| as real <= x(MaxUtilizationVar) * 100.0
  {
    var keys := n.links.keys;
    var bound := x(MaxUtilizationVar) * 100.0;
    forall i | 0 <= i < |keys| ensures LinkPercent(n, x, keys[i]) <= bound {
      MaxBoundsLink(n, x, i);
    }
    TotalPercentBounded(n, x, keys, bound);
    AverageBounded(TotalPercent(n, x, keys), |keys|, bound);
  }

  // ----- the irreducible infeasible subsystem -----

  /** The names of the constraints flagged `IISConstr`, in `getConstrs()` order. */
  function FlaggedNames(cs: seq<Constraint>, iis: nat -> bool): seq<string>
  {
    if cs == [] then []
    else
      var init := FlaggedNames(cs[..|cs| - 1], iis);
      if iis(|cs| - 1) then init + [cs[|cs| - 1].name] else init
  }

  /** A name is reported exactly when some flagged constraint carries it. */
  lemma {:induction false} FlaggedNamesExact(cs: seq<Constraint>, iis: nat -> bool)
    ensures forall name :: name in FlaggedNames(cs, iis) <==>
      exists i :: 0 <= i < |cs| && iis(i) && cs[i].name == name
    ensures |FlaggedNames(cs, iis)| <= |cs|
  {
    if cs != [] {
      var init := cs[..|cs| - 1];
      FlaggedNamesExact(init, iis);
      forall name ensures name in FlaggedNames(cs, iis) <==> exists i :: 0 <= i < |cs| && iis(i) && cs[i].name == name {
        if exists i :: 0 <= i < |cs| && iis(i) && cs[i].name == name {
          var i :| 0 <= i < |cs| && iis(i) && cs[i].name == name;
          if i < |init| {
            assert init[i] == cs[i];
          }
        }
        if exists i :: 0 <= i < |init| && iis(i) && init[i].name == name {
          var i :| 0 <= i < |init| && iis(i) && init[i].name == name;
          assert cs[i] == init[i];
        }
      }
    }
  }

  /** The `for c in m.getConstrs()` loop. */
  method ReportIis(cs: seq<Constraint>, iis: nat -> bool) returns (names: seq<string>)
    ensures names == FlaggedNames(cs, iis)
  {
    names := [];
    var i := 0;
    while i < |cs|
      invariant 0 <= i <= |cs|
      invariant names == FlaggedNames(cs[..i], iis)
    {
      assert cs[..i + 1][..i] == cs[..i];
      if iis(i) {
        names := names + [cs[i].name];
      }
      i := i + 1;
    }
    assert cs[..i] == cs;
  }

  // ----- the run -----

  /** The key that a build over `n` fails on, when a `traffic[sd]` lookup fails. */
  ghost predicate ReportsMissingTraffic(n: NetworkModel, f: Fault)
    requires Listed(n.flows)
  {
    exists i :: FirstUncoveredAt(n, i)
      && f == MissingTraffic(FirstMissing(SplitLinkKey(n.links.keys[i]), n.flows, n.traffic, Slots(n.flows)).value)
  }

  lemma StoppedReportsMissing(v: Variant, n: NetworkModel, constrs: seq<Constraint>, fault: Option<Fault>)
    requires Listed(n.flows) && UsableLinks(n, n.links.keys)
    requires StoppedAtMissingTraffic(v, n, constrs, fault)
    ensures fault.Some? && ReportsMissingTraffic(n, fault.value)
  {
  }

  /** What the run reports for a build that succeeded and a solver outcome. */
  function Outcome(v: Variant, n: NetworkModel, o: SolverOutcome): Result<Report, Fault>
    requires UsableLinks(n, n.links.keys) && Listed(n.flows)
  {
    var keys := n.links.keys;
    if o.status == OPTIMAL then
      if |keys| == 0 then Failure(DivisionByZero)
      else Success(Solved(RatioReport(n.flows, o.value, n.flows.keys),
                          Significant(n, o.value, keys),
                          TotalPercent(n, o.value, keys) / |keys| as real))
    else if o.status == INFEASIBLE then Success(Infeasible(FlaggedNames(Formulation(v, n), o.iis)))
    else Success(Ended(o.status))
  }

  /** The dispatch on `m.status` after `m.optimize()`. */
  method ReportOutcome(v: Variant, n: NetworkModel, constrs: seq<Constraint>, o: SolverOutcome)
    returns (r: Result<Report, Fault>)
    requires UsableLinks(n, n.links.keys) && Listed(n.flows)
    requires constrs == Formulation(v, n)
    ensures r == Outcome(v, n, o)
  {
    var keys := n.links.keys;
    if o.status == OPTIMAL {
      var ratios := ReportRatios(n.flows, o.value);
      var significant, total := SummariseLinks(n, o.value);
      if |keys| == 0 {
        r := Failure(DivisionByZero);
      } else {
        r := Success(Solved(ratios, significant, total / |keys| as real));
      }
    } else if o.status == INFEASIBLE {
      var names := ReportIis(constrs, o.iis);
      r := Success(Infeasible(names));
    } else {
      r := Success(Ended(o.status));
    }
  }

  /**
   * When the solver reports OPTIMAL with values that satisfy every
   * constraint it was given, the report lists only links between 10 % and
   * 100 % and an average of at most 100 %.
   */
  lemma OptimalReportWithinCapacity(v: Variant, n: NetworkModel, o: SolverOutcome)
    requires UsableLinks(n, n.links.keys) && Listed(n.flows) && |n.links.keys| > 0
    requires o.status == OPTIMAL && SatisfiesAll(Formulation(v, n), o.value)
    ensures Outcome(v, n, o).Success? && Outcome(v, n, o).value.Solved?
    ensures forall e :: e in Outcome(v, n, o).value.significant ==> REPORT_THRESHOLD <= e.1 <= 100.0
    ensures Outcome(v, n, o).value.average <= 100.0
  {
    var keys := n.links.keys;
    SolutionWithinCapacity(v, n, o.value);
    SignificantExact(n, o.value, keys);
    forall e | e in Significant(n, o.value, keys) ensures e.1 <= 100.0 {
      var i :| 0 <= i < |keys| && keys[i] == e.0;
    }
  }

  /**
   * When the solver reports OPTIMAL at a point it counts as feasible, every
   * logged path percentage of a demand key lies between 0 and 100.
   */
  lemma ReportedRatiosWithinRange(v: Variant, n: NetworkModel, o: SolverOutcome)
    requires Valid(n.flows) && Valid(n.traffic) && UsableLinks(n, n.links.keys) && |n.links.keys| > 0
    requires o.status == OPTIMAL
    requires Feasible(PathRatioVars(n.flows) + VariantVars(v, n.links), Formulation(v, n), o.value)
    ensures Outcome(v, n, o).Success? && Outcome(v, n, o).value.Solved?
    ensures forall i, k ::
      (0 <= i < |n.flows.keys| && n.flows.keys[i] in n.traffic.at && 0 <= k < |Outcome(v, n, o).value.ratios[i].1|) ==>
        0.0 <= Outcome(v, n, o).value.ratios[i].1[k] <= 100.0
  {
    var sds := n.flows.keys;
    var report := RatioReport(n.flows, o.value, sds);
    RatioReportAt(n.flows, o.value, sds);
    forall i, k | 0 <= i < |sds| && sds[i] in n.traffic.at && 0 <= k < |report[i].1|
      ensures 0.0 <= report[i].1[k] <= 100.0
    {
      RatiosWithinUnit(v, n, o.value, sds[i]);
    }
  }

  /**
   * `runLinearOptimizationModel`: build, solve with `solve`, and report. The
   * solver sees exactly the variables, constraints and objective of the build.
   */
  method RunLinearOptimizationModel(sel: Selector, n: NetworkModel,
                                    solve: (seq<Var>, seq<Constraint>, Objective) -> SolverOutcome)
    returns (r: Result<Report, Fault>)
    requires WellFormed(n)
    ensures sel.Unrecognised? ==> r == Failure(InvalidModel(sel.name))
    ensures sel.Model? && !AllCovered(n) ==> r.Failure? && ReportsMissingTraffic(n, r.error)
    ensures sel.Model? && AllCovered(n) ==>
      var v := sel.variant;
      UsableLinks(n, n.links.keys) &&
      r == Outcome(v, n, solve(PathRatioVars(n.flows) + VariantVars(v, n.links), Formulation(v, n), ObjectiveOf(v, n)))
  {
    WellFormedUsable(n);
    var m, fault := Build(sel, n);
    if fault.Some? {
      r := Failure(fault.value);
      if sel.Model? {
        StoppedReportsMissing(sel.variant, n, m.constrs, fault);
      }
      return;
    }
    var o := solve(m.vars, m.constrs, m.objective.value);
    r := ReportOutcome(sel.variant, n, m.constrs, o);
  }
}
