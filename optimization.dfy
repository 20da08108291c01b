/**
 * The problem builder of `runLinearOptimizationModel`: one path-ratio variable
 * per (sd, pathNum), extra variables and an objective chosen by the model
 * variant, a capacity and a utilisation constraint per link, and a
 * split-sums-to-one constraint per traffic key.
 */
module Optimization {
  import opened Wrappers
  import opened Dicts
  import opened Network
  import opened LinearProgram

  /** `LinearOptimizationModel`. */
  datatype Variant = AverageUtilization | MaxUtilization | SquaredUtilization

  /** The `model` argument: a member of the enumeration, or any other value. */
  datatype Selector = Model(variant: Variant) | Unrecognised(name: string)

  /** The exceptions the optimiser can raise. */
  datatype Fault =
    | InvalidModel(name: string)  // ValueError for an unrecognised model
    | MissingTraffic(sd: string)  // KeyError on traffic[sd]
    | DivisionByZero              // ZeroDivisionError on an empty link set

  ghost predicate SlotsIn(flows: Flows, slots: seq<Slot>)
  {
    forall s :: s in slots ==> IsSlot(flows, s)
  }

  function RatioVar(s: Slot): Var
  {
    PathRatio(s.sd, s.pathNum)
  }

  // ----- variables -----

  function RatioVars(slots: seq<Slot>): (r: seq<Var>)
    ensures |r| == |slots| && forall i :: 0 <= i < |slots| ==> r[i] == RatioVar(slots[i])
  {
    if slots == [] then [] else [RatioVar(slots[0])] + RatioVars(slots[1..])
  }

  /** The `PathRatios` variables, in creation order. */
  function PathRatioVars(flows: Flows): seq<Var>
    requires Listed(flows)
  {
    RatioVars(Slots(flows))
  }

  /** `Utilization[link]` for every link, or the single `MaxUtilization`. */
  function VariantVars(v: Variant, links: Links): seq<Var>
  {
    match v
    case MaxUtilization => [MaxUtilizationVar]
    case _ => seq(|links.keys|, i requires 0 <= i < |links.keys| => Utilization(links.keys[i]))
  }

  function Capacity(n: NetworkModel, key: string): real
    requires key in n.links.at
  {
    n.links.at[key].capacity
  }

  function ObjectiveOf(v: Variant, n: NetworkModel): Objective
    requires UsableLinks(n, n.links.keys)
  {
    var keys := n.links.keys;
    match v
    case AverageUtilization =>
      MinimizeLinear(LinExpr(seq(|keys|, i requires 0 <= i < |keys| => Term(1.0 / Capacity(n, keys[i]), Utilization(keys[i]))), 0.0))
    case MaxUtilization =>
      MinimizeLinear(LinExpr([Term(1.0, MaxUtilizationVar)], 0.0))
    case SquaredUtilization =>
      MinimizeSumOfSquares(seq(|keys|, i requires 0 <= i < |keys| => Utilization(keys[i])))
  }

  // ----- the sparse link-flow expression -----

  /**
   * The first sd, in generator order, whose path crosses the link but which
   * has no traffic entry: the key on which `traffic[sd]` raises.
   */
  function FirstMissing(pair: (Node, Node), flows: Flows, traffic: Traffic, slots: seq<Slot>): Option<string>
    requires SlotsIn(flows, slots)
  {
    if slots == [] then None
    else if OnPath(pair, PathOf(flows, slots[0])) && slots[0].sd !in traffic.at then Some(slots[0].sd)
    else FirstMissing(pair, flows, traffic, slots[1..])
  }

  /**
   * A lookup fails exactly when some slot whose path crosses the link has no
   * traffic entry, and the reported key is such a slot's sd.
   */
  lemma {:induction false} FirstMissingMeaning(pair: (Node, Node), flows: Flows, traffic: Traffic, slots: seq<Slot>)
    requires SlotsIn(flows, slots)
    ensures FirstMissing(pair, flows, traffic, slots) == None <==>
      forall s :: s in slots && OnPath(pair, PathOf(flows, s)) ==> s.sd in traffic.at
    ensures FirstMissing(pair, flows, traffic, slots).Some? ==>
      var sd := FirstMissing(pair, flows, traffic, slots).value;
      sd !in traffic.at && exists s :: s in slots && s.sd == sd && OnPath(pair, PathOf(flows, s))
  {
    if slots != [] {
      FirstMissingMeaning(pair, flows, traffic, slots[1..]);
      assert forall s :: s in slots <==> s == slots[0] || s in slots[1..];
    }
  }

  /**
   * The terms of `quicksum(path_ratios[sd, pathNum] * traffic[sd] if linkTuple
   * in zip(...) else 0 ...)`, in generator order. It is consulted only when
   * `FirstMissing` is `None`, where the `sd in traffic.at` test always holds.
   */
  function FlowTerms(pair: (Node, Node), flows: Flows, traffic: Traffic, slots: seq<Slot>): seq<Term>
    requires SlotsIn(flows, slots)
  {
    if slots == [] then []
    else
      var s := slots[0];
      var rest := FlowTerms(pair, flows, traffic, slots[1..]);
      if OnPath(pair, PathOf(flows, s)) && s.sd in traffic.at then [Term(traffic.at[s.sd], RatioVar(s))] + rest else rest
  }

  /**
   * A slot contributes the term `traffic[sd]·PathRatios[sd, pathNum]` to a
   * link's flow exactly when the link's endpoint pair is one of the hops of
   * the slot's path, and nothing else appears in the flow.
   */
  lemma {:induction false} FlowTermsExact(pair: (Node, Node), flows: Flows, traffic: Traffic, slots: seq<Slot>)
    requires SlotsIn(flows, slots)
    ensures forall t :: t in FlowTerms(pair, flows, traffic, slots) <==>
      exists s :: s in slots && OnPath(pair, PathOf(flows, s)) && s.sd in traffic.at && t == Term(traffic.at[s.sd], RatioVar(s))
  {
    if slots != [] {
      FlowTermsExact(pair, flows, traffic, slots[1..]);
      assert forall s :: s in slots <==> s == slots[0] || s in slots[1..];
    }
  }

  /** No `traffic[sd]` lookup for this link can fail. */
  predicate Covered(n: NetworkModel, key: string)
    requires Listed(n.flows)
  {
    FirstMissing(SplitLinkKey(key), n.flows, n.traffic, Slots(n.flows)) == None
  }

  ghost predicate AllCovered(n: NetworkModel)
    requires Listed(n.flows)
  {
    forall i :: 0 <= i < |n.links.keys| ==> Covered(n, n.links.keys[i])
  }

  /** Link index i is the first whose flow expression raises. */
  ghost predicate FirstUncoveredAt(n: NetworkModel, i: int)
    requires Listed(n.flows)
  {
    && 0 <= i < |n.links.keys|
    && !Covered(n, n.links.keys[i])
    && forall j :: 0 <= j < i ==> Covered(n, n.links.keys[j])
  }

  /** `link_flow` for one link key. */
  function LinkFlow(n: NetworkModel, key: string): LinExpr
    requires Listed(n.flows)
  {
    LinExpr(FlowTerms(SplitLinkKey(key), n.flows, n.traffic, Slots(n.flows)), 0.0)
  }

  // ----- constraints -----

  /** `cap_L`: `link_flow <= capacity`. */
  function CapConstraint(n: NetworkModel, key: string): Constraint
    requires LinkUsable(n, key)
  {
    Constraint("cap_" + key, LinkFlow(n, key), LessEqual, Const(Capacity(n, key)))
  }

  /** `util_L`, whose shape depends on the variant. */
  function UtilConstraint(v: Variant, n: NetworkModel, key: string): Constraint
    requires LinkUsable(n, key)
  {
    var flow, cap := LinkFlow(n, key), Capacity(n, key);
    match v
    case AverageUtilization =>
      Constraint("util_" + key, flow, Equal, LinExpr([Term(cap, Utilization(key))], 0.0))
    case MaxUtilization =>
      Constraint("util_" + key, Scale(flow, 1.0 / cap), LessEqual, LinExpr([Term(1.0, MaxUtilizationVar)], 0.0))
    case SquaredUtilization =>
      Constraint("util_" + key, flow, Equal, LinExpr([Term(cap, Utilization(key))], 0.0))
  }

  /** What building the constraints of one link relies on. */
  ghost predicate LinkUsable(n: NetworkModel, key: string)
  {
    Listed(n.flows) && key in n.links.at && n.links.at[key].capacity > 0.0
  }

  ghost predicate UsableLinks(n: NetworkModel, keys: seq<string>)
  {
    forall i :: 0 <= i < |keys| ==> LinkUsable(n, keys[i])
  }

  /** The constraints the link loop adds for `keys`, in loop order. */
  function LinkConstraints(v: Variant, n: NetworkModel, keys: seq<string>): seq<Constraint>
    requires UsableLinks(n, keys)
  {
    if keys == [] then []
    else
      var key := keys[|keys| - 1];
      LinkConstraints(v, n, keys[..|keys| - 1]) + [CapConstraint(n, key), UtilConstraint(v, n, key)]
  }

  /** `1·PathRatios[sd, 0] + ... + 1·PathRatios[sd, count - 1]`. */
  function UnitTerms(sd: string, count: nat): seq<Term>
  {
    if count == 0 then [] else UnitTerms(sd, count - 1) + [Term(1.0, PathRatio(sd, count - 1))]
  }

  /** `path_ratios.sum(sd, '*')`: empty when sd has no paths. */
  function RatioSumTerms(n: NetworkModel, sd: string): seq<Term>
  {
    if sd in n.flows.at then UnitTerms(sd, |n.flows.at[sd]|) else []
  }

  /** `traffic_split_sd`: the ratios of sd sum to one. */
  function SplitConstraint(n: NetworkModel, sd: string): Constraint
  {
    Constraint("traffic_split_" + sd, LinExpr(RatioSumTerms(n, sd), 0.0), Equal, Const(1.0))
  }

  function SplitConstraints(n: NetworkModel, sds: seq<string>): (r: seq<Constraint>)
    ensures |r| == |sds| && forall j :: 0 <= j < |sds| ==> r[j] == SplitConstraint(n, sds[j])
  {
    if sds == [] then [] else SplitConstraints(n, sds[..|sds| - 1]) + [SplitConstraint(n, sds[|sds| - 1])]
  }

  /** Every constraint of a successful build, in the order the builder adds them. */
  function Formulation(v: Variant, n: NetworkModel): seq<Constraint>
    requires UsableLinks(n, n.links.keys)
  {
    LinkConstraints(v, n, n.links.keys) + SplitConstraints(n, n.traffic.keys)
  }

  // ----- the builder -----

  /**
   * The state the link loop leaves behind when `traffic[sd]` raises: the
   * constraints of the links before the first uncovered one, and the fault
   * naming the missing sd.
   */
  ghost predicate StoppedAtMissingTraffic(v: Variant, n: NetworkModel, constrs: seq<Constraint>, fault: Option<Fault>)
    requires Listed(n.flows) && UsableLinks(n, n.links.keys)
  {
    exists i :: FirstUncoveredAt(n, i) && constrs == LinkConstraints(v, n, n.links.keys[..i])
      && fault == Some(MissingTraffic(FirstMissing(SplitLinkKey(n.links.keys[i]), n.flows, n.traffic, Slots(n.flows)).value))
  }

  /**
   * Creates the path-ratio variables, then dispatches on the variant; for a
   * recognised variant adds its variables, objective and constraints.
   */
  method Build(sel: Selector, n: NetworkModel) returns (m: SolverModel, fault: Option<Fault>)
    requires WellFormed(n)
    ensures fresh(m)
    ensures sel.Unrecognised? ==>
      && fault == Some(InvalidModel(sel.name))
      && m.vars == PathRatioVars(n.flows) && m.objective == None && m.constrs == []
    ensures sel.Model? ==>
      && m.vars == PathRatioVars(n.flows) + VariantVars(sel.variant, n.links)
      && m.objective == Some(ObjectiveOf(sel.variant, n))
    ensures sel.Model? && AllCovered(n) ==>
      fault == None && m.constrs == Formulation(sel.variant, n)
    ensures sel.Model? && !AllCovered(n) ==> StoppedAtMissingTraffic(sel.variant, n, m.constrs, fault)
  {
    WellFormedUsable(n);
    m := new SolverModel();
    m.AddVars(PathRatioVars(n.flows));
    if sel.Unrecognised? {
      fault := Some(InvalidModel(sel.name));
      return;
    }
    var v := sel.variant;
    m.AddVars(VariantVars(v, n.links));
    m.SetObjective(ObjectiveOf(v, n));
    ghost var vars := m.vars;
    assert vars == PathRatioVars(n.flows) + VariantVars(v, n.links);
    fault := AddLinkConstraints(m, v, n);
    if fault == None {
      AddSplitConstraints(m, n);
    }
  }

  /** Every link of a well-formed network can be given its two constraints. */
  lemma WellFormedUsable(n: NetworkModel)
    requires WellFormed(n)
    ensures Listed(n.flows) && UsableLinks(n, n.links.keys)
  {
    forall i | 0 <= i < |n.links.keys|
      ensures LinkUsable(n, n.links.keys[i])
    {
      assert n.links.keys[i] in n.links.at;
    }
  }

  /** The `for link in links` loop: a capacity and a utilisation constraint per link. */
  method AddLinkConstraints(m: SolverModel, v: Variant, n: NetworkModel) returns (fault: Option<Fault>)
    requires Listed(n.flows) && UsableLinks(n, n.links.keys) && m.constrs == []
    modifies m
    ensures m.vars == old(m.vars) && m.objective == old(m.objective)
    ensures fault == None <==> AllCovered(n)
    ensures fault == None ==> m.constrs == LinkConstraints(v, n, n.links.keys)
    ensures fault != None ==> StoppedAtMissingTraffic(v, n, m.constrs, fault)
  {
    var keys := n.links.keys;
    var i := 0;
    while i < |keys|
      invariant 0 <= i <= |keys|
      invariant forall j :: 0 <= j < i ==> Covered(n, keys[j])
      invariant m.constrs == LinkConstraints(v, n, keys[..i])
      invariant m.vars == old(m.vars) && m.objective == old(m.objective)
    {
      var key := keys[i];
      var missing := FirstMissing(SplitLinkKey(key), n.flows, n.traffic, Slots(n.flows));
      if missing.Some? {
        fault := Some(MissingTraffic(missing.value));
        assert !Covered(n, keys[i]);
        assert FirstUncoveredAt(n, i);
        return;
      }
      AddLinkPair(m, v, n, i);
      i := i + 1;
    }
    assert keys[..i] == keys;
    assert AllCovered(n);
    fault := None;
  }

  /** The body of the link loop for a covered link: its capacity, then its utilisation constraint. */
  method AddLinkPair(m: SolverModel, v: Variant, n: NetworkModel, i: nat)
    requires UsableLinks(n, n.links.keys) && i < |n.links.keys|
    requires m.constrs == LinkConstraints(v, n, n.links.keys[..i])
    modifies m
    ensures m.vars == old(m.vars) && m.objective == old(m.objective)
    ensures m.constrs == LinkConstraints(v, n, n.links.keys[..i + 1])
  {
    LinkConstraintsStep(v, n, i);
    var key := n.links.keys[i];
    m.AddConstr(CapConstraint(n, key));
    m.AddConstr(UtilConstraint(v, n, key));
  }

  lemma LinkConstraintsStep(v: Variant, n: NetworkModel, i: nat)
    requires UsableLinks(n, n.links.keys) && i < |n.links.keys|
    ensures UsableLinks(n, n.links.keys[..i]) && UsableLinks(n, n.links.keys[..i + 1])
    ensures LinkConstraints(v, n, n.links.keys[..i + 1])
         == LinkConstraints(v, n, n.links.keys[..i])
            + [CapConstraint(n, n.links.keys[i]), UtilConstraint(v, n, n.links.keys[i])]
  {
    var keys := n.links.keys;
    assert keys[..i + 1][..i] == keys[..i];
  }

  /** The `for sd in traffic` loop: one split constraint per traffic key. */
  method AddSplitConstraints(m: SolverModel, n: NetworkModel)
    modifies m
    ensures m.vars == old(m.vars) && m.objective == old(m.objective)
    ensures m.constrs == old(m.constrs) + SplitConstraints(n, n.traffic.keys)
  {
    var sds := n.traffic.keys;
    var j := 0;
    while j < |sds|
      invariant 0 <= j <= |sds|
      invariant m.constrs == old(m.constrs) + SplitConstraints(n, sds[..j])
      invariant m.vars == old(m.vars) && m.objective == old(m.objective)
    {
      assert sds[..j + 1][..j] == sds[..j];
      m.AddConstr(SplitConstraint(n, sds[j]));
      j := j + 1;
    }
    assert sds[..j] == sds;
  }

  // ----- what the formulation means -----

  /** Exactly one path-ratio variable per (sd, pathNum) of flows, and no other variable. */
  lemma PathRatioVarsExact(flows: Flows)
    requires Valid(flows)
    ensures forall v :: v in PathRatioVars(flows) <==> v.PathRatio? && IsSlot(flows, Slot(v.sd, v.pathNum))
    ensures Distinct(PathRatioVars(flows))
  {
    var slots := Slots(flows);
    var vars := PathRatioVars(flows);
    SlotsExact(flows);
    forall v ensures v in vars <==> v.PathRatio? && IsSlot(flows, Slot(v.sd, v.pathNum)) {
      if v in vars {
        var i :| 0 <= i < |vars| && vars[i] == v;
        assert slots[i] == Slot(v.sd, v.pathNum);
      }
      if v.PathRatio? && IsSlot(flows, Slot(v.sd, v.pathNum)) {
        var i :| 0 <= i < |slots| && slots[i] == Slot(v.sd, v.pathNum);
        assert vars[i] == v;
      }
    }
    forall i, j | 0 <= i < j < |vars| ensures vars[i] != vars[j] {
      assert slots[i] != slots[j];
    }
  }

  lemma {:induction false} LinkConstraintsAt(v: Variant, n: NetworkModel, keys: seq<string>)
    requires UsableLinks(n, keys)
    ensures |LinkConstraints(v, n, keys)| == 2 * |keys|
    ensures forall i :: 0 <= i < |keys| ==>
      && LinkConstraints(v, n, keys)[2 * i] == CapConstraint(n, keys[i])
      && LinkConstraints(v, n, keys)[2 * i + 1] == UtilConstraint(v, n, keys[i])
  {
    if keys != [] {
      var init := keys[..|keys| - 1];
      assert UsableLinks(n, init);
      LinkConstraintsAt(v, n, init);
      forall i | 0 <= i < |keys|
        ensures LinkConstraints(v, n, keys)[2 * i] == CapConstraint(n, keys[i])
        ensures LinkConstraints(v, n, keys)[2 * i + 1] == UtilConstraint(v, n, keys[i])
      {
        if i < |init| {
          assert keys[i] == init[i];
        }
      }
    }
  }

  /**
   * A successful build emits 2·|links| + |traffic| constraints: `cap_L` then
   * `util_L` for each link L in order, then `traffic_split_sd` for each
   * traffic key in order.
   */
  lemma FormulationShape(v: Variant, n: NetworkModel)
    requires UsableLinks(n, n.links.keys)
    ensures |Formulation(v, n)| == 2 * |n.links.keys| + |n.traffic.keys|
    ensures forall i :: 0 <= i < |n.links.keys| ==>
      && Formulation(v, n)[2 * i].name == "cap_" + n.links.keys[i]
      && Formulation(v, n)[2 * i + 1].name == "util_" + n.links.keys[i]
    ensures forall j :: 0 <= j < |n.traffic.keys| ==>
      Formulation(v, n)[2 * |n.links.keys| + j].name == "traffic_split_" + n.traffic.keys[j]
  {
    FormulationLinkPart(v, n);
    FormulationSplitPart(v, n);
  }

  /** The first 2·|links| constraints are `cap_L`, `util_L` for each link L, in order. */
  lemma FormulationLinkPart(v: Variant, n: NetworkModel)
    requires UsableLinks(n, n.links.keys)
    ensures |Formulation(v, n)| == 2 * |n.links.keys| + |n.traffic.keys|
    ensures forall i :: 0 <= i < |n.links.keys| ==>
      && Formulation(v, n)[2 * i] == CapConstraint(n, n.links.keys[i])
      && Formulation(v, n)[2 * i + 1] == UtilConstraint(v, n, n.links.keys[i])
  {
    var keys := n.links.keys;
    var f, links := Formulation(v, n), LinkConstraints(v, n, keys);
    LinkConstraintsAt(v, n, keys);
    forall i | 0 <= i < |keys|
      ensures f[2 * i] == CapConstraint(n, keys[i]) && f[2 * i + 1] == UtilConstraint(v, n, keys[i])
    {
      assert f[2 * i] == links[2 * i] && f[2 * i + 1] == links[2 * i + 1];
    }
  }

  /** The last |traffic| constraints are `traffic_split_sd` for each traffic key, in order. */
  lemma FormulationSplitPart(v: Variant, n: NetworkModel)
    requires UsableLinks(n, n.links.keys)
    ensures forall j :: 0 <= j < |n.traffic.keys| ==>
      && 2 * |n.links.keys| + j < |Formulation(v, n)|
      && Formulation(v, n)[2 * |n.links.keys| + j] == SplitConstraint(n, n.traffic.keys[j])
  {
    var keys, sds := n.links.keys, n.traffic.keys;
    var f, links, splits := Formulation(v, n), LinkConstraints(v, n, keys), SplitConstraints(n, sds);
    LinkConstraintsLength(v, n, keys);
    assert f == links + splits;
    forall j | 0 <= j < |sds| ensures 2 * |keys| + j < |f| && f[2 * |keys| + j] == SplitConstraint(n, sds[j]) {
      assert f[2 * |keys| + j] == splits[j];
    }
  }

  lemma {:induction false} LinkConstraintsLength(v: Variant, n: NetworkModel, keys: seq<string>)
    requires UsableLinks(n, keys)
    ensures |LinkConstraints(v, n, keys)| == 2 * |keys|
  {
    if keys != [] {
      assert UsableLinks(n, keys[..|keys| - 1]);
      LinkConstraintsLength(v, n, keys[..|keys| - 1]);
    }
  }

  lemma {:induction false} UnitTermsSum(sd: string, count: nat, x: Assignment)
    ensures SumTerms(UnitTerms(sd, count), x) == RatioSum(sd, count, x)
  {
    if count > 0 {
      UnitTermsSum(sd, count - 1, x);
      SumTermsConcat(UnitTerms(sd, count - 1), [Term(1.0, PathRatio(sd, count - 1))], x);
    }
  }

  /** `x[sd, 0] + ... + x[sd, count - 1]`. */
  function RatioSum(sd: string, count: nat, x: Assignment): real
  {
    if count == 0 then 0.0 else RatioSum(sd, count - 1, x) + x(PathRatio(sd, count - 1))
  }

  lemma {:induction false} RatioSumNonNegative(sd: string, count: nat, x: Assignment)
    requires forall j :: 0 <= j < count ==> 0.0 <= x(PathRatio(sd, j))
    ensures 0.0 <= RatioSum(sd, count, x)
  {
    if count > 0 {
      RatioSumNonNegative(sd, count - 1, x);
    }
  }

  /** With non-negative ratios, each ratio is at most their sum. */
  lemma {:induction false} RatioBelowSum(sd: string, count: nat, x: Assignment, k: nat)
    requires forall j :: 0 <= j < count ==> 0.0 <= x(PathRatio(sd, j))
    requires k < count
    ensures x(PathRatio(sd, k)) <= RatioSum(sd, count, x)
  {
    RatioSumNonNegative(sd, count - 1, x);
    if k < count - 1 {
      RatioBelowSum(sd, count - 1, x, k);
    }
  }

  /**
   * `traffic_split_sd` holds exactly when sd has paths and their ratios sum to
   * one; a traffic key without paths yields `0 == 1`, which nothing satisfies.
   */
  lemma SplitConstraintMeaning(n: NetworkModel, sd: string, x: Assignment)
    ensures Holds(SplitConstraint(n, sd), x) <==> sd in n.flows.at && RatioSum(sd, |n.flows.at[sd]|, x) == 1.0
  {
    if sd in n.flows.at {
      UnitTermsSum(sd, |n.flows.at[sd]|, x);
    }
  }

  /** `cap_L` holds exactly when the link's flow is at most its capacity. */
  lemma CapConstraintMeaning(n: NetworkModel, key: string, x: Assignment)
    requires LinkUsable(n, key)
    ensures Holds(CapConstraint(n, key), x) <==> Eval(LinkFlow(n, key), x) <= Capacity(n, key)
  {
  }

  /**
   * `util_L` ties the utilisation variable(s) to flow / capacity: equality for
   * the average and squared variants, an upper bound under maxUtilization.
   */
  lemma UtilConstraintMeaning(v: Variant, n: NetworkModel, key: string, x: Assignment)
    requires LinkUsable(n, key)
    ensures v != MaxUtilization ==>
      (Holds(UtilConstraint(v, n, key), x) <==> x(Utilization(key)) == Eval(LinkFlow(n, key), x) / Capacity(n, key))
    ensures v == MaxUtilization ==>
      (Holds(UtilConstraint(v, n, key), x) <==> Eval(LinkFlow(n, key), x) / Capacity(n, key) <= x(MaxUtilizationVar))
  {
    if v == MaxUtilization {
      MaxUtilMeaning(n, key, x);
    } else {
      EqualUtilMeaning(v, n, key, x);
    }
  }

  lemma MaxUtilMeaning(n: NetworkModel, key: string, x: Assignment)
    requires LinkUsable(n, key)
    ensures Holds(UtilConstraint(MaxUtilization, n, key), x) <==> Eval(LinkFlow(n, key), x) / Capacity(n, key) <= x(MaxUtilizationVar)
  {
    BoundMeaning("util_" + key, LinkFlow(n, key), Capacity(n, key), x);
  }

  /** `flow / cap <= u`, written as a scaled row, holds exactly when the quotient is below `u`. */
  lemma BoundMeaning(name: string, flow: LinExpr, cap: real, x: Assignment)
    requires cap > 0.0
    ensures Holds(Constraint(name, Scale(flow, 1.0 / cap), LessEqual, LinExpr([Term(1.0, MaxUtilizationVar)], 0.0)), x)
      <==> Eval(flow, x) / cap <= x(MaxUtilizationVar)
  {
    ScaleEval(flow, 1.0 / cap, x);
    SumTermsSingle(Term(1.0, MaxUtilizationVar), x);
    DivideByPositive(Eval(flow, x), cap);
  }

  lemma EqualUtilMeaning(v: Variant, n: NetworkModel, key: string, x: Assignment)
    requires LinkUsable(n, key) && v != MaxUtilization
    ensures Holds(UtilConstraint(v, n, key), x) <==> x(Utilization(key)) == Eval(LinkFlow(n, key), x) / Capacity(n, key)
  {
    EqualMeaning("util_" + key, LinkFlow(n, key), Capacity(n, key), Utilization(key), x);
  }

  /** `flow == cap × u` holds exactly when `u` is the quotient `flow / cap`. */
  lemma EqualMeaning(name: string, flow: LinExpr, cap: real, u: Var, x: Assignment)
    requires cap > 0.0
    ensures Holds(Constraint(name, flow, Equal, LinExpr([Term(cap, u)], 0.0)), x) <==> x(u) == Eval(flow, x) / cap
  {
    SumTermsSingle(Term(cap, u), x);
    ProductByPositive(Eval(flow, x), cap, x(u));
  }


  lemma DivideByPositive(a: real, c: real)
    requires c > 0.0
    ensures 1.0 / c * a == a / c
  {
  }

  lemma ProductByPositive(a: real, c: real, u: real)
    requires c > 0.0
    ensures a == c * u <==> u == a / c
  {
    if a == c * u {
      assert a / c == (c * u) / c;
    }
  }
}
