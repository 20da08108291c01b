/**
 * The solver side as the optimiser sees it: continuous variables, linear
 * expressions, named constraints and an objective, held by a model object to
 * which the builder appends. Constraints are symbolic, so any assignment of
 * values to variables can be checked against them exactly.
 */
module LinearProgram {
  import opened Wrappers

  /** The variables the optimiser creates: `PathRatios[sd, pathNum]`, `Utilization[link]` and `MaxUtilization`. */
  datatype Var = PathRatio(sd: string, pathNum: nat) | Utilization(link: string) | MaxUtilizationVar

  datatype Term = Term(coef: real, v: Var)

  /** `Σ coef·v + constant`. */
  datatype LinExpr = LinExpr(terms: seq<Term>, constant: real)

  datatype Sense = LessEqual | Equal

  datatype Constraint = Constraint(name: string, lhs: LinExpr, sense: Sense, rhs: LinExpr)

  /** A linear objective, or the sum of squares of some variables; always minimised. */
  datatype Objective = MinimizeLinear(expr: LinExpr) | MinimizeSumOfSquares(squared: seq<Var>)

  /** A value for every variable, as the solver reports it. */
  type Assignment = Var -> real

  function Const(c: real): LinExpr
  {
    LinExpr([], c)
  }

  function SumTerms(ts: seq<Term>, x: Assignment): real
  {
    if ts == [] then 0.0 else ts[0].coef * x(ts[0].v) + SumTerms(ts[1..], x)
  }

  lemma {:induction false} SumTermsConcat(a: seq<Term>, b: seq<Term>, x: Assignment)
    ensures SumTerms(a + b, x) == SumTerms(a, x) + SumTerms(b, x)
  {
    if a == [] {
      assert a + b == b;
    } else {
      assert (a + b)[0] == a[0] && (a + b)[1..] == a[1..] + b;
      SumTermsConcat(a[1..], b, x);
    }
  }

  lemma SumTermsSingle(t: Term, x: Assignment)
    ensures SumTerms([t], x) == t.coef * x(t.v)
  {
    assert [t][1..] == [];
  }

  function Eval(e: LinExpr, x: Assignment): real
  {
    SumTerms(e.terms, x) + e.constant
  }

  function ScaleTerms(ts: seq<Term>, f: real): (r: seq<Term>)
    ensures |r| == |ts|
  {
    if ts == [] then [] else [Term(ts[0].coef * f, ts[0].v)] + ScaleTerms(ts[1..], f)
  }

  /** `e * f`, the expression Gurobi builds for `e / c` with f = 1/c. */
  function Scale(e: LinExpr, f: real): LinExpr
  {
    LinExpr(ScaleTerms(e.terms, f), e.constant * f)
  }

  lemma {:induction false} SumTermsScaled(ts: seq<Term>, f: real, x: Assignment)
    ensures SumTerms(ScaleTerms(ts, f), x) == f * SumTerms(ts, x)
  {
    if ts != [] {
      SumTermsScaled(ts[1..], f, x);
      assert ScaleTerms(ts, f)[1..] == ScaleTerms(ts[1..], f);
      calc {
        SumTerms(ScaleTerms(ts, f), x);
        ts[0].coef * f * x(ts[0].v) + f * SumTerms(ts[1..], x);
        f * (ts[0].coef * x(ts[0].v) + SumTerms(ts[1..], x));
      }
    }
  }

  lemma ScaleEval(e: LinExpr, f: real, x: Assignment)
    ensures Eval(Scale(e, f), x) == f * Eval(e, x)
  {
    SumTermsScaled(e.terms, f, x);
    assert Eval(Scale(e, f), x) == f * SumTerms(e.terms, x) + e.constant * f;
  }

  predicate Holds(c: Constraint, x: Assignment)
  {
    match c.sense
    case LessEqual => Eval(c.lhs, x) <= Eval(c.rhs, x)
    case Equal => Eval(c.lhs, x) == Eval(c.rhs, x)
  }

  ghost predicate SatisfiesAll(cs: seq<Constraint>, x: Assignment)
  {
    forall i :: 0 <= i < |cs| ==> Holds(cs[i], x)
  }

  /**
   * No `addVars`/`addVar` call passes `lb` or `ub`, so every variable has
   * Gurobi's default bounds: at least 0 and no upper bound.
   */
  ghost predicate WithinDefaultBounds(vars: seq<Var>, x: Assignment)
  {
    forall i :: 0 <= i < |vars| ==> 0.0 <= x(vars[i])
  }

  /** A point Gurobi counts as feasible: every variable within its bounds, every constraint satisfied. */
  ghost predicate Feasible(vars: seq<Var>, cs: seq<Constraint>, x: Assignment)
  {
    WithinDefaultBounds(vars, x) && SatisfiesAll(cs, x)
  }

  /**
   * The model object the builder talks to. It only records what it is given:
   * variables and constraints in the order they are added, and the objective.
   */
  class SolverModel {
    var vars: seq<Var>
    var constrs: seq<Constraint>
    var objective: Option<Objective>

    constructor ()
      ensures vars == [] && constrs == [] && objective == None
    {
      vars, constrs, objective := [], [], None;
    }

    /** `addVars` / `addVar`; each new variable gets the bounds that `WithinDefaultBounds` states. */
    method AddVars(vs: seq<Var>)
      modifies this
      ensures vars == old(vars) + vs
      ensures constrs == old(constrs) && objective == old(objective)
    {
      vars := vars + vs;
    }

    /** `addConstr`. */
    method AddConstr(c: Constraint)
      modifies this
      ensures constrs == old(constrs) + [c]
      ensures vars == old(vars) && objective == old(objective)
    {
      constrs := constrs + [c];
    }

    /** `setObjective`. */
    method SetObjective(o: Objective)
      modifies this
      ensures objective == Some(o)
      ensures vars == old(vars) && constrs == old(constrs)
    {
      objective := Some(o);
    }
  }
}
