/** Boolean formulas: the expressions the translator hands to its solver.
    Only the five constructors the translator uses are modelled. */
module Exprs {

  datatype Expr =
    | Var(name: string)
    | Not(arg: Expr)
    | And(left: Expr, right: Expr)
    | Or(left: Expr, right: Expr)
    | Xor(left: Expr, right: Expr)

  /** The truth value of a formula under an assignment of its variables. */
  function Eval(e: Expr, env: string -> bool): bool {
    match e
    case Var(n) => env(n)
    case Not(a) => !Eval(a, env)
    case And(a, b) => Eval(a, env) && Eval(b, env)
    case Or(a, b) => Eval(a, env) || Eval(b, env)
    case Xor(a, b) => Eval(a, env) != Eval(b, env)
  }

  /** The variables a formula mentions. */
  function Vars(e: Expr): set<string> {
    match e
    case Var(n) => {n}
    case Not(a) => Vars(a)
    case And(a, b) => Vars(a) + Vars(b)
    case Or(a, b) => Vars(a) + Vars(b)
    case Xor(a, b) => Vars(a) + Vars(b)
  }

  /** A formula's value depends only on the variables it mentions. */
  lemma {:induction false} EvalDependsOnVars(e: Expr, env1: string -> bool, env2: string -> bool)
    requires forall n :: n in Vars(e) ==> env1(n) == env2(n)
    ensures Eval(e, env1) == Eval(e, env2)
  {
    match e
    case Var(n) =>
    case Not(a) =>
      EvalDependsOnVars(a, env1, env2);
    case And(a, b) =>
      EvalDependsOnVars(a, env1, env2);
      EvalDependsOnVars(b, env1, env2);
    case Or(a, b) =>
      EvalDependsOnVars(a, env1, env2);
      EvalDependsOnVars(b, env1, env2);
    case Xor(a, b) =>
      EvalDependsOnVars(a, env1, env2);
      EvalDependsOnVars(b, env1, env2);
  }
}
