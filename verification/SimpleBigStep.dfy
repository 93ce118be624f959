/** The recursive evaluator of big-step.rb. A `while` that keeps calling itself
    has no value, so evaluation takes a bound on how deeply loops may nest their
    recursive calls; `Running` means the bound was too small. */
module SimpleBigStep {
  import opened Options
  import opened SimpleSyntax

  function Eval(e: Expr, env: Env): Option<Value> {
    match e
    case Number(_) => Some(e)
    case Boolean(_) => Some(e)
    case Variable(x) => if x in env then Some(env[x]) else None
    case Binary(op, l, r) =>
      var lv, rv := Eval(l, env), Eval(r, env);
      if lv.None? || rv.None? then None else Apply(op, lv.value, rv.value)
  }

  datatype Outcome = Done(env: Env) | Raised | Running

  function Evaluate(s: Stmt, env: Env, fuel: nat): Outcome
    decreases fuel, s
  {
    match s
    case DoNothing => Done(env)
    case Assign(x, e) =>
      var v := Eval(e, env);
      if v.None? then Raised else Done(env[x := v.value])
    case If(cond, a, b) =>
      var v := Eval(cond, env);
      if v == Some(Boolean(true)) then Evaluate(a, env, fuel)
      else if v == Some(Boolean(false)) then Evaluate(b, env, fuel)
      else Raised
    case Sequence(a, b) =>
      var o := Evaluate(a, env, fuel);
      if o.Done? then Evaluate(b, o.env, fuel) else o
    case While(cond, body) =>
      if fuel == 0 then Running
      else
        var v := Eval(cond, env);
        if v == Some(Boolean(true)) then
          var o := Evaluate(body, env, fuel - 1);
          if o.Done? then Evaluate(s, o.env, fuel - 1) else o
        else if v == Some(Boolean(false)) then Done(env)
        else Raised
  }

  ghost predicate EvaluatesTo(s: Stmt, env: Env, env': Env) {
    exists fuel: nat :: Evaluate(s, env, fuel) == Done(env')
  }

  ghost predicate Raises(s: Stmt, env: Env) {
    exists fuel: nat :: Evaluate(s, env, fuel) == Raised
  }

  ghost predicate NeverReturns(s: Stmt, env: Env) {
    forall fuel: nat :: Evaluate(s, env, fuel) == Running
  }

  /** An answer found with some fuel is found with any larger fuel. */
  lemma {:induction false} FuelMonotone(s: Stmt, env: Env, f: nat, g: nat)
    requires f <= g && Evaluate(s, env, f) != Running
    ensures Evaluate(s, env, g) == Evaluate(s, env, f)
    decreases f, s
  {
    match s
    case DoNothing =>
    case Assign(_, _) =>
    case If(cond, a, b) =>
      if Eval(cond, env) == Some(Boolean(true)) {
        FuelMonotone(a, env, f, g);
      } else if Eval(cond, env) == Some(Boolean(false)) {
        FuelMonotone(b, env, f, g);
      }
    case Sequence(a, b) =>
      FuelMonotone(a, env, f, g);
      var o := Evaluate(a, env, f);
      if o.Done? {
        FuelMonotone(b, o.env, f, g);
      }
    case While(cond, body) =>
      if Eval(cond, env) == Some(Boolean(true)) {
        FuelMonotone(body, env, f - 1, g - 1);
        var o := Evaluate(body, env, f - 1);
        if o.Done? {
          FuelMonotone(s, o.env, f - 1, g - 1);
        }
      }
  }

  /** Operator and variable nodes: the work in an expression. */
  function OpCount(e: Expr): nat {
    match e
    case Number(_) => 0
    case Boolean(_) => 0
    case Variable(_) => 1
    case Binary(_, l, r) => OpCount(l) + OpCount(r) + 1
  }

  /** The number of machine steps that an evaluation stands for. */
  function Cost(s: Stmt, env: Env, fuel: nat): nat
    requires Evaluate(s, env, fuel).Done?
    decreases fuel, s
  {
    match s
    case DoNothing => 0
    case Assign(_, e) => OpCount(e) + 1
    case If(cond, a, b) =>
      OpCount(cond) + 1 +
      (if Eval(cond, env) == Some(Boolean(true)) then Cost(a, env, fuel) else Cost(b, env, fuel))
    case Sequence(a, b) =>
      Cost(a, env, fuel) + 1 + Cost(b, Evaluate(a, env, fuel).env, fuel)
    case While(cond, body) =>
      1 + OpCount(cond) + 1 +
      (if Eval(cond, env) == Some(Boolean(true))
       then Cost(body, env, fuel - 1) + 1 + Cost(s, Evaluate(body, env, fuel - 1).env, fuel - 1)
       else 0)
  }
}
