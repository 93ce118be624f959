/** Programs of SIMPLE whose results are known in integers, whatever the interpreters do to
    get there: a loop that adds up numbers, and an `if` that picks the larger one. */
module SimplePrograms {
  import opened Options
  import opened SimpleSyntax
  import opened SimpleSmallStep
  import opened SimpleBigStep
  import opened SimpleEquivalence
  import opened SimpleTyping

  ghost predicate Holds(env: Env, x: string, n: int) {
    x in env && env[x] == Number(n)
  }

  /** Both interpreters come to this environment. */
  ghost predicate BothEndWith(s: Stmt, env: Env, env': Env) {
    Halts(Config(s, env), env') && EvaluatesTo(s, env, env')
  }

  lemma EndsWith(s: Stmt, env: Env, fuel: nat, env': Env)
    requires Evaluate(s, env, fuel) == Done(env')
    ensures BothEndWith(s, env, env')
  {
    assert EvaluatesTo(s, env, env');
    HaltingAgrees(s, env, env');
  }

  lemma VariableValue(x: string, env: Env, n: int)
    requires Holds(env, x, n)
    ensures Eval(Variable(x), env) == Some(Number(n))
  {
  }

  // ----- while (i < n) { s = s + i; i = i + 1 } -----

  const BELOW: Expr := Binary(LessThan, Variable("i"), Variable("n"))
  const ADD_ON: Stmt := Assign("s", Binary(Add, Variable("s"), Variable("i")))
  const COUNT_ON: Stmt := Assign("i", Binary(Add, Variable("i"), Number(1)))
  const SUM: Stmt := While(BELOW, Sequence(ADD_ON, COUNT_ON))

  ghost predicate Summing(env: Env, i: int, s: int, n: int) {
    Holds(env, "i", i) && Holds(env, "s", s) && Holds(env, "n", n)
  }

  /** The two environments differ in i and s only. */
  ghost predicate SameElsewhere(env: Env, env': Env) {
    env'.Keys == env.Keys && forall x :: x in env && x != "i" && x != "s" ==> env'[x] == env[x]
  }

  lemma BelowValue(env: Env, i: int, s: int, n: int)
    requires Summing(env, i, s, n)
    ensures Eval(BELOW, env) == Some(Boolean(i < n))
  {
    VariableValue("i", env, i);
    VariableValue("n", env, n);
  }

  lemma AddOnValue(env: Env, i: int, s: int, n: int, f: nat)
    requires Summing(env, i, s, n)
    ensures Evaluate(ADD_ON, env, f) == Done(env["s" := Number(s + i)])
  {
    VariableValue("s", env, s);
    VariableValue("i", env, i);
    assert Eval(ADD_ON.expression, env) == Some(Number(s + i));
  }

  lemma CountOnValue(env: Env, i: int, f: nat)
    requires Holds(env, "i", i)
    ensures Evaluate(COUNT_ON, env, f) == Done(env["i" := Number(i + 1)])
  {
    VariableValue("i", env, i);
    assert Eval(COUNT_ON.expression, env) == Some(Number(i + 1));
  }

  lemma BodyValue(env: Env, i: int, s: int, n: int, f: nat)
    requires Summing(env, i, s, n)
    ensures var env' := env["s" := Number(s + i)]["i" := Number(i + 1)];
            Evaluate(SUM.body, env, f) == Done(env') && Summing(env', i + 1, s + i, n) && SameElsewhere(env, env')
  {
    AddOnValue(env, i, s, n, f);
    CountOnValue(env["s" := Number(s + i)], i, f);
  }

  /** From any i <= n the loop adds up i, ..., n - 1. */
  lemma {:induction false} SumFrom(env: Env, i: int, s: int, n: int) returns (env': Env, s': int)
    requires Summing(env, i, s, n) && i <= n
    ensures Evaluate(SUM, env, n - i + 1) == Done(env')
    ensures Summing(env', n, s', n) && SameElsewhere(env, env')
    ensures 2 * (s' - s) == n * (n - 1) - i * (i - 1)
    decreases n - i
  {
    BelowValue(env, i, s, n);
    if i == n {
      env', s' := env, s;
    } else {
      BodyValue(env, i, s, n, n - i);
      var next := env["s" := Number(s + i)]["i" := Number(i + 1)];
      env', s' := SumFrom(next, i + 1, s + i, n);
      assert (i + 1) * i - i * (i - 1) == 2 * i;
    }
  }

  /** For every n >= 0, from i = 0 and s = 0, both interpreters end with i = n and twice s
      being n * (n - 1), and with every other variable as it was. */
  lemma SumIsGauss(env: Env, n: int) returns (env': Env, s: int)
    requires Summing(env, 0, 0, n) && n >= 0
    ensures BothEndWith(SUM, env, env') && Summing(env', n, s, n) && SameElsewhere(env, env')
    ensures 2 * s == n * (n - 1)
  {
    env', s := SumFrom(env, 0, 0, n);
    EndsWith(SUM, env, n + 1, env');
  }

  /** Where there is nothing to add, nothing changes. */
  lemma SumOfNone(env: Env, i: int, s: int, n: int)
    requires Summing(env, i, s, n) && n <= i
    ensures BothEndWith(SUM, env, env)
  {
    BelowValue(env, i, s, n);
    EndsWith(SUM, env, 1, env);
  }

  // ----- if (x < y) { m = y } else { m = x } -----

  const MAX: Stmt :=
    If(Binary(LessThan, Variable("x"), Variable("y")), Assign("m", Variable("y")), Assign("m", Variable("x")))

  /** Both interpreters end with the larger number in m and nothing else changed. */
  lemma MaxIsLarger(env: Env, x: int, y: int)
    requires Holds(env, "x", x) && Holds(env, "y", y)
    ensures BothEndWith(MAX, env, env["m" := Number(if x >= y then x else y)])
  {
    VariableValue("x", env, x);
    VariableValue("y", env, y);
    assert Eval(MAX.condition, env) == Some(Boolean(x < y));
    assert Evaluate(MAX, env, 0) == Done(env["m" := Number(if x >= y then x else y)]);
    EndsWith(MAX, env, 0, env["m" := Number(if x >= y then x else y)]);
  }

  /** The type checker accepts both, so neither interpreter fails on them. */
  lemma BothAreWellTyped(ctx: Context)
    requires forall x :: x in {"i", "s", "n", "x", "y", "m"} ==> x in ctx && ctx[x] == NumberType
    ensures WellTyped(SUM, ctx) && WellTyped(MAX, ctx)
  {
    assert forall x :: x in {"i", "s", "n", "x", "y", "m"} ==> TypeOf(Variable(x), ctx) == Some(NumberType);
    assert WellTyped(ADD_ON, ctx) && WellTyped(COUNT_ON, ctx);
    assert TypeOf(BELOW, ctx) == Some(BooleanType) && TypeOf(MAX.condition, ctx) == Some(BooleanType);
    assert WellTyped(MAX.consequence, ctx) && WellTyped(MAX.alternative, ctx);
  }
}
