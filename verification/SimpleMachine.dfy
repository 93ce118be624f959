/** The Machine object of simple-step.rb and the sample program it is given. */
module SimpleMachine {
  import opened Options
  import opened SimpleSyntax
  import opened SimpleSmallStep
  import opened SimpleBigStep
  import opened SimpleEquivalence

  /** Reducing the expression puts nil in the place of an unbound variable. */
  predicate SpoilsExpr(e: Expr, env: Env) {
    match e
    case Variable(x) => x !in env
    case Binary(_, l, r) =>
      if Reducible(l) then SpoilsExpr(l, env) else Reducible(r) && SpoilsExpr(r, env)
    case _ => false
  }

  /** There is no step, and yet the Ruby code does not raise at once: it reads an unbound
      variable, or the condition of an `if` is a value other than a Boolean, so that
      `case` gives nil. */
  predicate Spoils(c: Config)
    decreases c.stmt
  {
    match c.stmt
    case Assign(_, e) => SpoilsExpr(e, c.env)
    case If(cond, _, _) => if Reducible(cond) then SpoilsExpr(cond, c.env) else !cond.Boolean?
    case Sequence(a, _) => a != DoNothing && Spoils(Config(a, c.env))
    case _ => false
  }

  lemma {:induction false} SpoilsExprIsStuck(e: Expr, env: Env)
    requires SpoilsExpr(e, env)
    ensures Reducible(e) && Reduce(e, env).None?
  {
    if e.Binary? {
      SpoilsExprIsStuck(if Reducible(e.left) then e.left else e.right, env);
    }
  }

  lemma {:induction false} SpoilsIsStuck(c: Config)
    requires Spoils(c)
    ensures Stuck(c)
    decreases c.stmt
  {
    match c.stmt
    case Assign(_, e) => SpoilsExprIsStuck(e, c.env);
    case If(cond, _, _) => if Reducible(cond) { SpoilsExprIsStuck(cond, c.env); }
    case Sequence(a, _) => SpoilsIsStuck(Config(a, c.env));
  }

  class Machine {
    /** The two fields. None stands for a statement with nil in it: nothing but an
        exception can follow. */
    var config: Option<Config>

    constructor (statement: Stmt, environment: Env)
      ensures config == Some(Config(statement, environment))
    {
      config := Some(Config(statement, environment));
    }

    /** `ok` is false when the Ruby step raises, which leaves the fields as they were. */
    method Advance() returns (ok: bool)
      modifies this
      ensures old(config).None? ==> !ok
      ensures old(config).Some? ==> (ok <==> Step(old(config).value).Some? || Spoils(old(config).value))
      ensures config == if ok then Step(old(config).value) else old(config)
    {
      if config.None? {
        return false;
      }
      var c := Step(config.value);
      if c.Some? || Spoils(config.value) {
        if c.Some? && Spoils(config.value) { SpoilsIsStuck(config.value); }
        config := c;
        return true;
      }
      return false;
    }

    /** The first `limit` turns of the loop of `run`. A program that halts or fails within
        them ends with what the big-step evaluator returns, or fails as it raises; any
        other has taken just as many steps and can go on. */
    method Run(limit: nat) returns (ended: bool, ok: bool)
      requires config.Some?
      modifies this
      ensures !ended ==> config.Some? && config.value.stmt != DoNothing
      ensures !ended ==> StepN(old(config).value, limit) == config
      ensures ended && ok ==> config.Some? && config.value.stmt == DoNothing
      ensures ended && ok ==> EvaluatesTo(old(config).value.stmt, old(config).value.env, config.value.env)
      ensures ended && !ok ==> Raises(old(config).value.stmt, old(config).value.env)
    {
      ghost var start := config.value;
      ghost var n: nat := 0;
      var k := 0;
      ok := true;
      while k < limit && ok && config.Some? && config.value.stmt != DoNothing
        invariant 0 <= k <= limit && n <= k && StepN(start, n).Some?
        invariant config.Some? ==> StepN(start, n) == config
        invariant ok && config.Some? ==> n == k
        invariant !ok || config.None? ==> Stuck(StepN(start, n).value)
        decreases limit - k, ok
      {
        StepNAppend(start, n, 1);
        ghost var before := config.value;
        ok := Advance();
        if ok {
          assert config.Some? ==> StepN(before, 1) == StepN(config.value, 0);
          n := if config.Some? then n + 1 else n;
          k := k + 1;
        }
      }
      Concluded(start, n);
      ended := !ok || config.None? || config.value.stmt == DoNothing;
      ok := ok && config.Some?;
    }
  }

  /** Where a run halts or gets stuck the evaluator returns or raises. */
  lemma Concluded(c: Config, n: nat)
    requires StepN(c, n).Some?
    ensures var last := StepN(c, n).value;
            && (last.stmt == DoNothing ==> EvaluatesTo(c.stmt, c.env, last.env))
            && (Stuck(last) ==> Raises(c.stmt, c.env))
  {
    var last := StepN(c, n).value;
    InterpretersAgree(c.stmt, c.env);
    if last.stmt == DoNothing {
      assert HaltsIn(c, n, last.env);
    } else if Stuck(last) {
      assert StuckAfter(c, n);
    }
  }

  // ----- the sample program: while (x < 5) { x = x * 3 } -----

  const CONDITION: Expr := Binary(LessThan, Variable("x"), Number(5))
  const BODY: Stmt := Assign("x", Binary(Multiply, Variable("x"), Number(3)))
  const LOOP: Stmt := While(CONDITION, BODY)

  ghost predicate Holds(env: Env, x: int) {
    "x" in env && env["x"] == Number(x)
  }

  function Pow3(k: nat): nat {
    if k == 0 then 1 else 3 * Pow3(k - 1)
  }

  lemma ConditionValue(env: Env, x: int)
    requires Holds(env, x)
    ensures Eval(CONDITION, env) == Some(Boolean(x < 5)) && OpCount(CONDITION) == 2
  {
    assert Eval(Variable("x"), env) == Some(Number(x));
    assert OpCount(Variable("x")) == 1;
  }

  lemma BodyValue(env: Env, x: int)
    requires Holds(env, x)
    ensures Evaluate(BODY, env, 0) == Done(env["x" := Number(x * 3)]) && Cost(BODY, env, 0) == 3
  {
    assert Eval(Variable("x"), env) == Some(Number(x));
    assert OpCount(Variable("x")) == 1;
    assert Eval(BODY.expression, env) == Some(Number(x * 3)) && OpCount(BODY.expression) == 2;
  }

  lemma BodyRuns(env: Env, x: int)
    requires Holds(env, x)
    ensures HaltsIn(Config(BODY, env), 3, env["x" := Number(x * 3)])
  {
    BodyValue(env, x);
    DoneIsRun(BODY, env, 0);
  }

  /** One turn of the loop takes eight steps. */
  lemma Turn(env: Env, x: int)
    requires Holds(env, x) && x < 5
    ensures StepN(Config(LOOP, env), 8) == Some(Config(LOOP, env["x" := Number(x * 3)]))
  {
    ConditionValue(env, x);
    BodyRuns(env, x);
    WhileTurns(CONDITION, BODY, env, 3, env["x" := Number(x * 3)]);
  }

  /** k is the least number of turns that brings x to 5 or more. */
  ghost predicate LeastTurns(x: int, k: nat) {
    x * Pow3(k) >= 5 && forall j: nat :: j < k ==> x * Pow3(j) < 5
  }

  lemma OneTurnFewer(x: int, k: nat)
    requires LeastTurns(x, k) && k > 0
    ensures x < 5 && LeastTurns(x * 3, k - 1) && x * 3 * Pow3(k - 1) == x * Pow3(k)
  {
    assert x * Pow3(0) < 5;
    forall j: nat | j < k - 1 ensures x * 3 * Pow3(j) < 5 {
      assert x * Pow3(j + 1) < 5;
    }
  }

  /** From x >= 1 the loop stops after exactly 8k + 4 steps with x * 3^k, where k is
      the least number of turns that reaches 5. */
  lemma {:induction false} LoopHalts(env: Env, x: int, k: nat)
    requires Holds(env, x) && x >= 1 && LeastTurns(x, k)
    ensures HaltsIn(Config(LOOP, env), 8 * k + 4, env["x" := Number(x * Pow3(k))])
    decreases k
  {
    if k == 0 {
      assert env == env["x" := Number(x)];
      ConditionValue(env, x);
      WhileExits(CONDITION, BODY, env);
    } else {
      OneTurnFewer(x, k);
      Turn(env, x);
      var env' := env["x" := Number(x * 3)];
      LoopHalts(env', x * 3, k - 1);
      var end := env["x" := Number(x * Pow3(k))];
      assert env'["x" := Number(x * Pow3(k))] == end;
      HaltsLater(Config(LOOP, env), 8, 8 * (k - 1) + 4, end);
    }
  }

  /** Such a k exists for every x >= 1, so the loop does halt. */
  lemma {:induction false} TurnsExist(x: int) returns (k: nat)
    requires x >= 1
    ensures LeastTurns(x, k)
    decreases if x < 5 then 5 - x else 0
  {
    if x >= 5 {
      k := 0;
    } else {
      k := TurnsExist(3 * x);
      forall j: nat | j < k + 1 ensures x * Pow3(j) < 5 {
        if j > 0 {
          assert (3 * x) * Pow3(j - 1) < 5;
          assert x * Pow3(j) == (3 * x) * Pow3(j - 1);
        }
      }
      assert x * Pow3(k + 1) == (3 * x) * Pow3(k);
      k := k + 1;
    }
  }

  lemma {:induction false} NeverFinishes(env: Env, x: int, n: nat)
    requires Holds(env, x) && x <= 0
    ensures StepN(Config(LOOP, env), n).Some?
    decreases n
  {
    var c := Config(LOOP, env);
    Turn(env, x);
    if n < 8 {
      StepNPrefix(c, n, 8);
    } else {
      NeverFinishes(env["x" := Number(x * 3)], x * 3, n - 8);
      StepNAppend(c, 8, n - 8);
    }
  }

  /** The sample loop halts exactly when it starts from a positive number. */
  lemma LoopHaltsIffPositive(env: Env, x: int)
    requires Holds(env, x)
    ensures x >= 1 <==> exists env': Env :: Halts(Config(LOOP, env), env')
    ensures x <= 0 <==> RunsForever(Config(LOOP, env))
    ensures x <= 0 ==> NeverReturns(LOOP, env)
  {
    var c := Config(LOOP, env);
    InterpretersAgree(LOOP, env);
    if x >= 1 {
      var k := TurnsExist(x);
      LoopHalts(env, x, k);
      assert Halts(c, env["x" := Number(x * Pow3(k))]);
      StepNAppend(c, 8 * k + 4, 1);
      assert StepN(c, 8 * k + 4 + 1).None?;
    } else {
      forall n: nat ensures StepN(c, n).Some? { NeverFinishes(env, x, n); }
    }
  }
}
