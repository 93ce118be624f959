/** The two interpreters of SIMPLE agree: on which programs halt and with what
    environment, on which programs fail, and on which run forever. */
module SimpleEquivalence {
  import opened Options
  import opened SimpleSyntax
  import opened SimpleSmallStep
  import opened SimpleBigStep

  // ----- expressions -----

  /** One reduction keeps the value of the expression and uses up one operator or
      variable node. */
  lemma {:induction false} ReduceKeepsValue(e: Expr, env: Env)
    requires Reduce(e, env).Some?
    ensures Eval(Reduce(e, env).value, env) == Eval(e, env)
    ensures OpCount(Reduce(e, env).value) == OpCount(e) - 1
  {
    match e
    case Variable(_) =>
    case Binary(op, l, r) =>
      if Reducible(l) {
        ReduceKeepsValue(l, env);
      } else if Reducible(r) {
        ReduceKeepsValue(r, env);
      }
  }

  /** An expression that has a value is a value or reduces. */
  lemma {:induction false} ValuedReduces(e: Expr, env: Env)
    requires Eval(e, env).Some? && Reducible(e)
    ensures Reduce(e, env).Some?
  {
    match e
    case Variable(_) =>
    case Binary(op, l, r) =>
      if Reducible(l) {
        ValuedReduces(l, env);
      } else if Reducible(r) {
        ValuedReduces(r, env);
      }
  }

  lemma {:induction false} ValuesHaveNoWork(e: Expr)
    ensures OpCount(e) == 0 <==> !Reducible(e)
  {
  }

  /** Repeated reduction ends in the evaluator's value, after exactly as many
      steps as the expression has operator and variable nodes. */
  lemma {:induction false} ExprReachesValue(e: Expr, env: Env)
    requires Eval(e, env).Some?
    ensures ReduceN(e, env, OpCount(e)) == Some(Eval(e, env).value)
    decreases OpCount(e)
  {
    ValuesHaveNoWork(e);
    if Reducible(e) {
      ValuedReduces(e, env);
      ReduceKeepsValue(e, env);
      ExprReachesValue(Reduce(e, env).value, env);
    }
  }

  /** Conversely, whatever value repeated reduction ends in is the evaluator's,
      and it took that many steps. */
  lemma {:induction false} ExprValueIsEvaluated(e: Expr, env: Env, n: nat)
    requires ReduceN(e, env, n).Some? && !Reducible(ReduceN(e, env, n).value)
    ensures Eval(e, env) == Some(ReduceN(e, env, n).value) && n == OpCount(e)
    decreases n
  {
    ValuesHaveNoWork(e);
    if n > 0 {
      ReduceKeepsValue(e, env);
      ExprValueIsEvaluated(Reduce(e, env).value, env, n - 1);
    }
  }

  /** An expression without a value reduces to one that raises. */
  lemma {:induction false} ExprRaises(e: Expr, env: Env) returns (n: nat)
    requires Eval(e, env).None?
    ensures ReduceN(e, env, n).Some?
    ensures Reducible(ReduceN(e, env, n).value) && Reduce(ReduceN(e, env, n).value, env).None?
    decreases OpCount(e)
  {
    if Reduce(e, env).None? {
      n := 0;
    } else {
      ReduceKeepsValue(e, env);
      n := ExprRaises(Reduce(e, env).value, env);
      n := n + 1;
    }
  }

  /** Reductions of an assigned expression and of a condition lift to the statement. */
  lemma {:induction false} AssignLift(x: string, e: Expr, env: Env, n: nat)
    requires ReduceN(e, env, n).Some?
    ensures StepN(Config(Assign(x, e), env), n) == Some(Config(Assign(x, ReduceN(e, env, n).value), env))
    decreases n
  {
    if n > 0 {
      AssignLift(x, Reduce(e, env).value, env, n - 1);
    }
  }

  lemma {:induction false} IfLift(e: Expr, a: Stmt, b: Stmt, env: Env, n: nat)
    requires ReduceN(e, env, n).Some?
    ensures StepN(Config(If(e, a, b), env), n) == Some(Config(If(ReduceN(e, env, n).value, a, b), env))
    decreases n
  {
    if n > 0 {
      IfLift(Reduce(e, env).value, a, b, env, n - 1);
    }
  }

  // ----- from the machine to the evaluator -----

  /** Undoing one machine step: an answer for the stepped configuration is an
      answer for the original, with one more unit of fuel. */
  lemma {:induction false} StepBack(c: Config, f: nat)
    requires Step(c).Some?
    requires Evaluate(Step(c).value.stmt, Step(c).value.env, f) != Running
    ensures Evaluate(c.stmt, c.env, f + 1) == Evaluate(Step(c).value.stmt, Step(c).value.env, f)
    decreases c.stmt
  {
    var c' := Step(c).value;
    match c.stmt
    case Assign(x, e) =>
      if Reducible(e) { ReduceKeepsValue(e, c.env); }
    case If(cond, a, b) =>
      FuelMonotone(c'.stmt, c'.env, f, f + 1);
      if Reducible(cond) { ReduceKeepsValue(cond, c.env); }
    case Sequence(a, b) =>
      if a == DoNothing {
        FuelMonotone(b, c.env, f, f + 1);
      } else {
        StepBack(Config(a, c.env), f);
        var a' := Step(Config(a, c.env)).value;
        var o := Evaluate(a'.stmt, a'.env, f);
        if o.Done? {
          FuelMonotone(b, o.env, f, f + 1);
        }
      }
    case While(_, _) =>
  }

  lemma {:induction false} StuckRaises(c: Config, f: nat)
    requires Stuck(c)
    ensures Evaluate(c.stmt, c.env, f) == Raised
    decreases c.stmt
  {
    match c.stmt
    case Assign(_, e) =>
      if Eval(e, c.env).Some? && Reducible(e) { ValuedReduces(e, c.env); }
    case If(cond, _, _) =>
      if Eval(cond, c.env).Some? && Reducible(cond) { ValuedReduces(cond, c.env); }
    case Sequence(a, _) =>
      StuckRaises(Config(a, c.env), f);
    case While(_, _) =>
  }

  /** Fuel equal to the number of machine steps is enough to reach the answer. */
  lemma {:induction false} RunIsEvaluated(c: Config, n: nat)
    requires StepN(c, n).Some?
    requires StepN(c, n).value.stmt == DoNothing || Stuck(StepN(c, n).value)
    ensures var last := StepN(c, n).value;
            Evaluate(c.stmt, c.env, n) == if last.stmt == DoNothing then Done(last.env) else Raised
    decreases n
  {
    if n == 0 {
      if c.stmt != DoNothing { StuckRaises(c, 0); }
    } else {
      RunIsEvaluated(Step(c).value, n - 1);
      StepBack(c, n - 1);
    }
  }

  // ----- from the evaluator to the machine -----

  /** A condition with a Boolean value takes OpCount steps to be decided, one more
      to select the branch. */
  lemma IfSelects(cond: Expr, a: Stmt, b: Stmt, env: Env, t: bool)
    requires Eval(cond, env) == Some(Boolean(t))
    ensures StepN(Config(If(cond, a, b), env), OpCount(cond) + 1) == Some(Config(if t then a else b, env))
  {
    ExprReachesValue(cond, env);
    IfLift(cond, a, b, env, OpCount(cond));
    StepNAppend(Config(If(cond, a, b), env), OpCount(cond), 1);
    assert StepN(Config(If(Boolean(t), a, b), env), 1) == StepN(Config(if t then a else b, env), 0);
  }

  lemma IfRaises(cond: Expr, a: Stmt, b: Stmt, env: Env) returns (n: nat)
    requires Eval(cond, env).None? || !Eval(cond, env).value.Boolean?
    ensures StuckAfter(Config(If(cond, a, b), env), n)
  {
    if Eval(cond, env).None? {
      n := ExprRaises(cond, env);
      IfLift(cond, a, b, env, n);
    } else {
      n := OpCount(cond);
      ExprReachesValue(cond, env);
      IfLift(cond, a, b, env, n);
    }
  }

  lemma StuckLater(c: Config, m: nat, n: nat)
    requires StepN(c, m).Some? && StuckAfter(StepN(c, m).value, n)
    ensures StuckAfter(c, m + n)
  {
    StepNAppend(c, m, n);
  }

  lemma HaltsLater(c: Config, m: nat, n: nat, env': Env)
    requires StepN(c, m).Some? && HaltsIn(StepN(c, m).value, n, env')
    ensures HaltsIn(c, m + n, env')
  {
    StepNAppend(c, m, n);
  }

  lemma StuckFirst(a: Stmt, b: Stmt, env: Env, n: nat)
    requires StuckAfter(Config(a, env), n)
    ensures StuckAfter(Config(Sequence(a, b), env), n)
  {
    SequenceLift(a, b, env, n);
  }

  /** A loop whose condition is false exits after OpCount + 2 steps. */
  lemma WhileExits(cond: Expr, body: Stmt, env: Env)
    requires Eval(cond, env) == Some(Boolean(false))
    ensures HaltsIn(Config(While(cond, body), env), 1 + OpCount(cond) + 1, env)
  {
    var c := Config(While(cond, body), env);
    assert StepN(c, 1) == StepN(Step(c).value, 0);
    IfSelects(cond, Sequence(body, c.stmt), DoNothing, env, false);
    StepNAppend(c, 1, OpCount(cond) + 1);
  }

  /** One turn of a loop: deciding the condition, k steps of the body, and one step
      back to the loop itself. */
  lemma WhileTurns(cond: Expr, body: Stmt, env: Env, k: nat, mid: Env)
    requires Eval(cond, env) == Some(Boolean(true)) && HaltsIn(Config(body, env), k, mid)
    ensures StepN(Config(While(cond, body), env), 1 + OpCount(cond) + 1 + k + 1)
         == Some(Config(While(cond, body), mid))
  {
    var s := While(cond, body);
    var c := Config(s, env);
    var inner := Config(Sequence(body, s), env);
    assert StepN(c, 1) == StepN(Step(c).value, 0);
    IfSelects(cond, inner.stmt, DoNothing, env, true);
    StepNAppend(c, 1, OpCount(cond) + 1);
    SequenceLift(body, s, env, k);
    StepNAppend(inner, k, 1);
    assert StepN(Config(Sequence(DoNothing, s), mid), 1) == StepN(Config(s, mid), 0);
    StepNAppend(c, 1 + (OpCount(cond) + 1), k + 1);
  }

  /** An evaluation that returns an environment is a halting machine run of
      exactly Cost steps. */
  lemma {:induction false} DoneIsRun(s: Stmt, env: Env, f: nat)
    requires Evaluate(s, env, f).Done?
    ensures HaltsIn(Config(s, env), Cost(s, env, f), Evaluate(s, env, f).env)
    decreases f, s
  {
    var c := Config(s, env);
    match s
    case DoNothing =>
    case Assign(x, e) =>
      ExprReachesValue(e, env);
      AssignLift(x, e, env, OpCount(e));
      StepNAppend(c, OpCount(e), 1);
      assert StepN(Config(Assign(x, Eval(e, env).value), env), 1)
          == StepN(Config(DoNothing, env[x := Eval(e, env).value]), 0);
    case If(cond, a, b) =>
      var t := Eval(cond, env) == Some(Boolean(true));
      IfSelects(cond, a, b, env, t);
      DoneIsRun(if t then a else b, env, f);
      HaltsLater(c, OpCount(cond) + 1, Cost(if t then a else b, env, f), Evaluate(s, env, f).env);
    case Sequence(a, b) =>
      var mid := Evaluate(a, env, f).env;
      DoneIsRun(a, env, f);
      DoneIsRun(b, mid, f);
      SequenceComposes(a, b, env, Cost(a, env, f), mid, Cost(b, mid, f), Evaluate(s, env, f).env);
    case While(cond, body) =>
      if Eval(cond, env) == Some(Boolean(true)) {
        var mid := Evaluate(body, env, f - 1).env;
        var k := Cost(body, env, f - 1);
        DoneIsRun(body, env, f - 1);
        DoneIsRun(s, mid, f - 1);
        WhileTurns(cond, body, env, k, mid);
        HaltsLater(c, 1 + OpCount(cond) + 1 + k + 1, Cost(s, mid, f - 1), Evaluate(s, env, f).env);
      } else {
        WhileExits(cond, body, env);
      }
  }

  /** An evaluation that raises is a machine run that gets stuck. */
  lemma {:induction false} RaisedIsRun(s: Stmt, env: Env, f: nat) returns (n: nat)
    requires Evaluate(s, env, f) == Raised
    ensures StuckAfter(Config(s, env), n)
    decreases f, s
  {
    var c := Config(s, env);
    match s
    case Assign(x, e) =>
      n := ExprRaises(e, env);
      AssignLift(x, e, env, n);
    case If(cond, a, b) =>
      if Eval(cond, env).None? || !Eval(cond, env).value.Boolean? {
        n := IfRaises(cond, a, b, env);
      } else {
        var t := Eval(cond, env).value.b;
        n := RaisedIsRun(if t then a else b, env, f);
        IfSelects(cond, a, b, env, t);
        StuckLater(c, OpCount(cond) + 1, n);
        n := OpCount(cond) + 1 + n;
      }
    case Sequence(a, b) =>
      n := RaisedInSequence(a, b, env, f);
    case While(cond, body) =>
      assert StepN(c, 1) == StepN(Step(c).value, 0);
      if Eval(cond, env).None? || !Eval(cond, env).value.Boolean? {
        n := IfRaises(cond, Sequence(body, s), DoNothing, env);
      } else {
        IfSelects(cond, Sequence(body, s), DoNothing, env, true);
        n := RaisedInSequence(body, s, env, f - 1);
        StuckLater(Step(c).value, OpCount(cond) + 1, n);
        n := OpCount(cond) + 1 + n;
      }
      StuckLater(c, 1, n);
      n := 1 + n;
  }

  lemma {:induction false} RaisedInSequence(a: Stmt, b: Stmt, env: Env, f: nat) returns (n: nat)
    requires Evaluate(a, env, f) == Raised
          || (Evaluate(a, env, f).Done? && Evaluate(b, Evaluate(a, env, f).env, f) == Raised)
    ensures StuckAfter(Config(Sequence(a, b), env), n)
    decreases f, Sequence(a, b), 0
  {
    if Evaluate(a, env, f) == Raised {
      n := RaisedIsRun(a, env, f);
      StuckFirst(a, b, env, n);
    } else {
      var mid := Evaluate(a, env, f).env;
      var k := Cost(a, env, f);
      var c := Config(Sequence(a, b), env);
      DoneIsRun(a, env, f);
      SequenceLift(a, b, env, k);
      StepNAppend(c, k, 1);
      assert StepN(Config(Sequence(DoNothing, b), mid), 1) == StepN(Config(b, mid), 0);
      n := RaisedIsRun(b, mid, f);
      StuckLater(c, k + 1, n);
      n := k + 1 + n;
    }
  }

  // ----- the theorems -----

  /** For every statement and environment, the machine halts with an environment
      exactly when the evaluator returns it; it gets stuck exactly when the
      evaluator raises; and it runs forever exactly when the evaluator never
      returns. */
  lemma InterpretersAgree(s: Stmt, env: Env)
    ensures forall env': Env :: Halts(Config(s, env), env') <==> EvaluatesTo(s, env, env')
    ensures GetsStuck(Config(s, env)) <==> Raises(s, env)
    ensures RunsForever(Config(s, env)) <==> NeverReturns(s, env)
  {
    var c := Config(s, env);
    forall env': Env ensures Halts(c, env') <==> EvaluatesTo(s, env, env') {
      HaltingAgrees(s, env, env');
    }
    StuckAgrees(s, env);
    if RunsForever(c) {
      forall f: nat ensures Evaluate(s, env, f) == Running {
        ForeverIsRunning(s, env, f);
      }
    }
    if NeverReturns(s, env) {
      forall n: nat ensures StepN(c, n).Some? {
        RunningNeverStops(s, env, n);
      }
    }
  }

  lemma HaltingAgrees(s: Stmt, env: Env, env': Env)
    ensures Halts(Config(s, env), env') <==> EvaluatesTo(s, env, env')
  {
    var c := Config(s, env);
    if Halts(c, env') {
      var n: nat :| HaltsIn(c, n, env');
      RunIsEvaluated(c, n);
    }
    if EvaluatesTo(s, env, env') {
      var f: nat :| Evaluate(s, env, f) == Done(env');
      DoneIsRun(s, env, f);
    }
  }

  lemma StuckAgrees(s: Stmt, env: Env)
    ensures GetsStuck(Config(s, env)) <==> Raises(s, env)
  {
    var c := Config(s, env);
    if GetsStuck(c) {
      var n: nat :| StuckAfter(c, n);
      RunIsEvaluated(c, n);
    }
    if Raises(s, env) {
      var f: nat :| Evaluate(s, env, f) == Raised;
      var n := RaisedIsRun(s, env, f);
    }
  }

  lemma ForeverIsRunning(s: Stmt, env: Env, f: nat)
    requires RunsForever(Config(s, env))
    ensures Evaluate(s, env, f) == Running
  {
    var c := Config(s, env);
    if Evaluate(s, env, f).Done? {
      DoneIsRun(s, env, f);
      StepNAppend(c, Cost(s, env, f), 1);
    } else if Evaluate(s, env, f).Raised? {
      var n := RaisedIsRun(s, env, f);
      StepNAppend(c, n, 1);
    }
  }

  lemma {:induction false} RunningNeverStops(s: Stmt, env: Env, n: nat)
    requires NeverReturns(s, env)
    ensures StepN(Config(s, env), n).Some?
    decreases n
  {
    if n > 0 {
      var c := Config(s, env);
      RunningNeverStops(s, env, n - 1);
      var last := StepN(c, n - 1).value;
      if last.stmt == DoNothing || Stuck(last) {
        RunIsEvaluated(c, n - 1);
      } else {
        StepNAppend(c, n - 1, 1);
        assert StepN(last, 1) == StepN(Step(last).value, 0);
      }
    }
  }

  /** The number of steps of a halting run is the evaluator's Cost, whatever fuel
      the evaluation was given. */
  lemma StepCountIsCost(s: Stmt, env: Env, n: nat, env': Env, f: nat)
    requires HaltsIn(Config(s, env), n, env') && Evaluate(s, env, f).Done?
    ensures Evaluate(s, env, f) == Done(env') && n == Cost(s, env, f)
  {
    DoneIsRun(s, env, f);
    HaltingIsUnique(Config(s, env), n, Cost(s, env, f), env', Evaluate(s, env, f).env);
  }
}
