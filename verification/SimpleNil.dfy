/** big-step.rb as Ruby runs it, with nil: reading an unbound variable gives nil,
    an assignment stores it, and a condition that is not a Boolean makes `case`
    return nil in place of an environment. The module says when this looser
    evaluator still agrees with the reduction machine. */
module SimpleNil {
  import opened Options
  import opened SimpleSyntax
  import opened SimpleSmallStep
  import opened SimpleBigStep
  import opened SimpleEquivalence
  import opened SimpleTyping

  datatype Obj = Nil | Val(v: Value)

  datatype RubyEnv = NilEnv | Hash(m: map<string, Obj>)

  datatype RubyOutcome = Returns(env: RubyEnv) | Throws | Looping

  function RubyEval(e: Expr, env: RubyEnv): Option<Obj> {
    match e
    case Number(_) => Some(Val(e))
    case Boolean(_) => Some(Val(e))
    case Variable(x) =>
      if env.NilEnv? then None else Some(if x in env.m then env.m[x] else Nil)
    case Binary(op, l, r) =>
      var lv, rv := RubyEval(l, env), RubyEval(r, env);
      if lv.Some? && rv.Some? && lv.value.Val? && rv.value.Val? then
        var v := Apply(op, lv.value.v, rv.value.v);
        if v.Some? then Some(Val(v.value)) else None
      else None
  }

  function RubyEvaluate(s: Stmt, env: RubyEnv, fuel: nat): RubyOutcome
    decreases fuel, s
  {
    match s
    case DoNothing => Returns(env)
    case Assign(x, e) =>
      var v := RubyEval(e, env);
      if v.None? || env.NilEnv? then Throws else Returns(Hash(env.m[x := v.value]))
    case If(cond, a, b) =>
      var v := RubyEval(cond, env);
      if v.None? then Throws
      else if v.value == Val(Boolean(true)) then RubyEvaluate(a, env, fuel)
      else if v.value == Val(Boolean(false)) then RubyEvaluate(b, env, fuel)
      else Returns(NilEnv)
    case Sequence(a, b) =>
      var o := RubyEvaluate(a, env, fuel);
      if o.Returns? then RubyEvaluate(b, o.env, fuel) else o
    case While(cond, body) =>
      if fuel == 0 then Looping
      else
        var v := RubyEval(cond, env);
        if v.None? then Throws
        else if v.value == Val(Boolean(true)) then
          var o := RubyEvaluate(body, env, fuel - 1);
          if o.Returns? then RubyEvaluate(s, o.env, fuel - 1) else o
        else if v.value == Val(Boolean(false)) then Returns(env)
        else Returns(NilEnv)
  }

  function Lift(env: Env): RubyEnv {
    Hash(map x | x in env :: Val(env[x]))
  }

  /** No assignment copies a bare variable: nil is then never stored. */
  predicate CopyFree(s: Stmt) {
    match s
    case DoNothing => true
    case Assign(_, e) => !e.Variable?
    case If(_, a, b) => CopyFree(a) && CopyFree(b)
    case Sequence(a, b) => CopyFree(a) && CopyFree(b)
    case While(_, body) => CopyFree(body)
  }

  /** On value environments the two expression evaluators differ only in that a
      bare unbound variable gives nil. */
  lemma {:induction false} RubyEvalAgrees(e: Expr, env: Env)
    ensures Eval(e, env).Some? ==> RubyEval(e, Lift(env)) == Some(Val(Eval(e, env).value))
    ensures Eval(e, env).None? ==>
              RubyEval(e, Lift(env)) == if e.Variable? then Some(Nil) else None
  {
    match e
    case Number(_) =>
    case Boolean(_) =>
    case Variable(_) =>
    case Binary(_, l, r) =>
      RubyEvalAgrees(l, env);
      RubyEvalAgrees(r, env);
  }

  /** Where the strict evaluator has an answer or is still looping, Ruby does the same. */
  lemma {:induction false} RubyFollows(s: Stmt, env: Env, f: nat)
    ensures Evaluate(s, env, f).Done? ==> RubyEvaluate(s, Lift(env), f) == Returns(Lift(Evaluate(s, env, f).env))
    ensures Evaluate(s, env, f).Running? ==> RubyEvaluate(s, Lift(env), f) == Looping
    decreases f, s
  {
    match s
    case DoNothing =>
    case Assign(x, e) =>
      RubyEvalAgrees(e, env);
      if Eval(e, env).Some? {
        var v := Eval(e, env).value;
        assert Lift(env).m[x := Val(v)] == Lift(env[x := v]).m;
      }
    case If(cond, a, b) =>
      RubyEvalAgrees(cond, env);
      RubyFollows(a, env, f);
      RubyFollows(b, env, f);
    case Sequence(a, b) =>
      RubyFollows(a, env, f);
      var o := Evaluate(a, env, f);
      if o.Done? { RubyFollows(b, o.env, f); }
    case While(cond, body) =>
      RubyEvalAgrees(cond, env);
      if f > 0 && Eval(cond, env) == Some(Boolean(true)) {
        RubyFollows(body, env, f - 1);
        var o := Evaluate(body, env, f - 1);
        if o.Done? { RubyFollows(s, o.env, f - 1); }
      }
  }

  predicate ReturnsHash(o: RubyOutcome) {
    o.Returns? && o.env.Hash?
  }

  /** Evaluation never gets from nil back to an environment. */
  lemma {:induction false} NilStaysNil(s: Stmt, f: nat)
    ensures !ReturnsHash(RubyEvaluate(s, NilEnv, f))
    decreases f, s
  {
    match s
    case DoNothing =>
    case Assign(_, _) =>
    case If(_, a, b) =>
      NilStaysNil(a, f);
      NilStaysNil(b, f);
    case Sequence(a, b) =>
      NilStaysNil(a, f);
      NilStaysNil(b, f);
    case While(_, body) =>
      if f > 0 {
        NilStaysNil(body, f - 1);
        NilStaysNil(s, f - 1);
      }
  }

  // ----- along the run of the machine -----

  /** An answer found with some fuel is found with one unit more. */
  lemma {:induction false} RubyFuelMonotone(s: Stmt, env: RubyEnv, f: nat)
    requires RubyEvaluate(s, env, f).Returns?
    ensures RubyEvaluate(s, env, f + 1) == RubyEvaluate(s, env, f)
    decreases f, s
  {
    match s
    case DoNothing =>
    case Assign(_, _) =>
    case If(cond, a, b) =>
      if RubyEval(cond, env).value == Val(Boolean(true)) {
        RubyFuelMonotone(a, env, f);
      } else if RubyEval(cond, env).value == Val(Boolean(false)) {
        RubyFuelMonotone(b, env, f);
      }
    case Sequence(a, b) =>
      RubyFuelMonotone(a, env, f);
      RubyFuelMonotone(b, RubyEvaluate(a, env, f).env, f);
    case While(cond, body) =>
      if RubyEval(cond, env).value == Val(Boolean(true)) {
        RubyFuelMonotone(body, env, f - 1);
        RubyFuelMonotone(s, RubyEvaluate(body, env, f - 1).env, f - 1);
      }
  }

  lemma RubyReduceKeeps(e: Expr, env: Env)
    requires Reduce(e, env).Some?
    ensures RubyEval(Reduce(e, env).value, Lift(env)) == RubyEval(e, Lift(env))
  {
    ReduceKeepsValue(e, env);
    RubyEvalAgrees(e, env);
    RubyEvalAgrees(Reduce(e, env).value, env);
  }

  /** What Ruby's evaluation returns, it still returns after a step of the machine. */
  lemma {:induction false} RubyStepKeeps(c: Config, f: nat)
    requires Step(c).Some? && RubyEvaluate(c.stmt, Lift(c.env), f).Returns?
    ensures var c' := Step(c).value;
            RubyEvaluate(c'.stmt, Lift(c'.env), f) == RubyEvaluate(c.stmt, Lift(c.env), f)
    decreases c.stmt
  {
    match c.stmt
    case Assign(x, e) =>
      if Reducible(e) {
        RubyReduceKeeps(e, c.env);
      } else {
        assert Lift(c.env).m[x := Val(e)] == Lift(c.env[x := e]).m;
      }
    case If(cond, a, b) =>
      if Reducible(cond) { RubyReduceKeeps(cond, c.env); }
    case Sequence(a, b) =>
      if a != DoNothing { RubyStepKeeps(Config(a, c.env), f); }
    case While(cond, body) =>
      if RubyEval(cond, Lift(c.env)).value == Val(Boolean(true)) {
        RubyFuelMonotone(body, Lift(c.env), f - 1);
        RubyFuelMonotone(c.stmt, RubyEvaluate(body, Lift(c.env), f - 1).env, f - 1);
      }
  }

  /** And back: undoing a step costs one unit of fuel. */
  lemma {:induction false} RubyStepBack(c: Config, f: nat)
    requires Step(c).Some? && RubyEvaluate(Step(c).value.stmt, Lift(Step(c).value.env), f).Returns?
    ensures var c' := Step(c).value;
            RubyEvaluate(c.stmt, Lift(c.env), f + 1) == RubyEvaluate(c'.stmt, Lift(c'.env), f)
    decreases c.stmt
  {
    var c' := Step(c).value;
    RubyFuelMonotone(c'.stmt, Lift(c'.env), f);
    match c.stmt
    case Assign(x, e) =>
      if Reducible(e) {
        RubyReduceKeeps(e, c.env);
      } else {
        assert Lift(c.env).m[x := Val(e)] == Lift(c.env[x := e]).m;
      }
    case If(cond, a, b) =>
      if Reducible(cond) { RubyReduceKeeps(cond, c.env); }
    case Sequence(a, b) =>
      if a != DoNothing {
        RubyStepBack(Config(a, c.env), f);
        RubyFuelMonotone(b, RubyEvaluate(c'.stmt.first, Lift(c'.env), f).env, f);
      }
    case While(_, _) =>
  }

  lemma {:induction false} RubyRunBack(c: Config, f: nat, n: nat)
    requires StepN(c, n).Some?
    requires RubyEvaluate(StepN(c, n).value.stmt, Lift(StepN(c, n).value.env), f).Returns?
    ensures var last := StepN(c, n).value;
            RubyEvaluate(c.stmt, Lift(c.env), f + n) == RubyEvaluate(last.stmt, Lift(last.env), f)
    decreases n
  {
    if n > 0 {
      RubyRunBack(Step(c).value, f, n - 1);
      RubyStepBack(c, f + n - 1);
    }
  }

  lemma {:induction false} RubyRunKeeps(c: Config, f: nat, n: nat)
    requires StepN(c, n).Some? && RubyEvaluate(c.stmt, Lift(c.env), f).Returns?
    ensures var last := StepN(c, n).value;
            RubyEvaluate(last.stmt, Lift(last.env), f) == RubyEvaluate(c.stmt, Lift(c.env), f)
    decreases n
  {
    if n > 0 {
      RubyStepKeeps(c, f);
      RubyRunKeeps(Step(c).value, f, n - 1);
    }
  }

  /** The statement that is to be reduced next copies an unbound variable. */
  predicate AtUnboundCopy(c: Config)
    decreases c.stmt
  {
    match c.stmt
    case Assign(_, e) => e.Variable? && e.name !in c.env
    case Sequence(a, _) => AtUnboundCopy(Config(a, c.env))
    case _ => false
  }

  /** A stuck machine whose program Ruby's evaluation completes is at such a copy. */
  lemma {:induction false} StuckAtCopy(c: Config, f: nat)
    requires Stuck(c) && ReturnsHash(RubyEvaluate(c.stmt, Lift(c.env), f))
    ensures AtUnboundCopy(c)
    decreases c.stmt
  {
    match c.stmt
    case Assign(_, e) =>
      RubyEvalAgrees(e, c.env);
      if Eval(e, c.env).Some? { ValuedReduces(e, c.env); }
    case If(cond, a, b) =>
      RubyEvalAgrees(cond, c.env);
      if Reducible(cond) && Eval(cond, c.env).Some? { ValuedReduces(cond, c.env); }
    case Sequence(a, b) =>
      if RubyEvaluate(a, Lift(c.env), f).env == NilEnv {
        NilStaysNil(b, f);
      } else {
        StuckAtCopy(Config(a, c.env), f);
      }
  }

  ghost predicate RubyReturns(s: Stmt, env: Env, env': RubyEnv) {
    exists f: nat :: RubyEvaluate(s, Lift(env), f) == Returns(env')
  }

  /** The only way to part: where Ruby's evaluation returns an environment and the machine
      gets stuck, the machine is stuck at a copy of an unbound variable. */
  lemma PartsOnlyAtUnboundCopy(s: Stmt, env: Env, m: map<string, Obj>, n: nat)
    requires RubyReturns(s, env, Hash(m)) && StuckAfter(Config(s, env), n)
    ensures AtUnboundCopy(StepN(Config(s, env), n).value)
  {
    var f: nat :| RubyEvaluate(s, Lift(env), f) == Returns(Hash(m));
    RubyRunKeeps(Config(s, env), f, n);
    StuckAtCopy(StepN(Config(s, env), n).value, f);
  }

  /** Every program: what Ruby's evaluation returns is what the machine halts with, unless
      the machine comes to a copy of an unbound variable. */
  lemma RubyReturnsOrParts(s: Stmt, env: Env, m: map<string, Obj>)
    requires RubyReturns(s, env, Hash(m))
    ensures || (exists env': Env :: Halts(Config(s, env), env') && Hash(m) == Lift(env'))
            || (exists n: nat :: StuckAfter(Config(s, env), n) && AtUnboundCopy(StepN(Config(s, env), n).value))
  {
    var f: nat :| RubyEvaluate(s, Lift(env), f) == Returns(Hash(m));
    RubyFollows(s, env, f);
    if Evaluate(s, env, f) == Raised {
      var n := RaisedIsRun(s, env, f);
      PartsOnlyAtUnboundCopy(s, env, m, n);
    } else {
      var env' := Evaluate(s, env, f).env;
      HaltingAgrees(s, env, env');
      assert Halts(Config(s, env), env') && Hash(m) == Lift(env');
    }
  }

  /** Ruby's evaluation returns an environment exactly when the machine halts with it. */
  ghost predicate Agree(s: Stmt, env: Env) {
    forall m :: RubyReturns(s, env, Hash(m)) <==> HaltsWith(s, env, m)
  }

  ghost predicate HaltsWith(s: Stmt, env: Env, m: map<string, Obj>) {
    exists env': Env :: Halts(Config(s, env), env') && Hash(m) == Lift(env')
  }

  /** The machine is at a copy of an unbound variable, and Ruby's evaluation, which stores
      nil there, gets to the end of the rest of the program. */
  ghost predicate GetsPast(c: Config) {
    AtUnboundCopy(c) && exists m :: RubyReturns(c.stmt, c.env, Hash(m))
  }

  lemma HaltingReturns(s: Stmt, env: Env, m: map<string, Obj>)
    requires HaltsWith(s, env, m)
    ensures RubyReturns(s, env, Hash(m))
  {
    var env': Env :| Halts(Config(s, env), env') && Hash(m) == Lift(env');
    HaltingAgrees(s, env, env');
    var f: nat :| Evaluate(s, env, f) == Done(env');
    RubyFollows(s, env, f);
  }

  /** For every program and environment: the two agree if and only if the machine does not
      come to a copy of an unbound variable that Ruby's evaluation gets past. */
  lemma AgreeIffNotPast(s: Stmt, env: Env)
    ensures Agree(s, env)
       <==> forall n: nat :: StepN(Config(s, env), n).Some? ==> !GetsPast(StepN(Config(s, env), n).value)
  {
    forall m ensures HaltsWith(s, env, m) ==> RubyReturns(s, env, Hash(m)) {
      if HaltsWith(s, env, m) { HaltingReturns(s, env, m); }
    }
    forall n: nat | StepN(Config(s, env), n).Some? && GetsPast(StepN(Config(s, env), n).value)
      ensures !Agree(s, env)
    {
      PastDisagrees(s, env, n);
    }
    if m :| RubyReturns(s, env, Hash(m)) && !HaltsWith(s, env, m) {
      var n := DisagreeingGetsPast(s, env, m);
    }
  }

  lemma {:induction false} UnboundCopyIsStuck(c: Config)
    requires AtUnboundCopy(c)
    ensures Stuck(c)
    decreases c.stmt
  {
    if c.stmt.Sequence? { UnboundCopyIsStuck(Config(c.stmt.first, c.env)); }
  }

  lemma PastDisagrees(s: Stmt, env: Env, n: nat)
    requires StepN(Config(s, env), n).Some? && GetsPast(StepN(Config(s, env), n).value)
    ensures !Agree(s, env)
  {
    var c := StepN(Config(s, env), n).value;
    var m :| RubyReturns(c.stmt, c.env, Hash(m));
    var f: nat :| RubyEvaluate(c.stmt, Lift(c.env), f) == Returns(Hash(m));
    RubyRunBack(Config(s, env), f, n);
    assert RubyReturns(s, env, Hash(m));
    UnboundCopyIsStuck(c);
    forall k: nat, env': Env ensures !HaltsIn(Config(s, env), k, env') {
      StuckNeverHalts(Config(s, env), n, k, env');
    }
  }

  lemma StuckNeverHalts(c: Config, n: nat, k: nat, env': Env)
    requires StuckAfter(c, n)
    ensures !HaltsIn(c, k, env')
  {
    if k <= n {
      StepNPrefix(c, k, n);
      StepNAppend(c, k, n - k);
    } else {
      StepNAppend(c, n, k - n);
    }
  }

  lemma DisagreeingGetsPast(s: Stmt, env: Env, m: map<string, Obj>) returns (n: nat)
    requires RubyReturns(s, env, Hash(m)) && !HaltsWith(s, env, m)
    ensures StepN(Config(s, env), n).Some? && GetsPast(StepN(Config(s, env), n).value)
  {
    RubyReturnsOrParts(s, env, m);
    n :| StuckAfter(Config(s, env), n) && AtUnboundCopy(StepN(Config(s, env), n).value);
    var f: nat :| RubyEvaluate(s, Lift(env), f) == Returns(Hash(m));
    RubyRunKeeps(Config(s, env), f, n);
    var c := StepN(Config(s, env), n).value;
    assert RubyReturns(c.stmt, c.env, Hash(m));
  }

  // ----- programs that do not part -----

  lemma {:induction false} StepKeepsCopyFree(c: Config)
    requires CopyFree(c.stmt) && Step(c).Some?
    ensures CopyFree(Step(c).value.stmt)
    decreases c.stmt
  {
    match c.stmt
    case Assign(_, _) =>
    case If(_, _, _) =>
    case Sequence(a, _) =>
      if a != DoNothing { StepKeepsCopyFree(Config(a, c.env)); }
    case While(_, _) =>
  }

  lemma {:induction false} CopyFreeNeverParts(c: Config, n: nat)
    requires CopyFree(c.stmt) && StepN(c, n).Some?
    ensures !AtUnboundCopy(StepN(c, n).value)
    decreases n
  {
    if n == 0 {
      NoCopyHere(c);
    } else {
      StepKeepsCopyFree(c);
      CopyFreeNeverParts(Step(c).value, n - 1);
    }
  }

  lemma {:induction false} NoCopyHere(c: Config)
    requires CopyFree(c.stmt)
    ensures !AtUnboundCopy(c)
    decreases c.stmt
  {
    if c.stmt.Sequence? { NoCopyHere(Config(c.stmt.first, c.env)); }
  }

  /** So for programs that never copy a bare variable, and for well-typed programs,
      big-step.rb as written returns an environment exactly when the machine halts
      with it. */
  lemma RubyAgreesWithMachine(s: Stmt, env: Env, ctx: Context)
    requires CopyFree(s) || (WellTyped(s, ctx) && Respects(env, ctx))
    ensures Agree(s, env)
  {
    AgreeIffNotPast(s, env);
    forall n: nat | StepN(Config(s, env), n).Some? ensures !AtUnboundCopy(StepN(Config(s, env), n).value) {
      NeverParts(s, env, ctx, n);
    }
  }

  lemma NeverParts(s: Stmt, env: Env, ctx: Context, n: nat)
    requires CopyFree(s) || (WellTyped(s, ctx) && Respects(env, ctx))
    requires StepN(Config(s, env), n).Some?
    ensures !AtUnboundCopy(StepN(Config(s, env), n).value)
  {
    if CopyFree(s) {
      CopyFreeNeverParts(Config(s, env), n);
    } else {
      RunSoundness(Config(s, env), ctx, n);
      if AtUnboundCopy(StepN(Config(s, env), n).value) {
        UnboundCopyIsStuck(StepN(Config(s, env), n).value);
      }
    }
  }

  /** A single assignment is where they part: Ruby's big step returns although the
      machine gets stuck exactly for a copy of an unbound variable. */
  lemma AssignPartsOnUnboundCopy(x: string, e: Expr, env: Env)
    ensures (exists m :: RubyReturns(Assign(x, e), env, Hash(m))) && GetsStuck(Config(Assign(x, e), env))
       <==> e.Variable? && e.name !in env
  {
    RubyEvalAgrees(e, env);
    StuckAgrees(Assign(x, e), env);
    var s := Assign(x, e);
    if e.Variable? && e.name !in env {
      assert RubyEvaluate(s, Lift(env), 0) == Returns(Hash(Lift(env).m[x := Nil]));
      assert RubyReturns(s, env, Hash(Lift(env).m[x := Nil]));
      assert Evaluate(s, env, 0) == Raised;
    }
  }

  /** The disagreement can be invisible in the result: x = y; x = 1, with y unbound,
      returns a plain environment in big-step.rb and fails in simple-step.rb. */
  lemma HiddenDisagreement(x: string, y: string, env: Env)
    requires y !in env
    ensures var s := Sequence(Assign(x, Variable(y)), Assign(x, Number(1)));
            RubyReturns(s, env, Lift(env[x := Number(1)])) && GetsStuck(Config(s, env))
  {
    var s := Sequence(Assign(x, Variable(y)), Assign(x, Number(1)));
    assert RubyEvaluate(s.first, Lift(env), 0) == Returns(Hash(Lift(env).m[x := Nil]));
    assert Lift(env).m[x := Nil][x := Val(Number(1))] == Lift(env[x := Number(1)]).m;
    assert RubyEvaluate(s, Lift(env), 0) == Returns(Lift(env[x := Number(1)]));
    assert Evaluate(s, env, 0) == Raised;
    StuckAgrees(s, env);
  }

  /** A condition that is a number: the machine gets stuck, Ruby's evaluation returns nil in
      place of an environment, and an assignment that comes next raises. */
  lemma NumberAsCondition(cond: Expr, a: Stmt, b: Stmt, env: Env, x: string, e: Expr)
    requires Eval(cond, env).Some? && Eval(cond, env).value.Number?
    ensures forall s :: s == If(cond, a, b) || s == While(cond, a) ==>
              && RubyReturns(s, env, NilEnv) && GetsStuck(Config(s, env))
              && forall f: nat :: f > 0 ==> RubyEvaluate(Sequence(s, Assign(x, e)), Lift(env), f) == Throws
  {
    RubyEvalAgrees(cond, env);
    forall s | s == If(cond, a, b) || s == While(cond, a)
      ensures RubyReturns(s, env, NilEnv) && GetsStuck(Config(s, env))
    {
      assert RubyEvaluate(s, Lift(env), 1) == Returns(NilEnv);
      assert Evaluate(s, env, 1) == Raised;
      StuckAgrees(s, env);
    }
  }
}
