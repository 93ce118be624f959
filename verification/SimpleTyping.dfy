/** A number/Boolean typing of SIMPLE under which no run gets stuck. */
module SimpleTyping {
  import opened Options
  import opened SimpleSyntax
  import opened SimpleSmallStep
  import opened SimpleBigStep
  import opened SimpleEquivalence

  datatype Type = NumberType | BooleanType

  type Context = map<string, Type>

  function TypeOf(e: Expr, ctx: Context): Option<Type> {
    match e
    case Number(_) => Some(NumberType)
    case Boolean(_) => Some(BooleanType)
    case Variable(x) => if x in ctx then Some(ctx[x]) else None
    case Binary(op, l, r) =>
      if TypeOf(l, ctx) == Some(NumberType) == TypeOf(r, ctx) then
        Some(if op.LessThan? then BooleanType else NumberType)
      else None
  }

  predicate WellTyped(s: Stmt, ctx: Context) {
    match s
    case DoNothing => true
    case Assign(x, e) => x in ctx && TypeOf(e, ctx) == Some(ctx[x])
    case If(cond, a, b) => TypeOf(cond, ctx) == Some(BooleanType) && WellTyped(a, ctx) && WellTyped(b, ctx)
    case Sequence(a, b) => WellTyped(a, ctx) && WellTyped(b, ctx)
    case While(cond, body) => TypeOf(cond, ctx) == Some(BooleanType) && WellTyped(body, ctx)
  }

  /** Every variable of the context is bound to a value of its type. */
  predicate Respects(env: Env, ctx: Context) {
    forall x :: x in ctx ==> x in env && TypeOf(env[x], ctx) == Some(ctx[x])
  }

  /** A well-typed expression is a value of its type or reduces, keeping the type. */
  lemma {:induction false} ExprSoundness(e: Expr, env: Env, ctx: Context)
    requires TypeOf(e, ctx).Some? && Respects(env, ctx) && Reducible(e)
    ensures Reduce(e, env).Some? && TypeOf(Reduce(e, env).value, ctx) == TypeOf(e, ctx)
  {
    match e
    case Variable(_) =>
    case Binary(op, l, r) =>
      if Reducible(l) {
        ExprSoundness(l, env, ctx);
      } else if Reducible(r) {
        ExprSoundness(r, env, ctx);
      }
  }

  /** A well-typed configuration is finished or steps to a well-typed one; in
      particular the unfolding of a loop is well-typed again. */
  lemma {:induction false} StepSoundness(c: Config, ctx: Context)
    requires WellTyped(c.stmt, ctx) && Respects(c.env, ctx)
    ensures !Stuck(c)
    ensures Step(c).Some? ==> WellTyped(Step(c).value.stmt, ctx) && Respects(Step(c).value.env, ctx)
    decreases c.stmt
  {
    match c.stmt
    case DoNothing =>
    case Assign(x, e) =>
      if Reducible(e) { ExprSoundness(e, c.env, ctx); }
    case If(cond, _, _) =>
      if Reducible(cond) { ExprSoundness(cond, c.env, ctx); }
    case Sequence(a, _) =>
      StepSoundness(Config(a, c.env), ctx);
    case While(_, _) =>
  }

  /** Type soundness of whole runs: every reachable configuration is well-typed
      and is either finished or can step. */
  lemma {:induction false} RunSoundness(c: Config, ctx: Context, n: nat)
    requires WellTyped(c.stmt, ctx) && Respects(c.env, ctx) && StepN(c, n).Some?
    ensures var r := StepN(c, n).value;
            WellTyped(r.stmt, ctx) && Respects(r.env, ctx) && (r.stmt == DoNothing || Step(r).Some?)
    decreases n
  {
    StepSoundness(c, ctx);
    if n > 0 {
      RunSoundness(Step(c).value, ctx, n - 1);
    }
  }

  /** A well-typed program never raises: both interpreters either finish, with an
      environment that still respects the typing, or run forever. */
  lemma WellTypedNeverRaises(s: Stmt, env: Env, ctx: Context)
    requires WellTyped(s, ctx) && Respects(env, ctx)
    ensures !GetsStuck(Config(s, env)) && !Raises(s, env)
    ensures forall env': Env :: EvaluatesTo(s, env, env') ==> Respects(env', ctx)
    ensures RunsForever(Config(s, env)) || exists env': Env :: Halts(Config(s, env), env')
  {
    var c := Config(s, env);
    InterpretersAgree(s, env);
    if GetsStuck(c) {
      var n: nat :| StuckAfter(c, n);
      RunSoundness(c, ctx, n);
    }
    forall env': Env | EvaluatesTo(s, env, env') ensures Respects(env', ctx) {
      assert Halts(c, env');
      var n: nat :| HaltsIn(c, n, env');
      RunSoundness(c, ctx, n);
    }
    if !RunsForever(c) {
      var n: nat :| StepN(c, n).None?;
      var m := LastStep(c, n);
      RunSoundness(c, ctx, m);
      assert HaltsIn(c, m, StepN(c, m).value.env);
      assert Halts(c, StepN(c, m).value.env);
    }
  }

  lemma {:induction false} LastStep(c: Config, n: nat) returns (m: nat)
    requires StepN(c, n).None?
    ensures StepN(c, m).Some? && Step(StepN(c, m).value).None?
    decreases n
  {
    if Step(c).None? {
      m := 0;
    } else {
      m := LastStep(Step(c).value, n - 1);
      m := m + 1;
    }
  }

  // ----- the types rule out nothing else -----

  predicate Mentions(e: Expr, ctx: Context) {
    match e
    case Variable(x) => x in ctx
    case Binary(_, l, r) => Mentions(l, ctx) && Mentions(r, ctx)
    case _ => true
  }

  /** An expression over variables of the context has a value if and only if it has a type,
      and the value is of that type. */
  lemma {:induction false} TypedIffValued(e: Expr, env: Env, ctx: Context)
    requires Mentions(e, ctx) && Respects(env, ctx)
    ensures Eval(e, env).Some? <==> TypeOf(e, ctx).Some?
    ensures Eval(e, env).Some? ==> TypeOf(Eval(e, env).value, ctx) == TypeOf(e, ctx)
  {
    match e
    case Binary(_, l, r) =>
      TypedIffValued(l, env, ctx);
      TypedIffValued(r, env, ctx);
    case _ =>
  }
}
