/** The reduction machine of simple-step.rb. `None` stands for a Ruby exception:
    a configuration that cannot be reduced although it is marked reducible. */
module SimpleSmallStep {
  import opened Options
  import opened SimpleSyntax

  function Reduce(e: Expr, env: Env): Option<Expr> {
    match e
    case Number(_) => None
    case Boolean(_) => None
    case Variable(x) => if x in env then Some(env[x]) else None
    case Binary(op, l, r) =>
      if Reducible(l) then
        match Reduce(l, env)
        case None => None
        case Some(l') => Some(Binary(op, l', r))
      else if Reducible(r) then
        match Reduce(r, env)
        case None => None
        case Some(r') => Some(Binary(op, l, r'))
      else
        Apply(op, l, r)
  }

  /** The two fields of the Ruby Machine. */
  datatype Config = Config(stmt: Stmt, env: Env)

  /** One call of `statement.reduce(environment)`. */
  function Step(c: Config): Option<Config>
    decreases c.stmt
  {
    match c.stmt
    case DoNothing => None
    case Assign(x, e) =>
      if Reducible(e) then
        match Reduce(e, c.env)
        case None => None
        case Some(e') => Some(Config(Assign(x, e'), c.env))
      else
        Some(Config(DoNothing, c.env[x := e]))
    case If(cond, a, b) =>
      if Reducible(cond) then
        match Reduce(cond, c.env)
        case None => None
        case Some(cond') => Some(Config(If(cond', a, b), c.env))
      else if cond == Boolean(true) then
        Some(Config(a, c.env))
      else if cond == Boolean(false) then
        Some(Config(b, c.env))
      else
        None
    case Sequence(a, b) =>
      if a == DoNothing then
        Some(Config(b, c.env))
      else
        (match Step(Config(a, c.env))
         case None => None
         case Some(c') => Some(Config(Sequence(c'.stmt, b), c'.env)))
    case While(cond, body) =>
      Some(Config(If(cond, Sequence(body, c.stmt), DoNothing), c.env))
  }

  /** The configuration after exactly `n` steps, if the machine gets that far. */
  function StepN(c: Config, n: nat): Option<Config>
    decreases n
  {
    if n == 0 then Some(c)
    else
      match Step(c)
      case None => None
      case Some(c') => StepN(c', n - 1)
  }

  function ReduceN(e: Expr, env: Env, n: nat): Option<Expr>
    decreases n
  {
    if n == 0 then Some(e)
    else
      match Reduce(e, env)
      case None => None
      case Some(e') => ReduceN(e', env, n - 1)
  }

  predicate Stuck(c: Config) {
    c.stmt != DoNothing && Step(c).None?
  }

  /** The three ways a run can go. */
  ghost predicate HaltsIn(c: Config, n: nat, env': Env) {
    StepN(c, n) == Some(Config(DoNothing, env'))
  }

  ghost predicate Halts(c: Config, env': Env) {
    exists n: nat :: HaltsIn(c, n, env')
  }

  ghost predicate StuckAfter(c: Config, n: nat) {
    StepN(c, n).Some? && Stuck(StepN(c, n).value)
  }

  ghost predicate GetsStuck(c: Config) {
    exists n: nat :: StuckAfter(c, n)
  }

  ghost predicate RunsForever(c: Config) {
    forall n: nat :: StepN(c, n).Some?
  }

  /** A run of m + n steps is a run of m steps followed by one of n. */
  lemma {:induction false} StepNAppend(c: Config, m: nat, n: nat)
    requires StepN(c, m).Some?
    ensures StepN(c, m + n) == StepN(StepN(c, m).value, n)
    decreases m
  {
    if m > 0 {
      StepNAppend(Step(c).value, m - 1, n);
    }
  }

  /** A run that reached step n went through every earlier step. */
  lemma StepNPrefix(c: Config, m: nat, n: nat)
    requires m <= n && StepN(c, n).Some?
    ensures StepN(c, m).Some?
    decreases m
  {
    if m > 0 {
      StepNPrefix(Step(c).value, m - 1, n - 1);
    }
  }

  /** Steps of the first statement lift to the sequence, one for one. */
  lemma {:induction false} SequenceLift(a: Stmt, b: Stmt, env: Env, k: nat)
    requires StepN(Config(a, env), k).Some?
    ensures var c := StepN(Config(a, env), k).value;
            StepN(Config(Sequence(a, b), env), k) == Some(Config(Sequence(c.stmt, b), c.env))
    decreases k
  {
    if k > 0 {
      var c' := Step(Config(a, env)).value;
      SequenceLift(c'.stmt, b, c'.env, k - 1);
    }
  }

  /** The machine is deterministic and stops only at DoNothing, so a halting run
      has exactly one length and one final environment. */
  lemma {:induction false} HaltingIsUnique(c: Config, m: nat, n: nat, e1: Env, e2: Env)
    requires HaltsIn(c, m, e1) && HaltsIn(c, n, e2)
    ensures m == n && e1 == e2
    decreases m
  {
    if m != 0 && n != 0 {
      HaltingIsUnique(Step(c).value, m - 1, n - 1, e1, e2);
    }
  }

  /** A halting run of a sequence splits, in one way only, into a halting run of
      its first statement, one step that drops the DoNothing, and a halting run
      of its second statement. */
  lemma {:induction false} SequenceSplits(a: Stmt, b: Stmt, env: Env, n: nat, env': Env)
    returns (k: nat, mid: Env)
    requires HaltsIn(Config(Sequence(a, b), env), n, env')
    ensures k < n && HaltsIn(Config(a, env), k, mid) && HaltsIn(Config(b, mid), n - k - 1, env')
    ensures forall k': nat, mid': Env :: HaltsIn(Config(a, env), k', mid') ==> k' == k && mid' == mid
    decreases n
  {
    if a == DoNothing {
      k, mid := 0, env;
      assert HaltsIn(Config(a, env), 0, env);
    } else {
      var c' := Step(Config(a, env)).value;
      k, mid := SequenceSplits(c'.stmt, b, c'.env, n - 1, env');
      k := k + 1;
    }
    forall k': nat, mid': Env | HaltsIn(Config(a, env), k', mid')
      ensures k' == k && mid' == mid
    {
      HaltingIsUnique(Config(a, env), k', k, mid', mid);
    }
  }

  /** The converse: two halting runs compose, and the step counts add with one. */
  lemma SequenceComposes(a: Stmt, b: Stmt, env: Env, k: nat, mid: Env, m: nat, env': Env)
    requires HaltsIn(Config(a, env), k, mid) && HaltsIn(Config(b, mid), m, env')
    ensures HaltsIn(Config(Sequence(a, b), env), k + 1 + m, env')
  {
    var c := Config(Sequence(a, b), env);
    SequenceLift(a, b, env, k);
    StepNAppend(c, k, 1 + m);
    assert k + 1 + m == k + (1 + m);
  }
}
