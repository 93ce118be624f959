/** Two unsynchronised workers of threads.c. `counter++` is a load into a register
    followed by a store of the register plus one; a schedule says which worker
    moves next. */
module ThreadCounter {
  import opened Options

  datatype Worker = First | Second

  /** `done` iterations are behind the worker; a loaded register is a load whose
      store is still to come. */
  datatype Local = Local(done: nat, register: Option<int>)

  datatype State = State(counter: int, first: Local, second: Local) {
    function Of(w: Worker): Local {
      match w
      case First => first
      case Second => second
    }

    function With(w: Worker, l: Local): State {
      match w
      case First => this.(first := l)
      case Second => this.(second := l)
    }
  }

  const INIT := State(0, Local(0, None), Local(0, None))

  function Other(w: Worker): Worker {
    if w.First? then Second else First
  }

  /** The for loop of `worker`: nothing is left to do once `loops` rounds are done. */
  predicate Enabled(s: State, w: Worker, loops: int) {
    s.Of(w).register.Some? || s.Of(w).done < loops
  }

  function Move(s: State, w: Worker): State {
    var l := s.Of(w);
    match l.register
    case None => s.With(w, l.(register := Some(s.counter)))
    case Some(r) => s.(counter := r + 1).With(w, Local(l.done + 1, None))
  }

  /** The state after a schedule, if every move in it was possible. */
  function Run(s: State, schedule: seq<Worker>, loops: int): Option<State>
    decreases |schedule|
  {
    if schedule == [] then Some(s)
    else if Enabled(s, schedule[0], loops) then Run(Move(s, schedule[0]), schedule[1..], loops)
    else None
  }

  /** Both threads have returned, as after the two joins. */
  predicate Finished(s: State, loops: int) {
    !Enabled(s, First, loops) && !Enabled(s, Second, loops)
  }

  /** `value` is printed by some complete interleaving. */
  ghost predicate CanPrint(value: int, loops: int) {
    exists schedule :: Prints(schedule, value, loops)
  }

  ghost predicate Prints(schedule: seq<Worker>, value: int, loops: int) {
    var r := Run(INIT, schedule, loops);
    r.Some? && Finished(r.value, loops) && r.value.counter == value
  }

  // ----- every run stays in range -----

  /** What a worker's own progress says about its register. */
  predicate LocalInv(s: State, w: Worker, loops: int) {
    var l := s.Of(w);
    && (l.done <= loops || l.done == 0)
    && (l.register.Some? ==>
          && l.done < loops
          && 0 <= l.register.value <= s.first.done + s.second.done
          && (l.done >= 1 ==> l.register.value >= 1))
  }

  predicate Inv(s: State, loops: int) {
    && LocalInv(s, First, loops)
    && LocalInv(s, Second, loops)
    && 0 <= s.counter <= s.first.done + s.second.done
    && (s.first.done + s.second.done >= 1 ==> s.counter >= 1)
    && (s.first.done == s.second.done == loops && loops >= 2 ==> s.counter >= 2)
  }

  lemma InvPreserved(s: State, w: Worker, loops: int)
    requires Inv(s, loops) && Enabled(s, w, loops)
    ensures Inv(Move(s, w), loops)
  {
  }

  lemma {:induction false} InvAlways(s: State, schedule: seq<Worker>, loops: int)
    requires Inv(s, loops) && Run(s, schedule, loops).Some?
    ensures Inv(Run(s, schedule, loops).value, loops)
    decreases |schedule|
  {
    if schedule != [] {
      InvPreserved(s, schedule[0], loops);
      InvAlways(Move(s, schedule[0]), schedule[1..], loops);
    }
  }

  function Rounds(loops: int): nat {
    if loops < 0 then 0 else loops
  }

  /** The smallest value a pair of workers can leave behind: two lost-update storms
      cannot go below 2, except that a single round each can go to 1. */
  function Least(loops: int): nat {
    if loops <= 0 then 0 else if loops == 1 then 1 else 2
  }

  // ----- every value in range is reached -----

  lemma {:induction false} RunAppend(s: State, a: seq<Worker>, b: seq<Worker>, loops: int)
    requires Run(s, a, loops).Some?
    ensures Run(s, a + b, loops) == Run(Run(s, a, loops).value, b, loops)
    decreases |a|
  {
    if a == [] {
      assert a + b == b;
    } else {
      assert (a + b)[1..] == a[1..] + b;
      RunAppend(Move(s, a[0]), a[1..], b, loops);
    }
  }

  /** `n` undisturbed rounds of one worker. */
  function Serial(w: Worker, n: nat): seq<Worker> {
    if n == 0 then [] else [w, w] + Serial(w, n - 1)
  }

  lemma {:induction false} SerialRuns(s: State, w: Worker, n: nat, loops: int)
    requires s.Of(w).register.None? && s.Of(w).done + n <= loops
    ensures Run(s, Serial(w, n), loops)
         == Some(s.(counter := s.counter + n).With(w, Local(s.Of(w).done + n, None)))
    decreases n
  {
    if n > 0 {
      var s1 := Move(s, w);
      var s2 := Move(s1, w);
      var rest := Serial(w, n);
      assert rest[1..] == [w] + Serial(w, n - 1);
      assert rest[1..][1..] == Serial(w, n - 1);
      assert Run(s, rest, loops) == Run(s1, rest[1..], loops) == Run(s2, rest[1..][1..], loops);
      SerialRuns(s2, w, n - 1, loops);
    }
  }

  /** p rounds of the first worker and q of the second count fully; then the first
      overwrites all later rounds of the second but its last, and the second's last
      store overwrites the remaining rounds of the first. */
  function Losing(p: nat, q: nat, loops: nat): seq<Worker>
    requires p < loops && q < loops
  {
    (Serial(First, p) + Serial(Second, q))
    + ([First] + Serial(Second, loops - 1 - q) + [First])
    + ([Second] + Serial(First, loops - 1 - p) + [Second])
  }

  /** A load, n undisturbed rounds of the other worker, and the store that wipes them out. */
  lemma Overwrites(s: State, w: Worker, n: nat, loops: int)
    requires s.first.register.None? && s.second.register.None?
    requires s.Of(w).done < loops && s.Of(Other(w)).done + n <= loops
    ensures Run(s, [w] + Serial(Other(w), n) + [w], loops)
         == Some(s.(counter := s.counter + 1)
                  .With(w, Local(s.Of(w).done + 1, None))
                  .With(Other(w), Local(s.Of(Other(w)).done + n, None)))
  {
    var loaded := Move(s, w);
    assert Run(s, [w], loops) == Run(loaded, [w][1..], loops) == Some(loaded);
    RunAppend(s, [w], Serial(Other(w), n), loops);
    SerialRuns(loaded, Other(w), n, loops);
    var later := Run(loaded, Serial(Other(w), n), loops).value;
    RunAppend(s, [w] + Serial(Other(w), n), [w], loops);
    assert Run(later, [w], loops) == Run(Move(later, w), [w][1..], loops) == Some(Move(later, w));
  }

  lemma LosingPrints(p: nat, q: nat, loops: nat)
    requires p < loops && q < loops
    ensures Prints(Losing(p, q, loops), p + q + 2, loops)
  {
    var a, b := Serial(First, p), Serial(Second, q);
    var c := [First] + Serial(Second, loops - 1 - q) + [First];
    var d := [Second] + Serial(First, loops - 1 - p) + [Second];
    SerialRuns(INIT, First, p, loops);
    var s1 := State(p, Local(p, None), Local(0, None));
    SerialRuns(s1, Second, q, loops);
    RunAppend(INIT, a, b, loops);
    var s2 := State(p + q, Local(p, None), Local(q, None));
    assert Run(INIT, a + b, loops) == Some(s2);
    Overwrites(s2, First, loops - 1 - q, loops);
    RunAppend(INIT, a + b, c, loops);
    var s3 := State(p + q + 1, Local(p + 1, None), Local(loops - 1, None));
    assert Run(INIT, a + b + c, loops) == Some(s3);
    Overwrites(s3, Second, loops - 1 - p, loops);
    RunAppend(INIT, a + b + c, d, loops);
  }

  lemma OneRoundCanLose()
    ensures Prints([First, Second, First, Second], 1, 1)
  {
    var s1 := State(0, Local(0, Some(0)), Local(0, None));
    var s2 := State(0, Local(0, Some(0)), Local(0, Some(0)));
    var s3 := State(1, Local(1, None), Local(0, Some(0)));
    var s4 := State(1, Local(1, None), Local(1, None));
    var all := [First, Second, First, Second];
    assert all[1..] == [Second, First, Second];
    assert all[1..][1..] == [First, Second];
    assert all[1..][1..][1..] == [Second];
    assert all[1..][1..][1..][1..] == [];
    assert Run(s4, [], 1) == Some(s4);
    assert Run(s3, [Second], 1) == Run(s4, [Second][1..], 1);
    assert Run(s2, all[1..][1..], 1) == Run(s3, all[1..][1..][1..], 1);
    assert Run(s1, all[1..], 1) == Run(s2, all[1..][1..], 1);
  }

  /** The values that two workers can print are exactly Least(loops) .. 2 * loops:
      0 for no rounds, {1, 2} for one, {2, ..., 2 * loops} beyond. In particular the
      counter never exceeds 2 * loops, so it does not overflow an int that holds it. */
  lemma PrintableValues(value: int, loops: int)
    ensures CanPrint(value, loops) <==> Least(loops) <= value <= 2 * Rounds(loops)
  {
    if CanPrint(value, loops) {
      var schedule :| Prints(schedule, value, loops);
      InvAlways(INIT, schedule, loops);
    }
    if Least(loops) <= value <= 2 * Rounds(loops) {
      if loops <= 0 {
        assert Prints([], 0, loops);
      } else if value == 1 {
        OneRoundCanLose();
      } else {
        var p := if value - 2 < loops then value - 2 else loops - 1;
        LosingPrints(p, value - 2 - p, loops);
      }
    }
  }

  /** Moves still to be made: two for each round, one of them behind a loaded worker. */
  function MovesLeft(l: Local, loops: int): int {
    2 * (Rounds(loops) - l.done) - (if l.register.Some? then 1 else 0)
  }

  /** No schedule goes on forever: every complete interleaving has exactly 4 * loops
      moves, and no other is longer. */
  lemma {:induction false} RunLength(s: State, schedule: seq<Worker>, loops: int)
    requires Inv(s, loops) && Run(s, schedule, loops).Some?
    ensures var r := Run(s, schedule, loops).value;
            |schedule| == MovesLeft(s.first, loops) + MovesLeft(s.second, loops)
                        - MovesLeft(r.first, loops) - MovesLeft(r.second, loops)
    decreases |schedule|
  {
    if schedule != [] {
      InvPreserved(s, schedule[0], loops);
      RunLength(Move(s, schedule[0]), schedule[1..], loops);
    }
  }

  lemma CompleteRunLength(schedule: seq<Worker>, loops: int)
    requires Run(INIT, schedule, loops).Some?
    ensures |schedule| <= 4 * Rounds(loops)
    ensures |schedule| == 4 * Rounds(loops) <==> Finished(Run(INIT, schedule, loops).value, loops)
  {
    InvAlways(INIT, schedule, loops);
    RunLength(INIT, schedule, loops);
  }
}
