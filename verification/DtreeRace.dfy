/** What a rename may race with, exactly, in the simplest case: a directory is made, and
    before the program has read of it a monitored directory is renamed. Either the program
    always puts the cache right, or it can come to rest with a wrong cache, and which of
    the two is decided by where the new directory and the renamed one are. */
module DtreeRace {
  import opened Options
  import opened PathNames
  import opened DirTree
  import opened WatchCache
  import opened EventHandler
  import opened DtreeInvariant
  import opened DtreeProgram
  import opened DtreeSteps
  import opened DtreeLeaving
  import opened DtreeProtocol
  import opened DtreeConvergence

  /** Directory x is made as entry n of a; then b is renamed to entry m of q. */
  datatype Race = Race(a: Ino, x: Ino, n: string, b: Ino, q: Ino, m: string)

  function Dirs1(dirs: Dirs, r: Race): Dirs {
    dirs[r.x := Child(r.a, r.n)]
  }

  function Dirs2(dirs: Dirs, r: Race): Dirs {
    Dirs1(dirs, r)[r.b := Child(r.q, r.m)]
  }

  /** Both can be done, in monitored directories, wherever the rename leads. */
  ghost predicate CanRace(dirs: Dirs, r: Race) {
    && Tree(dirs) && r.a in dirs && Monitored(dirs, r.a) && CanMkdir(dirs, r.x, r.a, r.n)
    && Tree(Dirs1(dirs, r)) && CanRename(Dirs1(dirs, r), r.b, r.q, r.m) && Monitored(Dirs1(dirs, r), r.b)
  }

  // ----- the trees -----

  /** Where the new directory is announced. */
  ghost function NewPath(dirs: Dirs, r: Race): string
    requires Tree(dirs) && r.a in dirs
  {
    Join(Path(dirs, r.a), r.n)
  }

  lemma NewIsThere(dirs: Dirs, r: Race)
    requires CanRace(dirs, r)
    ensures Monitored(Dirs1(dirs, r), r.x) && Path(Dirs1(dirs, r), r.x) == NewPath(dirs, r)
  {
    MkdirPaths(dirs, r.x, r.a, r.n, r.a);
  }

  /** The old parent of the renamed directory, and the new one if it is not x. */
  lemma OldPlaces(dirs: Dirs, r: Race)
    requires CanRace(dirs, r)
    ensures var p := Dirs1(dirs, r)[r.b].parent;
            p in dirs && Monitored(dirs, p) && Path(Dirs1(dirs, r), p) == Path(dirs, p)
    ensures r.q != r.x ==> r.q in dirs && Monitored(Dirs1(dirs, r), r.q) == Monitored(dirs, r.q)
    ensures r.q != r.x ==> Path(Dirs1(dirs, r), r.q) == Path(dirs, r.q)
  {
    var p := Dirs1(dirs, r)[r.b].parent;
    assert IsRank(dirs, Rank(dirs));
    assert IsRank(Dirs1(dirs, r), Rank(Dirs1(dirs, r)));
    MkdirPaths(dirs, r.x, r.a, r.n, p);
    if r.q != r.x { MkdirPaths(dirs, r.x, r.a, r.n, r.q); }
  }

  /** The new directory is empty. */
  lemma {:induction false} NothingBelowNew(dirs: Dirs, r: Race, y: Ino)
    requires CanRace(dirs, r) && y in Dirs1(dirs, r)
    ensures Below(Dirs1(dirs, r), r.x, y) <==> y == r.x
    decreases Rank(Dirs1(dirs, r))[y]
  {
    var dirs1 := Dirs1(dirs, r);
    if y != r.x && dirs1[y].Child? {
      assert IsRank(dirs, Rank(dirs));
      NothingBelowNew(dirs, r, dirs1[y].parent);
    }
  }

  /** If it moves along, the announced path leads nowhere after the rename. */
  lemma NewPathLeadsNowhere(dirs: Dirs, r: Race, y: Ino)
    requires CanRace(dirs, r) && Tree(Dirs2(dirs, r)) && Below(Dirs1(dirs, r), r.b, r.x)
    ensures !Resolves(Dirs2(dirs, r), NewPath(dirs, r), y)
  {
    var dirs1 := Dirs1(dirs, r);
    NewIsThere(dirs, r);
    if y in dirs1 {
      RenamePaths(dirs1, r.b, r.q, r.m, y);
      if Below(dirs1, r.b, y) {
        CoversIffBelow(dirs1, r.b, r.x);
        if Monitored(dirs1, r.q) {
          NothingBelowVacant(dirs1, r.q, r.m, r.x);
          CoversIffBelow(dirs1, r.b, y);
          CoversRebase(Path(dirs1, y), Path(dirs1, r.b), Join(Path(dirs1, r.q), r.m));
        }
      } else if Monitored(dirs1, y) && Path(dirs1, y) == NewPath(dirs, r) {
        PathInjective(dirs1, y, r.x);
      }
    }
  }

  // ----- after the first change -----

  ghost function Made(s: State, r: Race): State
    requires CanRace(s.dirs, r) && Idle(s)
  {
    Done(s, Mkdir(r.x, r.a, r.n))
  }

  /** In an idle state everything monitored is watched, and nothing else. */
  lemma IdleWatches(s: State, r: Race)
    requires CanRace(s.dirs, r) && Good(s) && Idle(s)
    ensures CachedAs(s, r.a) && CachedAs(s, Dirs1(s.dirs, r)[r.b].parent) && r.x !in s.watches
    ensures r.q in s.watches <==> r.q != r.x && Monitored(Dirs1(s.dirs, r), r.q)
    ensures r.q in s.watches ==> CachedAs(s, r.q)
  {
    QuietIsInSync(ViewOf(s));
    OldPlaces(s.dirs, r);
    FoundWatched(s, r.a);
    FoundWatched(s, Dirs1(s.dirs, r)[r.b].parent);
    if r.q in s.watches { FoundWatched(s, r.q); }
  }

  lemma MadeIs(s: State, r: Race)
    requires CanRace(s.dirs, r) && Idle(s) && r.a in s.watches
    ensures Made(s, r) == s.(dirs := Dirs1(s.dirs, r), queue := [CreateEvent(s.watches[r.a], r.n)])
  {
  }

  lemma MadeGood(s: State, r: Race)
    requires CanRace(s.dirs, r) && Good(s) && Idle(s)
    ensures Good(Made(s, r))
  {
    MkdirInv(ViewOf(s), r.x, r.a, r.n);
    DoneView(s, Mkdir(r.x, r.a, r.n));
  }

  /** The one path that the program has to look into is that of the new directory. */
  lemma OnlyNewPending(s: State, r: Race, path: string)
    requires CanRace(s.dirs, r) && Idle(s) && CachedAs(s, r.a)
    ensures Pending(ViewOf(Made(s, r)), path) <==> path == NewPath(s.dirs, r)
  {
    var v := ViewOf(Made(s, r));
    MadeIs(s, r);
    assert Announces(v, 0, path) <==> path == NewPath(s.dirs, r);
  }

  /** A new directory is clear of a rename unless it moves along or is the new parent. */
  lemma ClearOfNew(dirs: Dirs, r: Race)
    requires CanRace(dirs, r)
    ensures OutOfTheWay(Dirs1(dirs, r), r.b, r.q, r.m, NewPath(dirs, r))
       <==> !Below(Dirs1(dirs, r), r.b, r.x) && r.q != r.x
  {
    var dirs1 := Dirs1(dirs, r);
    NewIsThere(dirs, r);
    CoversIffBelow(dirs1, r.b, r.x);
    CoversIffBelow(dirs1, r.x, r.b);
    NothingBelowNew(dirs, r, r.b);
    if Monitored(dirs1, r.q) {
      NothingBelowVacant(dirs1, r.q, r.m, r.x);
      NothingBelowNew(dirs, r, r.q);
      CoversIffBelow(dirs1, r.x, r.q);
      CoversJoin(NewPath(dirs, r), Path(dirs1, r.q), r.m);
    }
  }

  lemma ClearIff(s: State, r: Race)
    requires CanRace(s.dirs, r) && Good(s) && Idle(s)
    ensures Clear(ViewOf(Made(s, r)), r.b, r.q, r.m)
       <==> !Below(Dirs1(s.dirs, r), r.b, r.x) && r.q != r.x
  {
    var v := ViewOf(Made(s, r));
    IdleWatches(s, r);
    MadeIs(s, r);
    ClearOfNew(s.dirs, r);
    forall path ensures Pending(v, path) <==> path == NewPath(s.dirs, r) {
      OnlyNewPending(s, r, path);
    }
  }

  // ----- after both -----

  predicate Placed(s: State, r: Race) {
    && r.b in Dirs1(s.dirs, r) && Dirs1(s.dirs, r)[r.b].Child?
    && r.a in s.watches && Dirs1(s.dirs, r)[r.b].parent in s.watches
  }

  /** The events of the rename. */
  function News(s: State, r: Race): seq<Event>
    requires Placed(s, r)
  {
    var entry := Dirs1(s.dirs, r)[r.b];
    [MovedFromEvent(s.watches[entry.parent], s.cookie, entry.name)]
    + if r.q in s.watches then [MovedToEvent(s.watches[r.q], s.cookie, r.m)] else []
  }

  function Raced(s: State, r: Race): State
    requires Placed(s, r)
  {
    s.(dirs := Dirs2(s.dirs, r), queue := [CreateEvent(s.watches[r.a], r.n)] + News(s, r), cookie := s.cookie + 1)
  }

  lemma RacedIs(s: State, r: Race)
    requires CanRace(s.dirs, r) && Idle(s) && Placed(s, r)
    ensures CanDo(Made(s, r), Rename(r.b, r.q, r.m))
    ensures Done(Made(s, r), Rename(r.b, r.q, r.m)) == Raced(s, r)
  {
    MadeIs(s, r);
    DoneRename(Made(s, r), r.b, r.q, r.m);
  }

  /** The program then looks for the new directory where it was announced. */
  ghost function Searching(s: State, r: Race): State
    requires Placed(s, r) && Tree(s.dirs) && r.a in s.dirs
  {
    Raced(s, r).(queue := News(s, r), work := {NewPath(s.dirs, r)})
  }

  /** In an idle state nothing is cached under the path of an entry that is vacant. */
  lemma VacantNotCached(s: State, a: Ino, n: string)
    requires Good(s) && Idle(s) && a in s.dirs && Monitored(s.dirs, a) && IsName(n) && Vacant(s.dirs, a, n)
    ensures !HasPath(Contents(s.slots), Join(Path(s.dirs, a), n))
  {
    QuietIsInSync(ViewOf(s));
    forall w | w in Contents(s.slots) ensures Contents(s.slots)[w] != Join(Path(s.dirs, a), n) {
      var d := LiveIsWatched(ViewOf(s), w);
      NothingBelowVacant(s.dirs, a, n, d);
    }
  }

  lemma SearchOutcome(s: State, r: Race)
    requires CanRace(s.dirs, r) && Good(s) && Idle(s) && Placed(s, r) && CachedAs(s, r.a)
    ensures HeadOutcome(Raced(s, r))
         == Outcome(Consumed(1), s.slots, RootPaths(Dirs2(s.dirs, r)), Some(NewPath(s.dirs, r)), [])
  {
    var s2 := Raced(s, r);
    VacantNotCached(s, r.a, r.n);
    HandleArrival(s.slots, RootPaths(s2.dirs), s2.queue[0], NextOf(s2.queue), s2.watches.Values);
  }

  lemma AppliedAlone(s: State, o: Outcome, path: string, s': State)
    requires s.queue != [] && s.work == {}
    requires o == Outcome(Consumed(1), s.slots, o.roots, Some(path), [])
    ensures Applied(s, o, s') <==> s' == s.(queue := s.queue[1..], work := {path})
  {
    assert (map i | i in s.watches && s.watches[i] !in [] :: s.watches[i]) == s.watches;
    assert s.queue[1..] + IgnoredFor([]) == s.queue[1..];
  }

  lemma SearchIsNext(s: State, r: Race, s': State)
    requires CanRace(s.dirs, r) && Good(s) && Idle(s) && Placed(s, r) && CachedAs(s, r.a)
    ensures ProgramStep(Raced(s, r), s') <==> s' == Searching(s, r)
    ensures HandleStep(Raced(s, r), Searching(s, r))
  {
    var s2 := Raced(s, r);
    SearchOutcome(s, r);
    assert s2.queue[1..] == News(s, r);
    AppliedAlone(s2, HeadOutcome(s2), NewPath(s.dirs, r), s');
    AppliedAlone(s2, HeadOutcome(s2), NewPath(s.dirs, r), Searching(s, r));
  }

  lemma Race2Tree(dirs: Dirs, r: Race)
    requires CanRace(dirs, r)
    ensures Tree(Dirs2(dirs, r)) && RootPaths(Dirs2(dirs, r)) == RootPaths(dirs)
  {
    RenameKeepsRoots(Dirs1(dirs, r), r.b, r.q, r.m);
    SameRoots(dirs, Dirs1(dirs, r));
  }

  /** If the new directory has moved along, the search is in vain. */
  lemma SearchFails(s: State, r: Race, s': State)
    requires CanRace(s.dirs, r) && Idle(s) && Placed(s, r) && Below(Dirs1(s.dirs, r), r.b, r.x)
    ensures var s4 := Searching(s, r).(work := {});
            (ProgramStep(Searching(s, r), s') <==> s' == s4) && VisitStep(Searching(s, r), s4)
  {
    var s3, path := Searching(s, r), NewPath(s.dirs, r);
    Race2Tree(s.dirs, r);
    forall y ensures !Resolves(s3.dirs, path, y) {
      NewPathLeadsNowhere(s.dirs, r, y);
    }
    assert s3.work - {path} == {};
    assert forall t :: VisitPath(s3, path, t) <==> t == s3.(work := {});
  }

  // ----- the new directory moves within the trees: the cache goes wrong -----

  /** The cache is right. */
  ghost predicate Right(s: State) {
    Tree(s.dirs) && InSync(ViewOf(s))
  }

  /** A run of the program that comes to rest with a wrong cache. */
  ghost predicate GoesWrong(s: State, run: seq<State>) {
    ProgramRun(run) && run[0] == s && Idle(run[|run| - 1]) && !Right(run[|run| - 1])
  }

  lemma ThreeSteps(a: State, b: State, c: State, d: State) returns (run: seq<State>)
    requires ProgramStep(a, b) && ProgramStep(b, c) && ProgramStep(c, d)
    ensures ProgramRun(run) && run[0] == a && run[|run| - 1] == d
  {
    run := [d];
    Prepend(c, run);
    run := [c] + run;
    Prepend(b, run);
    run := [b] + run;
    Prepend(a, run);
    run := [a] + run;
  }

  lemma AppliedPair(s: State, o: Outcome)
    requires |s.queue| == 2 && s.work == {}
    requires o.verdict == Consumed(2) && o.removed == [] && o.scan == None
    ensures Applied(s, o, s.(slots := o.slots, queue := []))
  {
    assert (map i | i in s.watches && s.watches[i] !in [] :: s.watches[i]) == s.watches;
    assert s.queue[2..] + IgnoredFor([]) == [];
  }

  /** The rename itself is handled as always. */
  lemma PairHandled(s: State, r: Race) returns (slots: seq<Slot>)
    requires CanRace(s.dirs, r) && Valid(s.slots) && Idle(s) && Placed(s, r) && r.q in s.watches
    requires CachedAs(s, Dirs1(s.dirs, r)[r.b].parent) && CachedAs(s, r.q)
    ensures HandleStep(Searching(s, r).(work := {}), Searching(s, r).(slots := slots, queue := [], work := {}))
  {
    var s4, entry := Searching(s, r).(work := {}), Dirs1(s.dirs, r)[r.b];
    HandlePair(s.slots, RootPaths(s4.dirs), s.watches[entry.parent], s.watches[r.q], s.cookie, entry.name, r.m,
               s.watches.Values);
    var o := HeadOutcome(s4);
    slots := o.slots;
    AppliedPair(s4, o);
  }

  /** A state whose trees have a monitored directory that is not watched is wrong. */
  lemma UnwatchedIsWrong(s: State, y: Ino)
    requires Tree(s.dirs) && y in s.dirs && Monitored(s.dirs, y) && y !in s.watches
    ensures !Right(s)
  {
  }

  lemma StillMonitored(dirs: Dirs, r: Race, y: Ino)
    requires CanRace(dirs, r) && Tree(Dirs2(dirs, r)) && y in Dirs1(dirs, r)
    ensures Monitored(Dirs2(dirs, r), y)
         == Monitored(Dirs1(dirs, r), if Below(Dirs1(dirs, r), r.b, y) then r.q else y)
  {
    RenamePaths(Dirs1(dirs, r), r.b, r.q, r.m, y);
  }

  lemma MovedAlongGoesWrong(s: State, r: Race) returns (run: seq<State>)
    requires CanRace(s.dirs, r) && Good(s) && Idle(s) && Placed(s, r)
    requires Below(Dirs1(s.dirs, r), r.b, r.x) && Monitored(Dirs1(s.dirs, r), r.q)
    ensures GoesWrong(Raced(s, r), run)
  {
    IdleWatches(s, r);
    var slots := PairHandled(s, r);
    var s2, s3 := Raced(s, r), Searching(s, r);
    var s4, s5 := s3.(work := {}), s3.(slots := slots, queue := [], work := {});
    SearchIsNext(s, r, s3);
    SearchFails(s, r, s4);
    run := ThreeSteps(s2, s3, s4, s5);
    Race2Tree(s.dirs, r);
    NewIsThere(s.dirs, r);
    StillMonitored(s.dirs, r, r.x);
    UnwatchedIsWrong(s5, r.x);
  }

  // ----- the new directory moves out: the cache is put right -----

  /** What zapping does to the entry of directory y. */
  lemma ZapsMovedOut(s: State, r: Race, y: Ino)
    requires CanRace(s.dirs, r) && Tree(Dirs2(s.dirs, r)) && CachedAs(s, y) && Monitored(s.dirs, y)
    requires !Monitored(Dirs1(s.dirs, r), r.q)
    ensures y in Dirs2(s.dirs, r)
    ensures Covers(Path(Dirs1(s.dirs, r), r.b), Path(s.dirs, y)) <==> !Monitored(Dirs2(s.dirs, r), y)
    ensures Monitored(Dirs2(s.dirs, r), y) ==> Path(Dirs2(s.dirs, r), y) == Path(s.dirs, y)
  {
    MkdirPaths(s.dirs, r.x, r.a, r.n, y);
    RenamePaths(Dirs1(s.dirs, r), r.b, r.q, r.m, y);
    CoversIffBelow(Dirs1(s.dirs, r), r.b, y);
  }

  lemma StaysWatched(s: State, r: Race, y: Ino)
    requires CanRace(s.dirs, r) && InSync(ViewOf(s)) && Tree(Dirs2(s.dirs, r))
    requires Below(Dirs1(s.dirs, r), r.b, r.x) && !Monitored(Dirs1(s.dirs, r), r.q)
    requires y in Dirs2(s.dirs, r) && Monitored(Dirs2(s.dirs, r), y)
    ensures y in s.watches
  {
    StillMonitored(s.dirs, r, y);
    MkdirPaths(s.dirs, r.x, r.a, r.n, y);
  }

  lemma ZappedRight(s: State, r: Race, tail: seq<Event>)
    requires CanRace(s.dirs, r) && Good(s) && Idle(s) && Placed(s, r)
    requires Below(Dirs1(s.dirs, r), r.b, r.x) && !Monitored(Dirs1(s.dirs, r), r.q)
    ensures var v' := AfterZap(ViewOf(Searching(s, r).(work := {})), Path(Dirs1(s.dirs, r), r.b), tail);
            Tree(v'.dirs) && InSync(v')
  {
    var v := ViewOf(Searching(s, r).(work := {}));
    QuietIsInSync(ViewOf(s));
    Race2Tree(s.dirs, r);
    forall y | y in v.watches ensures ZapsRightly(v, Path(Dirs1(s.dirs, r), r.b), y) {
      FoundWatched(s, y);
      ZapsMovedOut(s, r, y);
    }
    forall y | y in v.dirs && Monitored(v.dirs, y) ensures y in v.watches {
      StaysWatched(s, r, y);
    }
    ZapInSync(v, Path(Dirs1(s.dirs, r), r.b), tail);
  }

  lemma MovedOutOutcome(s: State, r: Race)
    requires CanRace(s.dirs, r) && Good(s) && Idle(s) && Placed(s, r) && r.q !in s.watches
    requires CachedAs(s, Dirs1(s.dirs, r)[r.b].parent)
    ensures var s4, path := Searching(s, r).(work := {}), Path(Dirs1(s.dirs, r), r.b);
            |s4.queue| == 1 &&
            HeadOutcome(s4) ==
              Outcome(Consumed(1), Zap(s.slots, path), RootPaths(s4.dirs), None, ZappedWds(s.slots, path))
  {
    var s4, entry := Searching(s, r).(work := {}), Dirs1(s.dirs, r)[r.b];
    OldPlaces(s.dirs, r);
    DrainedAllLive(s);
    HandleMovedOut(s.slots, RootPaths(s4.dirs), s.watches[entry.parent], s.cookie, entry.name, s.watches.Values);
  }

  lemma MovedOutIsHandled(s: State, r: Race, s': State)
    requires CanRace(s.dirs, r) && Good(s) && Idle(s) && Placed(s, r)
    requires Below(Dirs1(s.dirs, r), r.b, r.x) && !Monitored(Dirs1(s.dirs, r), r.q)
    requires ProgramStep(Searching(s, r).(work := {}), s')
    ensures Good(s')
  {
    var s4, path := Searching(s, r).(work := {}), Path(Dirs1(s.dirs, r), r.b);
    var tail := IgnoredFor(ZappedWds(s.slots, path));
    IdleWatches(s, r);
    MovedOutOutcome(s, r);
    AfterMovedOut(s4, HeadOutcome(s4), s', path);
    ZappedRight(s, r, tail);
    forall k | 0 <= k < |tail| ensures Ignoring(tail[k]) && 1 <= tail[k].wd < s.nextWd {
      ZappedInRange(s, path, k);
    }
    CachedInRange(ViewOf(s));
    SyncIsInv(ViewOf(s'));
  }

  // ----- runs that stay right -----

  lemma FineAtRest(s: State)
    requires StateInv(s) && Idle(s)
    ensures Right(s)
  {
    IdleIsGood(s);
    QuietIsInSync(ViewOf(s));
  }

  lemma FineStaysRight(s: State, run: seq<State>)
    requires StateInv(s)
    ensures !GoesWrong(s, run)
  {
    if ProgramRun(run) && run[0] == s && Idle(run[|run| - 1]) {
      RunKeeps(run);
      FineAtRest(run[|run| - 1]);
    }
  }

  /** A state that is not at rest and whose every next state stays right stays right. */
  lemma StaysRightBy(s: State, run: seq<State>)
    requires !Idle(s) && forall s', rest :: ProgramStep(s, s') ==> !GoesWrong(s', rest)
    ensures !GoesWrong(s, run)
  {
    if ProgramRun(run) && run[0] == s && |run| > 1 {
      TailRuns(run);
      assert !GoesWrong(run[1], run[1..]);
    }
  }

  lemma MovedOutStaysRight(s: State, r: Race, run: seq<State>)
    requires CanRace(s.dirs, r) && Good(s) && Idle(s) && Placed(s, r)
    requires Below(Dirs1(s.dirs, r), r.b, r.x) && !Monitored(Dirs1(s.dirs, r), r.q)
    ensures !GoesWrong(Raced(s, r), run)
  {
    var s2, s3 := Raced(s, r), Searching(s, r);
    var s4 := s3.(work := {});
    IdleWatches(s, r);
    forall s', rest | ProgramStep(s4, s') ensures !GoesWrong(s', rest) {
      MovedOutIsHandled(s, r, s');
      FineStaysRight(s', rest);
    }
    forall s', rest | ProgramStep(s3, s') ensures !GoesWrong(s', rest) {
      SearchFails(s, r, s');
      StaysRightBy(s4, rest);
    }
    forall s', rest | ProgramStep(s2, s') ensures !GoesWrong(s', rest) {
      SearchIsNext(s, r, s');
      StaysRightBy(s3, rest);
    }
    StaysRightBy(s2, run);
  }

  lemma ClearStaysRight(s: State, r: Race, run: seq<State>)
    requires CanRace(s.dirs, r) && Good(s) && Idle(s) && Placed(s, r)
    requires Clear(ViewOf(Made(s, r)), r.b, r.q, r.m)
    ensures !GoesWrong(Raced(s, r), run)
  {
    var s1 := Made(s, r);
    RacedIs(s, r);
    MadeGood(s, r);
    GoodHasNoOverflow(s1);
    assert Allowed(s1, Rename(r.b, r.q, r.m));
    assert FsStep(s1, Raced(s, r));
    StateInvStep(s1, Raced(s, r));
    FineStaysRight(Raced(s, r), run);
  }

  // ----- a directory moves into the new one: the cache goes wrong -----

  /** Directory b is cached under the name n in `dir`, and directory p, with descriptor
      wd, under `dir`. */
  datatype Kept = Kept(b: Ino, n: string, p: Ino, wd: int, dir: string)

  predicate CachedUnder(watches: map<Ino, int>, cached: map<int, string>, i: Ino, path: string) {
    i in watches && watches[i] in cached && cached[watches[i]] == path
  }

  predicate Keeps(watches: map<Ino, int>, cached: map<int, string>, kept: Kept) {
    && (forall i :: i in watches ==> watches[i] >= 1)
    && (forall w :: w in cached ==> w in watches.Values)
    && CachedUnder(watches, cached, kept.b, Join(kept.dir, kept.n))
    && CachedUnder(watches, cached, kept.p, kept.dir)
    && watches[kept.p] == kept.wd
  }

  /** What the scan leaves alone: these two entries, and that all cached are watched. */
  ghost predicate Untouched(s: State, kept: Kept) {
    Valid(s.slots) && s.nextWd >= 1 && Keeps(s.watches, Contents(s.slots), kept)
  }

  lemma WatchesGrow(watches: map<Ino, int>, i: Ino, wd: int, w: int)
    requires i in watches ==> watches[i] == wd
    requires w in watches.Values || w == wd
    ensures w in watches[i := wd].Values
  {
    var watches' := watches[i := wd];
    if w == wd {
      assert watches'[i] == w;
    } else {
      var j :| j in watches && watches[j] == w;
      assert watches'[j] == w;
    }
  }

  lemma KeepsMore(watches: map<Ino, int>, cached: map<int, string>, kept: Kept, i: Ino, wd: int, path: string)
    requires Keeps(watches, cached, kept) && wd >= 1 && (i in watches ==> watches[i] == wd)
    ensures Keeps(watches[i := wd], if wd in cached then cached else cached[wd := path], kept)
  {
    var cached' := if wd in cached then cached else cached[wd := path];
    forall w | w in cached' ensures w in watches[i := wd].Values {
      WatchesGrow(watches, i, wd, w);
    }
  }

  lemma VisitLeaves(s: State, path: string, i: Ino, kept: Kept)
    requires Untouched(s, kept)
    ensures Untouched(Visited(s, path, i), kept)
  {
    VisitedContents(s, path, i);
    KeepsMore(s.watches, Contents(s.slots), kept, i, WdFor(ViewOf(s), i), path);
  }

  lemma ScanLeaves(s: State, s': State, kept: Kept)
    requires Tree(s.dirs) && ScanStep(s, s') && Untouched(s, kept)
    ensures Untouched(s', kept)
  {
    if VisitStep(s, s') {
      var y :| y in s.work && VisitPath(s, y, s');
      var x := VisitFinds(s, y, s');
      if x.Some? { VisitLeaves(s, y, x.value, kept); }
    }
  }

  /** The scan comes to its end. */
  lemma {:induction false} ScanEnds(s: State, bound: nat, kept: Kept)
    returns (run: seq<State>)
    requires Tree(s.dirs) && Bounded(s.dirs, bound) && Untouched(s, kept)
    ensures ProgramRun(run) && run[0] == s
    ensures var e := run[|run| - 1];
            && e.work == {} && e.listing == map[] && Untouched(e, kept)
            && e.dirs == s.dirs && e.queue == s.queue
    decreases ScanWeight(s, bound)
  {
    if s.work == {} && s.listing == map[] {
      run := [s];
    } else {
      var s' := ScanGoesOn(s);
      ScanProgress(s, s', bound);
      ScanLeaves(s, s', kept);
      run := ScanEnds(s', bound, kept);
      Prepend(s, run);
      run := [s] + run;
    }
  }

  lemma AllIgnored(wds: seq<int>, s: State)
    requires s.queue == IgnoredFor(wds) && wds != [] && s.work == {} && s.listing == map[]
    ensures HandleStep(s, s.(queue := IgnoredFor(wds[1..])))
  {
    assert s.queue[1..] == IgnoredFor(wds[1..]);
    assert (map i | i in s.watches && s.watches[i] !in [] :: s.watches[i]) == s.watches;
    assert IgnoredFor(wds[1..]) + IgnoredFor([]) == IgnoredFor(wds[1..]);
  }

  /** Events about watches that were removed change nothing. */
  lemma {:induction false} IgnoredDrain(s: State, wds: seq<int>) returns (run: seq<State>)
    requires s.queue == IgnoredFor(wds) && s.work == {} && s.listing == map[]
    ensures ProgramRun(run) && run[0] == s && run[|run| - 1] == s.(queue := [])
    decreases |wds|
  {
    if wds == [] {
      run := [s];
    } else {
      var s' := s.(queue := IgnoredFor(wds[1..]));
      AllIgnored(wds, s);
      run := IgnoredDrain(s', wds[1..]);
      Prepend(s, run);
      run := [s] + run;
    }
  }

  /** A lone "moved from" takes the watch of the directory that has moved. */
  lemma LoneMoveZaps(s: State, kept: Kept, cookie: nat) returns (s': State, wds: seq<int>)
    requires Untouched(s, kept) && s.work == {} && s.listing == map[]
    requires s.queue == [MovedFromEvent(kept.wd, cookie, kept.n)]
    ensures HandleStep(s, s') && s'.queue == IgnoredFor(wds) && s'.work == {} && s'.listing == map[]
    ensures s'.dirs == s.dirs && kept.b !in s'.watches
  {
    var path := Join(kept.dir, kept.n);
    HandleMovedOut(s.slots, RootPaths(s.dirs), kept.wd, cookie, kept.n, s.watches.Values);
    wds := ZappedWds(s.slots, path);
    ZappedIffCovered(s.slots, path, s.watches[kept.b]);
    s' := CanApply(s, HeadOutcome(s));
    assert s.queue[1..] + IgnoredFor(wds) == IgnoredFor(wds);
  }

  /** From the search on: whatever the scan finds, the watch of b is lost in the end. */
  lemma LosesWatch(s: State, kept: Kept, cookie: nat) returns (run: seq<State>)
    requires Tree(s.dirs) && Untouched(s, kept) && s.queue == [MovedFromEvent(kept.wd, cookie, kept.n)]
    ensures ProgramRun(run) && run[0] == s
    ensures var e := run[|run| - 1]; Idle(e) && e.dirs == s.dirs && kept.b !in e.watches
  {
    var bound := BoundExists(Rank(s.dirs), s.dirs.Keys);
    run := ScanEnds(s, bound, kept);
    var e := run[|run| - 1];
    var e', wds := LoneMoveZaps(e, kept, cookie);
    var rest := IgnoredDrain(e', wds);
    Prepend(e, rest);
    run := JoinRuns(run, [e] + rest);
  }

  ghost function KeptOf(s: State, r: Race): Kept
    requires Placed(s, r) && Tree(s.dirs) && Dirs1(s.dirs, r)[r.b].parent in s.dirs
  {
    var entry := Dirs1(s.dirs, r)[r.b];
    Kept(r.b, entry.name, entry.parent, s.watches[entry.parent], Path(s.dirs, entry.parent))
  }

  lemma StartsUntouched(s: State, r: Race)
    requires CanRace(s.dirs, r) && Good(s) && Idle(s) && Placed(s, r) && r.q == r.x
    requires Dirs1(s.dirs, r)[r.b].parent in s.dirs
    ensures Untouched(Searching(s, r), KeptOf(s, r)) && Searching(s, r).queue == News(s, r)
  {
    var p := Dirs1(s.dirs, r)[r.b].parent;
    IdleWatches(s, r);
    QuietIsInSync(ViewOf(s));
    DrainedAllLive(s);
    MkdirPaths(s.dirs, r.x, r.a, r.n, r.b);
    FoundWatched(s, r.b);
    assert Path(s.dirs, r.b) == Join(Path(s.dirs, p), s.dirs[r.b].name);
    forall i | i in s.watches ensures s.watches[i] >= 1 { assert WatchOk(ViewOf(s), i); }
  }

  lemma MovedIntoGoesWrong(s: State, r: Race) returns (run: seq<State>)
    requires CanRace(s.dirs, r) && Good(s) && Idle(s) && Placed(s, r) && r.q == r.x
    ensures GoesWrong(Raced(s, r), run)
  {
    IdleWatches(s, r);
    OldPlaces(s.dirs, r);
    Race2Tree(s.dirs, r);
    StartsUntouched(s, r);
    run := LosesWatch(Searching(s, r), KeptOf(s, r), s.cookie);
    SearchIsNext(s, r, Searching(s, r));
    NewIsThere(s.dirs, r);
    StillMonitored(s.dirs, r, r.b);
    UnwatchedIsWrong(run[|run| - 1], r.b);
    Prepend(Raced(s, r), run);
    run := [Raced(s, r)] + run;
  }

  // ----- exactly when -----

  /** For every idle state, every directory made in a monitored one, and every rename of a
      monitored directory before the program has read of that: the cache is right whenever
      the program comes to rest if and only if the rename leads out of the trees, or is
      clear of the new directory, that is, the new directory neither moves along nor
      becomes the new parent. */
  lemma RaceIsHarmlessIff(s: State, r: Race)
    requires CanRace(s.dirs, r) && Good(s) && Idle(s)
    ensures CanDo(Made(s, r), Rename(r.b, r.q, r.m))
    ensures (forall run :: !GoesWrong(Done(Made(s, r), Rename(r.b, r.q, r.m)), run))
       <==> !Monitored(Dirs1(s.dirs, r), r.q) || Clear(ViewOf(Made(s, r)), r.b, r.q, r.m)
    ensures Clear(ViewOf(Made(s, r)), r.b, r.q, r.m) <==> !Below(Dirs1(s.dirs, r), r.b, r.x) && r.q != r.x
  {
    IdleWatches(s, r);
    RacedIs(s, r);
    ClearIff(s, r);
    NewIsThere(s.dirs, r);
    if Clear(ViewOf(Made(s, r)), r.b, r.q, r.m) {
      forall run ensures !GoesWrong(Raced(s, r), run) { ClearStaysRight(s, r, run); }
    } else if r.q == r.x {
      var run := MovedIntoGoesWrong(s, r);
    } else if Monitored(Dirs1(s.dirs, r), r.q) {
      var run := MovedAlongGoesWrong(s, r);
    } else {
      forall run ensures !GoesWrong(Raced(s, r), run) { MovedOutStaysRight(s, r, run); }
    }
  }
}
