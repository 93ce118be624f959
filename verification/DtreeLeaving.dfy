/** A monitored directory has been moved out of the trees and the program has yet to get to
    the event that says so. Up to there it does what it would do without the rename,
    because everything it has still to look into is apart from the old place; and when it
    gets there it puts the cache right. */
module DtreeLeaving {
  import opened Options
  import opened PathNames
  import opened DirTree
  import opened WatchCache
  import opened EventHandler
  import opened DtreeInvariant
  import opened DtreeProgram
  import opened DtreeSteps

  /** How the state differs from one without the rename. */
  ghost predicate Differs(prev: State, i: Ino, q: Ino, m: string, s: State) {
    && Tree(prev.dirs) && i in prev.dirs && prev.dirs[i].Child? && q in prev.dirs
    && prev.dirs[i].parent in prev.watches
    && (q in prev.watches <==> Monitored(prev.dirs, q))
    && s == prev.(dirs := prev.dirs[i := Child(q, m)], queue := prev.queue + RenameNews(prev, i, q, m),
                  cookie := prev.cookie + 1)
    && Tree(s.dirs) && RootPaths(s.dirs) == RootPaths(prev.dirs)
  }

  lemma LeftFacts(prev: State, i: Ino, q: Ino, m: string, s: State)
    requires Left(prev, i, q, m, s)
    ensures Differs(prev, i, q, m, s)
  {
    ClearPlaces(ViewOf(prev), i, q, m);
    DoneRename(prev, i, q, m);
    RenameKeepsRoots(prev.dirs, i, q, m);
  }

  /** The watches of the two parents are the same. */
  predicate ParentsAlike(prev: State, prev': State, p: Ino, q: Ino) {
    && p in prev.watches && p in prev'.watches && prev'.watches[p] == prev.watches[p]
    && (q in prev'.watches <==> q in prev.watches)
    && (q in prev.watches ==> prev'.watches[q] == prev.watches[q])
  }

  /** `s'` is `prev'` but for the rename. */
  ghost predicate Shifted(prev: State, i: Ino, q: Ino, m: string, s: State, prev': State, s': State)
    requires Differs(prev, i, q, m, s)
  {
    && prev'.dirs == prev.dirs && prev'.cookie == prev.cookie
    && ParentsAlike(prev, prev', prev.dirs[i].parent, q)
    && s' == prev'.(dirs := s.dirs, queue := prev'.queue + RenameNews(prev, i, q, m), cookie := s.cookie)
  }

  lemma DoneAgain(prev: State, prev': State, i: Ino, q: Ino, m: string, s: State, s': State)
    requires Differs(prev, i, q, m, s) && CanDo(prev, Rename(i, q, m)) && Shifted(prev, i, q, m, s, prev', s')
    ensures CanDo(prev', Rename(i, q, m)) && s' == Done(prev', Rename(i, q, m))
  {
    DoneRename(prev', i, q, m);
    assert RenameNews(prev', i, q, m) == RenameNews(prev, i, q, m);
  }

  /** When the program has moved on without regard to the rename, the states correspond
      again. */
  lemma LeftAgain(prev: State, prev': State, i: Ino, q: Ino, m: string, s: State, s': State)
    requires Left(prev, i, q, m, s) && Differs(prev, i, q, m, s)
    requires Shifted(prev, i, q, m, s, prev', s') && Good(prev') && Clear(ViewOf(prev'), i, q, m)
    ensures Left(prev', i, q, m, s')
  {
    DoneAgain(prev, prev', i, q, m, s, s');
  }

  // ----- the scan -----

  lemma VisitAlike(prev: State, i: Ino, q: Ino, m: string, s: State, path: string, x: Ino)
    requires Differs(prev, i, q, m, s) && x != prev.dirs[i].parent && x != q
    ensures Shifted(prev, i, q, m, s, Visited(prev, path, x), Visited(s, path, x))
  {
    ChildrenAlike(prev.dirs, i, q, m, x);
  }

  lemma VisitStaysClear(prev: State, i: Ino, q: Ino, m: string, path: string, x: Ino)
    requires Good(prev) && i in prev.dirs && q in prev.dirs && path in prev.work && Resolves(prev.dirs, path, x)
    requires Clear(ViewOf(prev), i, q, m)
    ensures Good(Visited(prev, path, x)) && Clear(ViewOf(Visited(prev, path, x)), i, q, m)
  {
    VisitedGood(prev, path, x);
    VisitedView(prev, path, x);
    ClearAfterVisit(ViewOf(prev), i, q, m, path, x);
  }

  lemma PendingResolvesAlike(prev: State, i: Ino, q: Ino, m: string, s: State, path: string, x: Ino)
    requires Left(prev, i, q, m, s) && Differs(prev, i, q, m, s) && path in prev.work
    ensures Resolves(s.dirs, path, x) <==> Resolves(prev.dirs, path, x)
    ensures Resolves(prev.dirs, path, x) ==> x != prev.dirs[i].parent && x != q
  {
    assert Pending(ViewOf(prev), path);
    ResolvesAlike(prev.dirs, i, q, m, path, x);
  }

  lemma LeftVisit(prev: State, i: Ino, q: Ino, m: string, s: State, path: string, x: Ino)
    requires Left(prev, i, q, m, s) && path in prev.work && Resolves(prev.dirs, path, x)
    ensures Left(Visited(prev, path, x), i, q, m, Visited(s, path, x))
  {
    LeftFacts(prev, i, q, m, s);
    PendingResolvesAlike(prev, i, q, m, s, path, x);
    VisitStaysClear(prev, i, q, m, path, x);
    VisitAlike(prev, i, q, m, s, path, x);
    LeftAgain(prev, Visited(prev, path, x), i, q, m, s, Visited(s, path, x));
  }

  lemma LeftMiss(prev: State, i: Ino, q: Ino, m: string, s: State, path: string)
    requires Left(prev, i, q, m, s) && path in prev.work && forall x :: !Resolves(prev.dirs, path, x)
    ensures Left(prev.(work := prev.work - {path}), i, q, m, s.(work := s.work - {path}))
  {
    var prev' := prev.(work := prev.work - {path});
    LeftFacts(prev, i, q, m, s);
    MissedGood(prev, path);
    assert ViewOf(prev') == AfterMiss(ViewOf(prev), path);
    ClearAfterMiss(ViewOf(prev), i, q, m, path);
    LeftAgain(prev, prev', i, q, m, s, s.(work := s.work - {path}));
  }

  /** The directory of an open listing is neither of the two parents. */
  lemma ListingApart(prev: State, i: Ino, q: Ino, m: string, s: State, x: Ino)
    requires Left(prev, i, q, m, s) && x in prev.listing
    ensures Children(s.dirs, x) == Children(prev.dirs, x) && i !in Children(prev.dirs, x)
  {
    LeftFacts(prev, i, q, m, s);
    var path := prev.listing[x].path;
    assert Pending(ViewOf(prev), path) && JobOk(ViewOf(prev), x);
    if x in prev.dirs {
      ResolvesAlike(prev.dirs, i, q, m, path, x);
    }
    ChildrenAlike(prev.dirs, i, q, m, x);
  }

  lemma ListAlike(prev: State, i: Ino, q: Ino, m: string, s: State, x: Ino, found: set<Ino>)
    requires Differs(prev, i, q, m, s) && CanList(ViewOf(prev), x, found)
    requires Children(s.dirs, x) == Children(prev.dirs, x) && i !in Children(prev.dirs, x)
    ensures CanList(ViewOf(s), x, found) && Shifted(prev, i, q, m, s, Listed(prev, x, found), Listed(s, x, found))
  {
    assert Entries(s.dirs, s.listing[x].path, found) == Entries(prev.dirs, prev.listing[x].path, found);
  }

  lemma ListStaysClear(prev: State, i: Ino, q: Ino, m: string, x: Ino, found: set<Ino>)
    requires Good(prev) && i in prev.dirs && q in prev.dirs && CanList(ViewOf(prev), x, found)
    requires Clear(ViewOf(prev), i, q, m)
    ensures Good(Listed(prev, x, found)) && Clear(ViewOf(Listed(prev, x, found)), i, q, m)
  {
    ListInv(ViewOf(prev), x, found);
    ClearAfterList(ViewOf(prev), i, q, m, x, found);
    assert ViewOf(Listed(prev, x, found)) == AfterList(ViewOf(prev), x, found);
  }

  lemma LeftList(prev: State, i: Ino, q: Ino, m: string, s: State, x: Ino, found: set<Ino>)
    requires Left(prev, i, q, m, s) && CanList(ViewOf(prev), x, found)
    ensures CanList(ViewOf(s), x, found)
    ensures Left(Listed(prev, x, found), i, q, m, Listed(s, x, found))
  {
    LeftFacts(prev, i, q, m, s);
    ListingApart(prev, i, q, m, s, x);
    ListAlike(prev, i, q, m, s, x, found);
    ListStaysClear(prev, i, q, m, x, found);
    LeftAgain(prev, Listed(prev, x, found), i, q, m, s, Listed(s, x, found));
  }

  lemma CanListAlike(prev: State, i: Ino, q: Ino, m: string, s: State, x: Ino, found: set<Ino>)
    requires Left(prev, i, q, m, s) && CanList(ViewOf(s), x, found)
    ensures CanList(ViewOf(prev), x, found)
  {
    LeftFacts(prev, i, q, m, s);
    ListingApart(prev, i, q, m, s, x);
  }

  // ----- the events before -----

  lemma HeadAlike(prev: State, i: Ino, q: Ino, m: string, s: State)
    requires Good(prev) && Differs(prev, i, q, m, s) && prev.queue != []
    ensures s.queue != [] && s.queue[0] == prev.queue[0] && HeadOutcome(s) == HeadOutcome(prev)
    ensures HandledAlone(prev, HeadOutcome(prev))
  {
    GoodHasNoOverflow(prev);
    assert !IsMovedFrom(prev.queue[0]);
    GoodHeadOutcome(prev);
    NextIrrelevant(prev.slots, RootPaths(prev.dirs), prev.queue[0], NextOf(prev.queue), NextOf(s.queue),
                   prev.watches.Values);
  }

  /** Handling an event alone has the same effect with and without the rename. */
  lemma HandleAlike(prev: State, i: Ino, q: Ino, m: string, s: State, o: Outcome, prev': State, s': State)
    requires Differs(prev, i, q, m, s) && prev.queue != []
    requires o.verdict == Consumed(1) && o.removed == [] && Applied(prev, o, prev') && Applied(s, o, s')
    ensures Shifted(prev, i, q, m, s, prev', s')
  {
    assert IgnoredFor([]) == [];
    assert s.queue[1..] == prev.queue[1..] + RenameNews(prev, i, q, m);
    assert (map x | x in prev.watches && prev.watches[x] !in [] :: prev.watches[x]) == prev.watches;
  }

  lemma HandleStaysClear(prev: State, i: Ino, q: Ino, m: string, prev': State)
    requires Good(prev) && i in prev.dirs && q in prev.dirs && HandleStep(prev, prev') && Clear(ViewOf(prev), i, q, m)
    ensures Good(prev') && Clear(ViewOf(prev'), i, q, m)
  {
    HandledGood(prev, prev');
    ClearAfterEvent(ViewOf(prev), i, q, m);
  }

  lemma LeftHandle(prev: State, i: Ino, q: Ino, m: string, s: State, prev': State, s': State)
    requires Left(prev, i, q, m, s) && prev.queue != [] && HandleStep(prev, prev') && HandleStep(s, s')
    ensures Left(prev', i, q, m, s')
  {
    LeftFacts(prev, i, q, m, s);
    HeadAlike(prev, i, q, m, s);
    HandleAlike(prev, i, q, m, s, HeadOutcome(prev), prev', s');
    HandleStaysClear(prev, i, q, m, prev');
    LeftAgain(prev, prev', i, q, m, s, s');
  }

  // ----- the events of the rename -----

  lemma HandleMovedOut(slots: seq<Slot>, roots: set<string>, a: int, cookie: nat, n: string, live: set<int>)
    requires Valid(slots) && a >= 0 && a in Contents(slots)
    requires forall w :: w in Contents(slots) ==> w in live
    ensures var path := Join(Contents(slots)[a], n);
            Handle(slots, roots, MovedFromEvent(a, cookie, n), None, false, live) ==
              Outcome(Consumed(1), Zap(slots, path), roots, None, ZappedWds(slots, path))
  {
    FoundInContents(slots, a);
    var path := Join(Contents(slots)[a], n);
    forall w | w in ZappedWds(slots, path) ensures w in live {
      ZappedIffCovered(slots, path, w);
    }
  }

  lemma DrainedAllLive(s: State)
    requires Good(s) && s.queue == []
    ensures forall w :: w in Contents(s.slots) ==> w in s.watches.Values
  {
    forall w | w in Contents(s.slots) ensures w in s.watches.Values {
      assert CachedOk(ViewOf(s), w);
    }
  }

  lemma LeftOutcome(prev: State, i: Ino, q: Ino, m: string, s: State)
    requires Good(prev) && prev.queue == [] && Differs(prev, i, q, m, s) && q !in prev.watches
    ensures s.queue != [] && |s.queue| == 1
    ensures var path := Path(prev.dirs, i);
            HeadOutcome(s) ==
              Outcome(Consumed(1), Zap(prev.slots, path), RootPaths(s.dirs), None, ZappedWds(prev.slots, path))
  {
    var p := prev.dirs[i].parent;
    FoundWatched(prev, p);
    DrainedAllLive(prev);
    HandleMovedOut(prev.slots, RootPaths(s.dirs), prev.watches[p], prev.cookie, prev.dirs[i].name, s.watches.Values);
  }

  lemma SameGone(slots: seq<Slot>, path: string)
    requires Valid(slots)
    ensures (set w | w in ZappedWds(slots, path))
         == (set w | w in Contents(slots) && Covers(path, Contents(slots)[w]))
  {
    forall w ensures w in ZappedWds(slots, path) <==> w in Contents(slots) && Covers(path, Contents(slots)[w]) {
      ZappedIffCovered(slots, path, w);
    }
  }

  lemma SameSurvivors(watches: map<Ino, int>, wds: seq<int>, gone: set<int>)
    requires (set w | w in wds) == gone
    ensures (map i | i in watches && watches[i] !in wds :: watches[i])
         == (map i | i in watches && watches[i] !in gone :: watches[i])
  {
    forall w ensures w in wds <==> w in gone {
      assert w in (set x | x in wds) <==> w in wds;
    }
  }

  /** The state after a directory has been found to be moved out. */
  lemma AfterMovedOut(s: State, o: Outcome, s': State, path: string)
    requires Valid(s.slots) && |s.queue| == 1 && s.work == {} && Applied(s, o, s')
    requires o == Outcome(Consumed(1), Zap(s.slots, path), RootPaths(s.dirs), None, ZappedWds(s.slots, path))
    ensures Valid(s'.slots)
    ensures ViewOf(s') == AfterZap(ViewOf(s), path, IgnoredFor(ZappedWds(s.slots, path)))
  {
    var wds := ZappedWds(s.slots, path);
    ZapContents(s.slots, path);
    SameGone(s.slots, path);
    SameSurvivors(s.watches, wds, set w | w in wds);
    assert s.queue[1..] + IgnoredFor(wds) == IgnoredFor(wds);
  }

  lemma ZappedInRange(s: State, path: string, k: nat)
    requires Good(s) && k < |ZappedWds(s.slots, path)|
    ensures 1 <= ZappedWds(s.slots, path)[k] < s.nextWd
  {
    var w := ZappedWds(s.slots, path)[k];
    ZappedIffCovered(s.slots, path, w);
    assert CachedOk(ViewOf(s), w);
  }

  lemma LeftStep(prev: State, i: Ino, q: Ino, m: string, s: State, s': State)
    requires Left(prev, i, q, m, s) && Idle(prev) && HandleStep(s, s')
    ensures Good(s')
  {
    LeftFacts(prev, i, q, m, s);
    LeftOutcome(prev, i, q, m, s);
    var path := Path(prev.dirs, i);
    var tail := IgnoredFor(ZappedWds(prev.slots, path));
    forall k | 0 <= k < |tail| ensures Ignoring(tail[k]) && 1 <= tail[k].wd < prev.nextWd {
      ZappedInRange(prev, path, k);
    }
    RenameOutInv(ViewOf(prev), i, q, m, prev.cookie, tail);
    AfterMovedOut(s, HeadOutcome(s), s', path);
    DoneView(prev, Rename(i, q, m));
  }

  // ----- every step -----

  lemma MoveIsPending(prev: State, i: Ino, q: Ino, m: string, s: State)
    requires Good(prev) && Differs(prev, i, q, m, s) && q !in prev.watches
    ensures MovePending(s.queue) && !Overflown(s.queue) && !MoveWithin(s.queue)
  {
    var entry := prev.dirs[i];
    var e := MovedFromEvent(prev.watches[entry.parent], prev.cookie, entry.name);
    GoodHasNoOverflow(prev);
    NoOverflowNews(prev.watches[entry.parent], prev.cookie, entry.name);
    assert s.queue == prev.queue + [e];
    AppendedMove(prev.queue, e);
  }

  lemma AppendedMove(queue: seq<Event>, e: Event)
    requires !Overflown(queue) && !MovePending(queue) && e != OVERFLOW && IsMovedFrom(e)
    ensures MovePending(queue + [e]) && !Overflown(queue + [e]) && !MoveWithin(queue + [e])
  {
    var all := queue + [e];
    assert all[|queue|] == e;
    forall k | 0 <= k < |all| - 1 ensures !IsMovedFrom(all[k]) {
      assert all[k] == queue[k];
    }
  }

  /** Nothing else changes before the program has seen it. */
  lemma NoFsStep(s: State, s': State)
    requires MovePending(s.queue) && !Overflown(s.queue) && !MoveWithin(s.queue)
    ensures !FsStep(s, s')
  {
  }

  lemma ResolvesSame(prev: State, i: Ino, q: Ino, m: string, s: State, path: string)
    requires Left(prev, i, q, m, s) && Differs(prev, i, q, m, s) && path in prev.work
    ensures forall x :: Resolves(s.dirs, path, x) <==> Resolves(prev.dirs, path, x)
  {
    forall x ensures Resolves(s.dirs, path, x) <==> Resolves(prev.dirs, path, x) {
      PendingResolvesAlike(prev, i, q, m, s, path, x);
    }
  }

  lemma LeftVisitStep(prev: State, i: Ino, q: Ino, m: string, s: State, s': State) returns (prev': State)
    requires Left(prev, i, q, m, s) && VisitStep(s, s')
    ensures VisitStep(prev, prev') && Left(prev', i, q, m, s')
  {
    LeftFacts(prev, i, q, m, s);
    var path :| path in s.work && VisitPath(s, path, s');
    ResolvesSame(prev, i, q, m, s, path);
    var x := VisitFinds(s, path, s');
    if x.Some? {
      prev' := Visited(prev, path, x.value);
      LeftVisit(prev, i, q, m, s, path, x.value);
    } else {
      prev' := prev.(work := prev.work - {path});
      LeftMiss(prev, i, q, m, s, path);
    }
    assert VisitPath(prev, path, prev');
  }

  lemma LeftListStep(prev: State, i: Ino, q: Ino, m: string, s: State, s': State) returns (prev': State)
    requires Left(prev, i, q, m, s) && ListStep(s, s')
    ensures ListStep(prev, prev') && Left(prev', i, q, m, s')
  {
    var x, found :| CanList(ViewOf(s), x, found) && s' == Listed(s, x, found);
    CanListAlike(prev, i, q, m, s, x, found);
    LeftList(prev, i, q, m, s, x, found);
    prev' := Listed(prev, x, found);
  }

  lemma LeftHandleStep(prev: State, i: Ino, q: Ino, m: string, s: State, s': State) returns (prev': State)
    requires Left(prev, i, q, m, s) && HandleStep(s, s') && prev.queue != []
    ensures HandleStep(prev, prev') && Left(prev', i, q, m, s')
  {
    LeftFacts(prev, i, q, m, s);
    HeadAlike(prev, i, q, m, s);
    prev' := CanApply(prev, HeadOutcome(prev));
    assert HandleStep(prev, prev');
    LeftHandle(prev, i, q, m, s, prev', s');
  }

  /** A step of the program corresponds to one without the rename, until it has got to the
      event of the rename. */
  lemma LeftGoesOn(prev: State, i: Ino, q: Ino, m: string, s: State, s': State) returns (prev': State)
    requires Left(prev, i, q, m, s) && ProgramStep(s, s')
    ensures (ProgramStep(prev, prev') && Left(prev', i, q, m, s')) || (Idle(prev) && HandleStep(s, s') && Good(s'))
  {
    prev' := prev;
    LeftFacts(prev, i, q, m, s);
    if VisitStep(s, s') {
      prev' := LeftVisitStep(prev, i, q, m, s, s');
    } else if ListStep(s, s') {
      prev' := LeftListStep(prev, i, q, m, s, s');
    } else if prev.queue != [] {
      prev' := LeftHandleStep(prev, i, q, m, s, s');
    } else {
      LeftStep(prev, i, q, m, s, s');
    }
  }

  /** Until the event of the rename is handled, the program goes on as without it; no other
      change of the file system comes in between. */
  lemma LeavingStep(s: State, s': State)
    requires Leaving(s) && Step(s, s')
    ensures Good(s') || Leaving(s') || Lost(s')
  {
    var prev, i, q, m :| Left(prev, i, q, m, s);
    LeftFacts(prev, i, q, m, s);
    MoveIsPending(prev, i, q, m, s);
    NoFsStep(s, s');
    if !OverflowStep(s, s') {
      var prev' := LeftGoesOn(prev, i, q, m, s, s');
    }
  }
}
