/** A monitored directory has been moved within the trees and the program has yet to get to
    the events that say so. Up to there it does what it would do if it had seen the move
    already, because everything it looks into before is apart from the two places; and
    other directories may come and go meanwhile. */
module DtreeMoving {
  import opened Options
  import opened PathNames
  import opened DirTree
  import opened WatchCache
  import opened EventHandler
  import opened DtreeInvariant
  import opened DtreeProgram
  import opened DtreeSteps

  // ----- rewriting and the other operations on slots -----

  lemma RewriteFinds(slots: seq<Slot>, from: string, to: string, wd: int)
    ensures FindWatch(Rewrite(slots, from, to), wd) == FindWatch(slots, wd)
  {
    var r := Rewrite(slots, from, to);
    assert forall j :: 0 <= j < |slots| ==> r[j].wd == slots[j].wd;
  }

  lemma RewriteAdds(slots: seq<Slot>, from: string, to: string, wd: int, path: string)
    requires from != "" && !Covers(from, path)
    ensures Rewrite(AddWatch(slots, wd, path), from, to) == AddWatch(Rewrite(slots, from, to), wd, path)
  {
    RewriteFinds(slots, from, to, -1);
    var r := Rewrite(slots, from, to);
    assert Rewrite(Grown(slots), from, to) == Grown(r);
  }

  lemma RewriteClears(slots: seq<Slot>, from: string, to: string, j: int)
    requires from != "" && 0 <= j < |slots|
    ensures Rewrite(slots[j := UNUSED], from, to) == Rewrite(slots, from, to)[j := UNUSED]
  {
  }

  /** A path apart from the two places is cached before iff it is cached after. */
  lemma RewriteKeepsPath(slots: seq<Slot>, from: string, to: string, path: string)
    requires Apart(path, from) && Apart(path, to)
    ensures PathCached(Rewrite(slots, from, to), path) <==> PathCached(slots, path)
  {
    var r := Rewrite(slots, from, to);
    forall j | 0 <= j < |slots| ensures r[j].wd == slots[j].wd && (r[j].path == path <==> slots[j].path == path) {
      if Covers(from, slots[j].path) { CoversRebase(slots[j].path, from, to); }
    }
    if PathCached(slots, path) {
      var j :| 0 <= j < |slots| && slots[j].wd >= 0 && slots[j].path == path;
      assert r[j].wd >= 0 && r[j].path == path;
    }
    if PathCached(r, path) {
      var j :| 0 <= j < |r| && r[j].wd >= 0 && r[j].path == path;
      assert slots[j].wd >= 0 && slots[j].path == path;
    }
  }

  /** What the two caches of a pending move have in common. */
  lemma SameKeys(slots: seq<Slot>, slots': seq<Slot>, mv: Move)
    requires RewritesTo(slots, slots', mv)
    ensures Valid(slots') && Contents(slots').Keys == Contents(slots).Keys
    ensures forall w :: w in Contents(slots) ==> Contents(slots')[w] == Rewritten(Contents(slots)[w], mv.from, mv.to)
  {
    RewriteContents(slots, mv.from, mv.to);
  }

  // ----- what is looked into early -----

  /** The events before entry k concern cached descriptors. */
  predicate Informed(v: View, k: nat) {
    k <= |v.queue| && forall j :: 0 <= j < k && Arrival(v.queue[j]) ==> v.queue[j].wd in v.cached
  }

  lemma InvInformed(v: View, k: nat)
    requires Inv(v) && k <= |v.queue|
    ensures Informed(v, k)
  {
    forall j | 0 <= j < k && Arrival(v.queue[j]) ensures v.queue[j].wd in v.cached {
      assert IsDir in v.queue[j].flags;
      assert EventOk(v, j);
    }
  }

  lemma AheadInformed(s: State, v: State, mv: Move, k: nat)
    requires Ahead(s, v, mv, k)
    ensures Informed(ViewOf(s), k)
  {
    SameKeys(s.slots, v.slots, mv);
    InvInformed(ViewOf(v), k);
    SamePrefix(s, v, mv, k);
  }

  lemma SamePrefix(s: State, v: State, mv: Move, k: nat)
    requires Behind(s, v, mv, k)
    ensures |s.queue| == |v.queue| + 2 && forall j :: 0 <= j < k ==> s.queue[j] == v.queue[j]
  {
  }

  lemma EarlyAfterVisit(v: View, k: nat, path: string, x: Ino, y: string)
    requires Informed(v, k) && path in v.work && Early(AfterVisit(v, path, x), k, y)
    ensures Early(v, k, y)
  {
    var v' := AfterVisit(v, path, x);
    if j :| 0 <= j < k && Announces(v', j, y) {
      assert Announces(v, j, y);
    } else if z :| z in v'.listing && v'.listing[z].path == y {
      assert z != x ==> v.listing[z].path == y;
    }
  }

  lemma EarlyAfterMiss(v: View, k: nat, path: string, y: string)
    requires k <= |v.queue| && Early(AfterMiss(v, path), k, y)
    ensures Early(v, k, y)
  {
    if j :| 0 <= j < k && Announces(AfterMiss(v, path), j, y) { assert Announces(v, j, y); }
  }

  lemma EarlyAfterList(v: View, k: nat, mv: Move, x: Ino, found: set<Ino>, y: string)
    requires Tree(v.dirs) && k <= |v.queue| && EarlyApart(v, k, mv) && CanList(v, x, found)
    requires Early(AfterList(v, x, found), k, y)
    ensures Apart(y, mv.from) && Apart(y, mv.to)
  {
    var dir := v.listing[x].path;
    assert Early(v, k, dir);
    if y in Entries(v.dirs, dir, found) {
      var c :| c in found && y == Join(dir, v.dirs[c].name);
      ApartJoin(dir, v.dirs[c].name, mv.from);
      ApartJoin(dir, v.dirs[c].name, mv.to);
    } else {
      if j :| 0 <= j < k && Announces(AfterList(v, x, found), j, y) { assert Announces(v, j, y); }
      assert Early(v, k, y);
    }
  }

  // ----- the scan -----

  lemma VisitRewrites(slots: seq<Slot>, slots': seq<Slot>, mv: Move, wd: int, path: string)
    requires RewritesTo(slots, slots', mv) && wd >= 0 && FindWatch(slots, wd) < 0 && !Covers(mv.from, path)
    ensures FindWatch(slots', wd) < 0
    ensures RewritesTo(AddWatch(slots, wd, path), AddWatch(slots', wd, path), mv)
  {
    RewriteFinds(slots, mv.from, mv.to, wd);
    RewriteAdds(slots, mv.from, mv.to, wd, path);
    FoundInContents(slots, wd);
    AddWatchContents(slots, wd, path);
  }

  lemma VisitedBehind(s: State, v: State, mv: Move, k: nat, path: string, x: Ino)
    requires Behind(s, v, mv, k)
    ensures Behind(Visited(s, path, x), Visited(v, path, x), mv, k)
  {
  }

  lemma VisitedRewrites(s: State, v: State, mv: Move, path: string, x: Ino)
    requires RewritesTo(s.slots, v.slots, mv) && !Covers(mv.from, path)
    requires WdFor(ViewOf(s), x) == WdFor(ViewOf(v), x) >= 1
    ensures RewritesTo(Visited(s, path, x).slots, Visited(v, path, x).slots, mv)
  {
    var wd := WdFor(ViewOf(s), x);
    RewriteFinds(s.slots, mv.from, mv.to, wd);
    if FindWatch(s.slots, wd) < 0 { VisitRewrites(s.slots, v.slots, mv, wd, path); }
  }

  lemma MoveVisit(s: State, v: State, mv: Move, k: nat, path: string, x: Ino)
    requires Ahead(s, v, mv, k) && path in s.work && Resolves(s.dirs, path, x)
    ensures Ahead(Visited(s, path, x), Visited(v, path, x), mv, k)
  {
    assert Early(ViewOf(s), k, path);
    if x in s.watches { assert WatchOk(ViewOf(v), x); }
    VisitedGood(v, path, x);
    VisitedContents(s, path, x);
    VisitedBehind(s, v, mv, k, path, x);
    VisitedRewrites(s, v, mv, path, x);
    AheadInformed(s, v, mv, k);
    forall y | Early(AfterVisit(ViewOf(s), path, x), k, y) ensures Early(ViewOf(s), k, y) {
      EarlyAfterVisit(ViewOf(s), k, path, x, y);
    }
    assert ViewOf(Visited(s, path, x)) == AfterVisit(ViewOf(s), path, x);
  }

  lemma MoveMiss(s: State, v: State, mv: Move, k: nat, path: string)
    requires Ahead(s, v, mv, k) && path in s.work && forall x :: !Resolves(s.dirs, path, x)
    ensures Ahead(s.(work := s.work - {path}), v.(work := v.work - {path}), mv, k)
  {
    MissedGood(v, path);
    forall y | Early(AfterMiss(ViewOf(s), path), k, y) ensures Early(ViewOf(s), k, y) {
      EarlyAfterMiss(ViewOf(s), k, path, y);
    }
    assert ViewOf(s.(work := s.work - {path})) == AfterMiss(ViewOf(s), path);
  }

  lemma MoveList(s: State, v: State, mv: Move, k: nat, x: Ino, found: set<Ino>)
    requires Ahead(s, v, mv, k) && CanList(ViewOf(s), x, found)
    ensures CanList(ViewOf(v), x, found) && Ahead(Listed(s, x, found), Listed(v, x, found), mv, k)
  {
    ListInv(ViewOf(v), x, found);
    assert ViewOf(Listed(v, x, found)) == AfterList(ViewOf(v), x, found);
    assert ViewOf(Listed(s, x, found)) == AfterList(ViewOf(s), x, found);
    forall y | Early(AfterList(ViewOf(s), x, found), k, y) ensures Apart(y, mv.from) && Apart(y, mv.to) {
      EarlyAfterList(ViewOf(s), k, mv, x, found, y);
    }
  }

  // ----- the events before -----

  /** What the handler finds out about an event that is not that of a move. */
  ghost predicate Plain(slots: seq<Slot>, roots: set<string>, e: Event) {
    || Ignoring(e)
    || (e.wd >= 0 && e.wd in Contents(slots) &&
        (Arrival(e) || FileNews(e) || (Deletion(e) && Contents(slots)[e.wd] !in roots)))
  }

  /** Its effect on the slots, and the path to scan. */
  ghost predicate PlainOutcome(slots: seq<Slot>, roots: set<string>, e: Event, o: Outcome) {
    && o.verdict == Consumed(1) && o.removed == [] && o.roots == roots
    && (if Deletion(e) then FindWatch(slots, e.wd) >= 0 && o.slots == slots[FindWatch(slots, e.wd) := UNUSED]
        else o.slots == slots)
    && o.scan == if Arrival(e) && e.wd in Contents(slots) && !PathCached(slots, Join(Contents(slots)[e.wd], e.name))
                 then Some(Join(Contents(slots)[e.wd], e.name)) else None
  }

  lemma PlainHandled(slots: seq<Slot>, roots: set<string>, e: Event, next: Option<Event>, live: set<int>)
    requires Valid(slots) && Plain(slots, roots, e)
    ensures PlainOutcome(slots, roots, e, Handle(slots, roots, e, next, false, live))
  {
    if Ignoring(e) {
      HandleNoNews(slots, roots, e, next, live);
    } else {
      FoundInContents(slots, e.wd);
      if Arrival(e) {
        HandleArrival(slots, roots, e, next, live);
        PathCachedIff(slots, Join(Contents(slots)[e.wd], e.name));
      } else if Deletion(e) {
        assert roots - {slots[FindWatch(slots, e.wd)].path} == roots;
      } else {
        HandleNoNews(slots, roots, e, next, live);
      }
    }
  }

  lemma PlainInBoth(slots: seq<Slot>, slots': seq<Slot>, mv: Move, roots: set<string>, e: Event)
    requires RewritesTo(slots, slots', mv) && NoRootMoves(roots, mv) && Plain(slots', roots, e)
    ensures Plain(slots, roots, e)
  {
    SameKeys(slots, slots', mv);
  }

  /** The event announces a directory apart from the two places, or no directory, and does
      not say that one of the two parents is gone. */
  ghost predicate Harmless(slots: seq<Slot>, mv: Move, e: Event) {
    && (Arrival(e) && e.wd in Contents(slots) ==>
          var path := Join(Contents(slots)[e.wd], e.name); Apart(path, mv.from) && Apart(path, mv.to))
    && (Deletion(e) ==> e.wd != mv.wp && e.wd != mv.wq)
  }

  lemma ScansAlike(slots: seq<Slot>, slots': seq<Slot>, mv: Move, roots: set<string>, e: Event, o: Outcome, o': Outcome)
    requires RewritesTo(slots, slots', mv) && Harmless(slots, mv, e)
    requires PlainOutcome(slots, roots, e, o) && PlainOutcome(slots', roots, e, o')
    ensures o.scan == o'.scan
  {
    SameKeys(slots, slots', mv);
    if Arrival(e) && e.wd in Contents(slots) {
      var dir := Contents(slots)[e.wd];
      if Covers(mv.from, dir) { CoversInside(mv.from, dir, e.name); }
      RewriteKeepsPath(slots, mv.from, mv.to, Join(dir, e.name));
    }
  }

  lemma SlotsAlike(slots: seq<Slot>, slots': seq<Slot>, mv: Move, roots: set<string>, e: Event, o: Outcome, o': Outcome)
    requires RewritesTo(slots, slots', mv) && Harmless(slots, mv, e) && (Deletion(e) ==> e.wd >= 0)
    requires PlainOutcome(slots, roots, e, o) && PlainOutcome(slots', roots, e, o')
    ensures RewritesTo(o.slots, o'.slots, mv)
  {
    if Deletion(e) {
      var j := FindWatch(slots, e.wd);
      RewriteFinds(slots, mv.from, mv.to, e.wd);
      RewriteClears(slots, mv.from, mv.to, j);
      ClearContents(slots, j);
    }
  }

  lemma EarlyAfterPlain(s: State, k: nat, s': State, e: Event, o: Outcome, y: string)
    requires 0 < k <= |s.queue| && s.queue[0] == e && s.work == {} && Valid(s.slots)
    requires PlainOutcome(s.slots, RootPaths(s.dirs), e, o) && Applied(s, o, s') && (Deletion(e) ==> e.wd >= 0)
    requires k - 1 <= |s'.queue| && Early(ViewOf(s'), k - 1, y)
    ensures Early(ViewOf(s), k, y)
  {
    var u, u' := ViewOf(s), ViewOf(s');
    if Deletion(e) { ClearContents(s.slots, FindWatch(s.slots, e.wd)); }
    if y in s'.work {
      assert Announces(u, 0, y);
    } else if j :| 0 <= j < k - 1 && Announces(u', j, y) {
      assert s'.queue[j] == s.queue[j + 1];
      assert Announces(u, j + 1, y);
    }
  }

  lemma BehindAfterPlain(s: State, v: State, mv: Move, k: nat, o: Outcome, o': Outcome, s': State, v': State)
    requires Behind(s, v, mv, k) && k > 0 && Applied(s, o, s') && Applied(v, o', v')
    requires o.verdict == o'.verdict == Consumed(1) && o.removed == o'.removed == [] && o.scan == o'.scan
    ensures Behind(s', v', mv, k - 1) && s'.slots == o.slots && v'.slots == o'.slots
    ensures v'.queue == v.queue[1..] && s'.queue == s.queue[1..] && v'.dirs == v.dirs
  {
    assert IgnoredFor([]) == [];
    assert s.queue[1..] == v.queue[1..][..k - 1] + NewsOf(mv) + v.queue[1..][k - 1..];
  }

  lemma HeadIsHarmless(s: State, v: State, mv: Move, k: nat)
    requires Ahead(s, v, mv, k) && k > 0
    ensures s.queue != [] && v.queue != [] && s.queue[0] == v.queue[0] && Harmless(s.slots, mv, v.queue[0])
    ensures Plain(v.slots, RootPaths(v.dirs), v.queue[0]) && Plain(s.slots, RootPaths(v.dirs), v.queue[0])
  {
    var e := v.queue[0];
    SamePrefix(s, v, mv, k);
    GoodHead(v);
    PlainInBoth(s.slots, v.slots, mv, RootPaths(v.dirs), e);
    if Arrival(e) && e.wd in Contents(s.slots) {
      var path := Join(Contents(s.slots)[e.wd], e.name);
      assert Announces(ViewOf(s), 0, path);
      assert Early(ViewOf(s), k, path);
    }
  }

  lemma MoveOutcomes(s: State, v: State, mv: Move, k: nat)
    requires Ahead(s, v, mv, k) && k > 0
    ensures s.queue != [] && v.queue != []
    ensures var o, o', e, roots := HeadOutcome(s), HeadOutcome(v), v.queue[0], RootPaths(v.dirs);
            && s.queue[0] == e && (Deletion(e) ==> e.wd >= 0)
            && PlainOutcome(s.slots, roots, e, o) && PlainOutcome(v.slots, roots, e, o')
            && o.scan == o'.scan && RewritesTo(o.slots, o'.slots, mv)
  {
    var o, o', e, roots := HeadOutcome(s), HeadOutcome(v), v.queue[0], RootPaths(v.dirs);
    HeadIsHarmless(s, v, mv, k);
    PlainHandled(s.slots, roots, e, NextOf(s.queue), s.watches.Values);
    PlainHandled(v.slots, roots, e, NextOf(v.queue), v.watches.Values);
    ScansAlike(s.slots, v.slots, mv, roots, e, o, o');
    SlotsAlike(s.slots, v.slots, mv, roots, e, o, o');
  }

  lemma EarlyApartAfter(s: State, k: nat, mv: Move, s': State, o: Outcome)
    requires 0 < k <= |s.queue| && s.work == {} && Valid(s.slots) && EarlyApart(ViewOf(s), k, mv)
    requires PlainOutcome(s.slots, RootPaths(s.dirs), s.queue[0], o) && Applied(s, o, s')
    requires (Deletion(s.queue[0]) ==> s.queue[0].wd >= 0) && k - 1 <= |s'.queue|
    ensures EarlyApart(ViewOf(s'), k - 1, mv)
  {
    forall y | Early(ViewOf(s'), k - 1, y) ensures Early(ViewOf(s), k, y) {
      EarlyAfterPlain(s, k, s', s.queue[0], o, y);
    }
  }

  lemma ParentsStayOn(queue: seq<Event>, k: nat, mv: Move)
    requires 0 < k <= |queue| && ParentsStay(queue, k, mv)
    ensures ParentsStay(queue[1..], k - 1, mv)
  {
  }

  lemma MoveHandled(s: State, v: State, mv: Move, k: nat, o: Outcome, o': Outcome, s': State, v': State)
    requires Ahead(s, v, mv, k) && k > 0 && s.work == {} && s.queue != []
    requires Applied(s, o, s') && Applied(v, o', v') && Good(v')
    requires PlainOutcome(s.slots, RootPaths(v.dirs), s.queue[0], o) && o'.verdict == Consumed(1) && o'.removed == []
    requires o.scan == o'.scan && RewritesTo(o.slots, o'.slots, mv)
    requires Deletion(s.queue[0]) ==> s.queue[0].wd >= 0
    ensures Ahead(s', v', mv, k - 1)
  {
    SamePrefix(s, v, mv, k);
    BehindAfterPlain(s, v, mv, k, o, o', s', v');
    EarlyApartAfter(s, k, mv, s', o);
    ParentsStayOn(v.queue, k, mv);
  }

  lemma MoveHandle(s: State, v: State, mv: Move, k: nat, s': State, v': State)
    requires Ahead(s, v, mv, k) && k > 0 && HandleStep(s, s') && HandleStep(v, v')
    ensures Ahead(s', v', mv, k - 1)
  {
    HandledGood(v, v');
    MoveOutcomes(s, v, mv, k);
    MoveHandled(s, v, mv, k, HeadOutcome(s), HeadOutcome(v), s', v');
  }

  // ----- the events of the move -----

  lemma MoveOutcome(s: State, v: State, mv: Move)
    requires Behind(s, v, mv, 0) && RewritesTo(s.slots, v.slots, mv)
    ensures |s.queue| >= 2 && s.queue[2..] == v.queue
    ensures HeadOutcome(s) == Outcome(Consumed(2), v.slots, RootPaths(s.dirs), None, [])
  {
    assert s.queue == NewsOf(mv) + v.queue;
    assert s.queue[0] == NewsOf(mv)[0] && s.queue[1] == NewsOf(mv)[1];
    HandlePair(s.slots, RootPaths(s.dirs), mv.wp, mv.wq, mv.cookie, mv.n, mv.m, s.watches.Values);
  }

  lemma MoveApplied(s: State, v: State, o: Outcome, s': State)
    requires |s.queue| >= 2 && s.queue[2..] == v.queue && s == v.(slots := s.slots, queue := s.queue) && s.work == {}
    requires o == Outcome(Consumed(2), v.slots, o.roots, None, [])
    ensures Applied(s, o, s') <==> s' == v
  {
    assert s.queue[2..] + IgnoredFor([]) == v.queue;
    assert (map x | x in s.watches && s.watches[x] !in [] :: s.watches[x]) == s.watches;
  }

  /** When the program gets there, the states are the same. */
  lemma MoveEnds(s: State, v: State, mv: Move, s': State)
    requires Ahead(s, v, mv, 0) && s.work == {} && s.listing == map[]
    ensures HandleStep(s, s') <==> s' == v
  {
    MoveOutcome(s, v, mv);
    MoveApplied(s, v, HeadOutcome(s), s');
  }

  // ----- other changes meanwhile -----

  lemma DoneAlike(s: State, v: State, op: FsOp)
    requires CanDo(s, op) && s == v.(slots := s.slots, queue := s.queue)
    ensures CanDo(v, op) && Posts(v, op) == Posts(s, op)
    ensures Done(s, op) == Done(v, op).(slots := s.slots, queue := Done(s, op).queue)
    ensures Done(s, op).slots == s.slots && Done(v, op).slots == v.slots
  {
  }

  lemma AppendBehind(queue: seq<Event>, k: nat, news: seq<Event>, more: seq<Event>)
    requires k <= |queue|
    ensures queue[..k] + news + queue[k..] + more == (queue + more)[..k] + news + (queue + more)[k..]
  {
    assert queue[k..] + more == (queue + more)[k..];
  }

  lemma BehindAfterFs(s: State, v: State, mv: Move, k: nat, op: FsOp)
    requires Behind(s, v, mv, k) && CanDo(s, op)
    ensures CanDo(v, op) && Behind(Done(s, op), Done(v, op), mv, k) && v.queue <= Done(v, op).queue
    ensures Done(s, op).slots == s.slots && Done(v, op).slots == v.slots
  {
    DoneAlike(s, v, op);
    DonePosts(s, op);
    DonePosts(v, op);
    AppendBehind(v.queue, k, NewsOf(mv), Posts(v, op));
  }

  lemma EarlyAfterFs(s: State, k: nat, mv: Move, op: FsOp)
    requires k <= |s.queue| && CanDo(s, op) && EarlyApart(ViewOf(s), k, mv) && s.queue <= Done(s, op).queue
    ensures EarlyApart(ViewOf(Done(s, op)), k, mv)
  {
    var u, u' := ViewOf(s), ViewOf(Done(s, op));
    forall y | Early(u', k, y) ensures Early(u, k, y) {
      if j :| 0 <= j < k && Announces(u', j, y) { assert Announces(u, j, y); }
    }
  }

  lemma ParentsStayLonger(queue: seq<Event>, queue': seq<Event>, k: nat, mv: Move)
    requires k <= |queue| && queue <= queue' && ParentsStay(queue, k, mv)
    ensures ParentsStay(queue', k, mv)
  {
    assert forall j :: 0 <= j < k ==> queue'[j] == queue[j];
  }

  lemma MoveFs(s: State, v: State, mv: Move, k: nat, op: FsOp)
    requires Ahead(s, v, mv, k) && CanDo(s, op) && (op.Rename? ==> !Monitored(s.dirs, op.i))
    ensures CanDo(v, op) && Ahead(Done(s, op), Done(v, op), mv, k)
  {
    BehindAfterFs(s, v, mv, k, op);
    var s', v' := Done(s, op), Done(v, op);
    assert Good(v') by { GoodFsOp(v, op); }
    assert NoRootMoves(RootPaths(v'.dirs), mv) by { RootsStay(v, op); }
    assert EarlyApart(ViewOf(s'), k, mv) by {
      DonePosts(s, op);
      EarlyAfterFs(s, k, mv, op);
    }
    ParentsStayLonger(v.queue, v'.queue, k, mv);
  }

  // ----- the beginning -----

  ghost function MoveOf(prev: State, i: Ino, q: Ino, m: string): Move
    requires Tree(prev.dirs) && i in prev.dirs && prev.dirs[i].Child? && q in prev.dirs
    requires prev.dirs[i].parent in prev.watches && q in prev.watches
  {
    Move(prev.watches[prev.dirs[i].parent], prev.dirs[i].name, prev.watches[q], m, prev.cookie, Path(prev.dirs, i),
         Join(Path(prev.dirs, q), m))
  }

  /** The state in which the move has been seen at once. */
  ghost function Foreseen(prev: State, i: Ino, q: Ino, m: string): State
    requires Tree(prev.dirs) && i in prev.dirs && prev.dirs[i].Child? && q in prev.dirs
  {
    prev.(dirs := prev.dirs[i := Child(q, m)],
          slots := Rewrite(prev.slots, Path(prev.dirs, i), Join(Path(prev.dirs, q), m)),
          cookie := prev.cookie + 1)
  }

  ghost predicate CanMove(prev: State, i: Ino, q: Ino, m: string) {
    && Good(prev) && CanDo(prev, Rename(i, q, m))
    && Monitored(prev.dirs, i) && Monitored(prev.dirs, q) && Clear(ViewOf(prev), i, q, m)
  }

  lemma ForeseenGood(prev: State, i: Ino, q: Ino, m: string)
    requires CanMove(prev, i, q, m)
    ensures Good(Foreseen(prev, i, q, m))
  {
    RewriteInv(ViewOf(prev), i, q, m);
    RewriteContents(prev.slots, Path(prev.dirs, i), Join(Path(prev.dirs, q), m));
    assert ViewOf(Foreseen(prev, i, q, m)) == AfterRewrite(ViewOf(prev), i, q, m);
  }

  lemma LiveIsNotDeleted(prev: State, x: Ino, j: nat)
    requires Good(prev) && x in prev.watches && j < |prev.queue| && Deletion(prev.queue[j])
    ensures prev.queue[j].wd != prev.watches[x]
  {
    assert EventOk(ViewOf(prev), j);
    WatchedIsLive(ViewOf(prev), x);
  }

  lemma NoRootBelow(dirs: Dirs, i: Ino, path: string)
    requires Tree(dirs) && i in dirs && dirs[i].Child? && Monitored(dirs, i) && path in RootPaths(dirs)
    ensures !Covers(Path(dirs, i), path)
  {
    var r :| r in dirs && dirs[r].Root? && dirs[r].path == path;
    if Covers(Path(dirs, i), path) { RootIsItsPath(dirs, i, r); }
  }

  lemma MoveBehind(prev: State, i: Ino, q: Ino, m: string)
    requires CanDo(prev, Rename(i, q, m)) && prev.dirs[i].parent in prev.watches && q in prev.watches
    ensures Behind(Done(prev, Rename(i, q, m)), Foreseen(prev, i, q, m), MoveOf(prev, i, q, m), |prev.queue|)
  {
    DoneRename(prev, i, q, m);
    assert RenameNews(prev, i, q, m) == NewsOf(MoveOf(prev, i, q, m));
  }

  lemma MoveRewrites(prev: State, i: Ino, q: Ino, m: string)
    requires Tree(prev.dirs) && i in prev.dirs && prev.dirs[i].Child? && Valid(prev.slots)
    requires CachedAs(prev, prev.dirs[i].parent) && CachedAs(prev, q)
    ensures RewritesTo(prev.slots, Foreseen(prev, i, q, m).slots, MoveOf(prev, i, q, m))
  {
  }

  lemma EarlyWasPending(v: View, v': View, k: nat, y: string)
    requires k == |v.queue| && v.queue <= v'.queue && v' == v.(dirs := v'.dirs, queue := v'.queue) && Early(v', k, y)
    ensures Pending(v, y)
  {
    if j :| 0 <= j < k && Announces(v', j, y) { assert Announces(v, j, y); }
  }

  lemma MoveEarly(prev: State, i: Ino, q: Ino, m: string, s: State)
    requires Tree(prev.dirs) && i in prev.dirs && prev.dirs[i].Child? && q in prev.dirs && Monitored(prev.dirs, q)
    requires prev.dirs[i].parent in prev.watches && q in prev.watches && Clear(ViewOf(prev), i, q, m)
    requires s == prev.(dirs := s.dirs, queue := s.queue, cookie := s.cookie) && prev.queue <= s.queue
    ensures EarlyApart(ViewOf(s), |prev.queue|, MoveOf(prev, i, q, m))
  {
    forall y | Early(ViewOf(s), |prev.queue|, y) ensures OutOfTheWay(prev.dirs, i, q, m, y) {
      EarlyWasPending(ViewOf(prev), ViewOf(s), |prev.queue|, y);
    }
  }

  lemma MoveStarts(prev: State, i: Ino, q: Ino, m: string)
    requires CanMove(prev, i, q, m)
    ensures Moving(Done(prev, Rename(i, q, m)))
  {
    var s, k := Done(prev, Rename(i, q, m)), |prev.queue|;
    ClearPlaces(ViewOf(prev), i, q, m);
    var v, mv := Foreseen(prev, i, q, m), MoveOf(prev, i, q, m);
    ForeseenGood(prev, i, q, m);
    MoveBehind(prev, i, q, m);
    FoundWatched(prev, prev.dirs[i].parent);
    FoundWatched(prev, q);
    MoveRewrites(prev, i, q, m);
    DonePosts(prev, Rename(i, q, m));
    MoveEarly(prev, i, q, m, s);
    RootsStay(prev, Rename(i, q, m));
    forall j | 0 <= j < k && Deletion(v.queue[j]) ensures v.queue[j].wd != mv.wp && v.queue[j].wd != mv.wq {
      LiveIsNotDeleted(prev, prev.dirs[i].parent, j);
      LiveIsNotDeleted(prev, q, j);
    }
    forall path | path in RootPaths(v.dirs) ensures !Covers(mv.from, path) {
      NoRootBelow(prev.dirs, i, path);
    }
    assert Ahead(s, v, mv, k);
  }

  // ----- every step -----

  lemma MoveInQueue(s: State, v: State, mv: Move, k: nat)
    requires Ahead(s, v, mv, k)
    ensures MovePending(s.queue) && !Overflown(s.queue)
  {
    GoodHasNoOverflow(v);
    NoOverflowNews(mv.wp, mv.cookie, mv.n);
    NoOverflowNews(mv.wq, mv.cookie, mv.m);
    assert s.queue[k] == MovedFromEvent(mv.wp, mv.cookie, mv.n);
  }

  lemma MovingFsStep(s: State, v: State, mv: Move, k: nat, s': State)
    requires Ahead(s, v, mv, k) && FsStep(s, s')
    ensures Moving(s')
  {
    MoveInQueue(s, v, mv, k);
    var op :| CanDo(s, op) && Allowed(s, op) && s' == Done(s, op);
    MoveFs(s, v, mv, k, op);
  }

  lemma MovingVisitStep(s: State, v: State, mv: Move, k: nat, s': State) returns (v': State)
    requires Ahead(s, v, mv, k) && VisitStep(s, s')
    ensures VisitStep(v, v') && Ahead(s', v', mv, k)
  {
    var path :| path in s.work && VisitPath(s, path, s');
    var x := VisitFinds(s, path, s');
    if x.Some? {
      v' := Visited(v, path, x.value);
      MoveVisit(s, v, mv, k, path, x.value);
    } else {
      v' := v.(work := v.work - {path});
      MoveMiss(s, v, mv, k, path);
    }
    assert VisitPath(v, path, v');
  }

  lemma MovingListStep(s: State, v: State, mv: Move, k: nat, s': State) returns (v': State)
    requires Ahead(s, v, mv, k) && ListStep(s, s')
    ensures ListStep(v, v') && Ahead(s', v', mv, k)
  {
    var x, found :| CanList(ViewOf(s), x, found) && s' == Listed(s, x, found);
    MoveList(s, v, mv, k, x, found);
    v' := Listed(v, x, found);
  }

  lemma MovingHandleStep(s: State, v: State, mv: Move, k: nat, s': State) returns (v': State)
    requires Ahead(s, v, mv, k) && k > 0 && HandleStep(s, s')
    ensures HandleStep(v, v') && Ahead(s', v', mv, k - 1)
  {
    MoveOutcomes(s, v, mv, k);
    v' := CanApply(v, HeadOutcome(v));
    MoveHandle(s, v, mv, k, s', v');
  }

  lemma MoveScans(s: State, v: State, mv: Move, k: nat, s': State) returns (v': State)
    requires Ahead(s, v, mv, k) && (VisitStep(s, s') || ListStep(s, s'))
    ensures ProgramStep(v, v') && Ahead(s', v', mv, k)
  {
    if VisitStep(s, s') {
      v' := MovingVisitStep(s, v, mv, k, s');
    } else {
      v' := MovingListStep(s, v, mv, k, s');
    }
  }

  lemma MoveHandles(s: State, v: State, mv: Move, k: nat, s': State) returns (v': State)
    requires Ahead(s, v, mv, k) && HandleStep(s, s')
    ensures if k == 0 then s' == v else ProgramStep(v, v') && Ahead(s', v', mv, k - 1)
  {
    v' := v;
    if k == 0 {
      MoveEnds(s, v, mv, s');
    } else {
      v' := MovingHandleStep(s, v, mv, k, s');
    }
  }

  /** A step of the program corresponds to one of a program that has seen the move, until
      it has got to the events of the move, and then the states are the same. */
  lemma MoveGoesOn(s: State, v: State, mv: Move, k: nat, s': State) returns (v': State, k': nat)
    requires Ahead(s, v, mv, k) && ProgramStep(s, s')
    ensures (ProgramStep(v, v') && Ahead(s', v', mv, k')) || s' == v
  {
    if HandleStep(s, s') {
      v' := MoveHandles(s, v, mv, k, s');
      k' := if k == 0 then 0 else k - 1;
    } else {
      v' := MoveScans(s, v, mv, k, s');
      k' := k;
    }
  }

  /** Until the events of the move are handled, the program goes on as if it had seen the
      move, whatever else is made, removed or moved in; and then it has. */
  lemma MovingStep(s: State, s': State)
    requires Moving(s) && Step(s, s')
    ensures Good(s') || Moving(s') || Lost(s')
  {
    var v, mv, k :| Ahead(s, v, mv, k);
    if FsStep(s, s') {
      MovingFsStep(s, v, mv, k, s');
    } else if !OverflowStep(s, s') {
      var v', k' := MoveGoesOn(s, v, mv, k, s');
    }
  }
}
