/** inotify_dtree.c as a system of steps: the file system changes, the kernel queues
    events, and the program scans and handles events one at a time. */
module DtreeSteps {
  import opened Options
  import opened PathNames
  import opened DirTree
  import opened WatchCache
  import opened EventHandler
  import opened DtreeInvariant
  import opened DtreeProgram

  datatype State = State(
    dirs: Dirs,
    watches: map<Ino, int>,
    nextWd: int,
    cookie: nat,
    queue: seq<Event>,
    slots: seq<Slot>,
    work: set<string>,
    listing: map<Ino, Job>)

  ghost function ViewOf(s: State): View {
    View(s.dirs, s.watches, s.nextWd, s.queue, Contents(s.slots), s.work, s.listing)
  }

  // ----- steps of the file system -----

  datatype FsOp =
    | Mkdir(i: Ino, p: Ino, n: string)
    | Rmdir(i: Ino)
    | Rename(i: Ino, q: Ino, m: string)
    | FileChange(e: Event)

  ghost predicate CanDo(s: State, op: FsOp) {
    && Tree(s.dirs)
    && match op
       case Mkdir(i, p, n) => CanMkdir(s.dirs, i, p, n) && i !in s.listing   // an open inode is not reused
       case Rmdir(i) => CanRmdir(s.dirs, i)
       case Rename(i, q, m) => CanRename(s.dirs, i, q, m)
       case FileChange(e) => FileNews(e) && e.wd in s.watches.Values
  }

  ghost function FsView(s: State, op: FsOp): View
    requires CanDo(s, op)
  {
    match op
    case Mkdir(i, p, n) => AfterMkdir(ViewOf(s), i, p, n)
    case Rmdir(i) => AfterRmdir(ViewOf(s), i)
    case Rename(i, q, m) => AfterRename(ViewOf(s), i, q, m, s.cookie)
    case FileChange(e) => AfterFile(ViewOf(s), e)
  }

  ghost function Done(s: State, op: FsOp): State
    requires CanDo(s, op)
  {
    var v' := FsView(s, op);
    s.(dirs := v'.dirs, watches := v'.watches, queue := v'.queue,
       cookie := if op.Rename? then s.cookie + 1 else s.cookie)
  }

  const OVERFLOW := Event(-1, {Overflow}, 0, "")

  predicate Overflown(queue: seq<Event>) {
    OVERFLOW in queue
  }

  predicate MovePending(queue: seq<Event>) {
    exists k :: 0 <= k < |queue| && IsMovedFrom(queue[k])
  }

  predicate Idle(s: State) {
    s.queue == [] && s.work == {} && s.listing == map[]
  }

  /** The rename that the queue tells of led from one monitored place to another. */
  predicate MoveWithin(queue: seq<Event>) {
    exists k :: 0 <= k < |queue| - 1 && IsMovedFrom(queue[k]) && Pairs(queue[k], Some(queue[k + 1]))
  }

  /** Directories are made and removed, and moved in from elsewhere, at any time. A
      monitored directory is renamed when whatever the program has still to look into is
      apart from the two places. Until the program has seen that, no other monitored
      directory is renamed and, if it has left the trees, nothing else changes. After an
      overflow everything may. */
  ghost predicate Allowed(s: State, op: FsOp)
    requires CanDo(s, op)
  {
    || Overflown(s.queue)
    || (if op.Rename? && Monitored(s.dirs, op.i)
        then !MovePending(s.queue) && Clear(ViewOf(s), op.i, op.q, op.m)
        else MovePending(s.queue) ==> MoveWithin(s.queue))
  }

  /** While the queue is overflown, events may be lost. */
  ghost predicate FsStep(s: State, s': State) {
    exists op :: CanDo(s, op) && Allowed(s, op) &&
      (s' == Done(s, op) || (Overflown(s.queue) && s' == Done(s, op).(queue := s.queue)))
  }

  ghost predicate OverflowStep(s: State, s': State) {
    s' == s.(queue := s.queue + [OVERFLOW])
  }

  // ----- steps of the program -----

  /** traverseTree(), called for a path that leads to directory i. */
  ghost function Visited(s: State, path: string, i: Ino): State {
    var v' := AfterVisit(ViewOf(s), path, i);
    var wd := WdFor(ViewOf(s), i);
    s.(watches := v'.watches, nextWd := v'.nextWd, work := v'.work, listing := v'.listing,
       slots := if FindWatch(s.slots, wd) >= 0 then s.slots else AddWatch(s.slots, wd, path))
  }

  ghost predicate VisitStep(s: State, s': State) {
    Tree(s.dirs) && exists path :: path in s.work && VisitPath(s, path, s')
  }

  ghost predicate VisitPath(s: State, path: string, s': State)
    requires Tree(s.dirs)
  {
    if exists i :: Resolves(s.dirs, path, i)
    then exists i :: Resolves(s.dirs, path, i) && s' == Visited(s, path, i)
    else s' == s.(work := s.work - {path})
  }

  ghost predicate ListStep(s: State, s': State) {
    exists i, found :: CanList(ViewOf(s), i, found) &&
      var v' := AfterList(ViewOf(s), i, found);
      s' == s.(work := v'.work, listing := v'.listing)
  }

  /** reinitialize(): a new inotify instance, an empty cache, and all roots to scan. */
  ghost function Rebuilt(dirs: Dirs, cookie: nat): State {
    State(dirs, map[], 1, cookie, [], [], RootPaths(dirs), map[])
  }

  function IgnoredFor(wds: seq<int>): (es: seq<Event>)
    ensures |es| == |wds| && forall k :: 0 <= k < |wds| ==> es[k] == IgnoredEvent(wds[k])
  {
    seq(|wds|, k requires 0 <= k < |wds| => IgnoredEvent(wds[k]))
  }

  function NextOf(queue: seq<Event>): Option<Event> {
    if |queue| > 1 then Some(queue[1]) else None
  }

  /** What processNextInotifyEvent() makes of the first event, the second read for a
      hanging "moved from" being behind it. */
  ghost function HeadOutcome(s: State): Outcome
    requires s.queue != []
  {
    Handle(s.slots, RootPaths(s.dirs), s.queue[0], NextOf(s.queue), false, s.watches.Values)
  }

  /** How the outcome of handling an event changes the state. */
  ghost predicate Applied(s: State, o: Outcome, s': State) {
    match o.verdict
    case Rebuild => s' == Rebuilt(s.dirs, s.cookie)
    case Consumed(n) =>
      && n <= |s.queue|
      && s' == s.(slots := o.slots,
                  queue := s.queue[n..] + IgnoredFor(o.removed),
                  watches := map i | i in s.watches && s.watches[i] !in o.removed :: s.watches[i],
                  work := if o.scan.Some? then {o.scan.value} else {})
    case Deferred => false
    case Quit => false
  }

  ghost predicate HandleStep(s: State, s': State) {
    s.queue != [] && s.work == {} && s.listing == map[] && Applied(s, HeadOutcome(s), s')
  }

  ghost predicate Step(s: State, s': State) {
    FsStep(s, s') || OverflowStep(s, s') || VisitStep(s, s') || ListStep(s, s') || HandleStep(s, s')
  }

  ghost predicate IsRun(run: seq<State>) {
    && run != []
    && Tree(run[0].dirs) && run[0] == Rebuilt(run[0].dirs, run[0].cookie)
    && (forall k :: 0 <= k < |run| - 1 ==> Step(run[k], run[k + 1]))
  }

  // ----- the invariant of states -----

  ghost predicate Good(s: State) {
    Valid(s.slots) && Inv(ViewOf(s))
  }

  /** `s` is `prev` but for the rename of a monitored directory out of the trees. */
  ghost predicate Left(prev: State, i: Ino, q: Ino, m: string, s: State) {
    && Good(prev)
    && CanDo(prev, Rename(i, q, m)) && Monitored(prev.dirs, i) && !Monitored(prev.dirs, q)
    && Clear(ViewOf(prev), i, q, m)
    && s == Done(prev, Rename(i, q, m))
  }

  /** A directory has left the trees, and the program has not got to the event of that. */
  ghost predicate Leaving(s: State) {
    exists prev, i, q, m :: Left(prev, i, q, m, s)
  }

  /** A rename within the trees: its two events, and the old and the new path. */
  datatype Move = Move(wp: int, n: string, wq: int, m: string, cookie: nat, from: string, to: string)

  function NewsOf(mv: Move): seq<Event> {
    [MovedFromEvent(mv.wp, mv.cookie, mv.n), MovedToEvent(mv.wq, mv.cookie, mv.m)]
  }

  /** The cache holds what the handling of the two events looks up. */
  ghost predicate Knows(cached: map<int, string>, mv: Move) {
    && mv.wp >= 0 && mv.wp in cached && mv.from == Join(cached[mv.wp], mv.n)
    && mv.wq >= 0 && mv.wq in cached && mv.to == Join(cached[mv.wq], mv.m)
  }

  /** A path that the program looks into before it gets to queue entry k. */
  predicate Early(v: View, k: nat, path: string)
    requires k <= |v.queue|
  {
    || path in v.work
    || (exists x :: x in v.listing && v.listing[x].path == path)
    || (exists j :: 0 <= j < k && Announces(v, j, path))
  }

  ghost predicate EarlyApart(v: View, k: nat, mv: Move)
    requires k <= |v.queue|
  {
    forall path :: Early(v, k, path) ==> Apart(path, mv.from) && Apart(path, mv.to)
  }

  /** The two states differ in the events of the move, which are at k, and the slots. */
  predicate Behind(s: State, v: State, mv: Move, k: nat) {
    k <= |v.queue| && s == v.(slots := s.slots, queue := v.queue[..k] + NewsOf(mv) + v.queue[k..])
  }

  /** Rewriting the one cache gives the other. */
  ghost predicate RewritesTo(slots: seq<Slot>, slots': seq<Slot>, mv: Move) {
    Valid(slots) && slots' == Rewrite(slots, mv.from, mv.to) && Knows(Contents(slots), mv)
  }

  /** Before the events of the move none says that one of the two parents is gone. */
  predicate ParentsStay(queue: seq<Event>, k: nat, mv: Move)
    requires k <= |queue|
  {
    forall j :: 0 <= j < k && Deletion(queue[j]) ==> queue[j].wd != mv.wp && queue[j].wd != mv.wq
  }

  predicate NoRootMoves(roots: set<string>, mv: Move) {
    forall path :: path in roots ==> !Covers(mv.from, path)
  }

  /** `v` is `s` with the move already seen: its events are taken out of the queue, and the
      cached paths are rewritten. Everything that the program looks into before is apart
      from the two places. */
  ghost predicate Ahead(s: State, v: State, mv: Move, k: nat) {
    && Behind(s, v, mv, k) && Good(v) && RewritesTo(s.slots, v.slots, mv)
    && ParentsStay(v.queue, k, mv) && NoRootMoves(RootPaths(v.dirs), mv)
    && EarlyApart(ViewOf(s), k, mv)
  }

  /** A directory has moved within the trees, and the program has not got to the events. */
  ghost predicate Moving(s: State) {
    exists v, mv, k :: Ahead(s, v, mv, k)
  }

  ghost predicate Lost(s: State) {
    Tree(s.dirs) && Overflown(s.queue)
  }

  ghost predicate StateInv(s: State) {
    Good(s) || Moving(s) || Leaving(s) || Lost(s)
  }

  lemma EmptyContents()
    ensures Valid([]) && Contents([]) == map[]
  {
  }

  lemma RebuiltGood(dirs: Dirs, cookie: nat)
    requires Tree(dirs)
    ensures Good(Rebuilt(dirs, cookie))
  {
    var v := View(dirs, map[], 1, [], map[], RootPaths(dirs), map[]);
    RebuildInv(dirs);
    EmptyContents();
    assert ViewOf(Rebuilt(dirs, cookie)) == v;
  }

  // ----- steps from good states -----

  lemma GoodHasNoOverflow(s: State)
    requires Good(s)
    ensures !Overflown(s.queue) && !MovePending(s.queue)
  {
    forall k | 0 <= k < |s.queue| ensures s.queue[k] != OVERFLOW && !IsMovedFrom(s.queue[k]) {
      assert EventOk(ViewOf(s), k);
    }
  }

  lemma NoOverflowNews(wd: int, cookie: nat, n: string)
    ensures CreateEvent(wd, n) != OVERFLOW && MovedFromEvent(wd, cookie, n) != OVERFLOW
    ensures MovedToEvent(wd, cookie, n) != OVERFLOW && IsMovedFrom(MovedFromEvent(wd, cookie, n))
  {
    assert Overflow in OVERFLOW.flags;
  }

  /** The events that a change puts into the queue. */
  ghost function Posts(s: State, op: FsOp): seq<Event>
    requires CanDo(s, op)
  {
    match op
    case Mkdir(i, p, n) => if p in s.watches then [CreateEvent(s.watches[p], n)] else []
    case Rmdir(i) => if i in s.watches then [DeleteSelfEvent(s.watches[i]), IgnoredEvent(s.watches[i])] else []
    case Rename(i, q, m) =>
      var p, n := s.dirs[i].parent, s.dirs[i].name;
      (if p in s.watches then [MovedFromEvent(s.watches[p], s.cookie, n)] else [])
      + (if q in s.watches then [MovedToEvent(s.watches[q], s.cookie, m)] else [])
    case FileChange(e) => [e]
  }

  lemma DonePosts(s: State, op: FsOp)
    requires CanDo(s, op)
    ensures Done(s, op).queue == s.queue + Posts(s, op)
  {
  }

  lemma RootsStay(s: State, op: FsOp)
    requires CanDo(s, op)
    ensures RootPaths(Done(s, op).dirs) == RootPaths(s.dirs)
  {
    SameRoots(s.dirs, Done(s, op).dirs);
  }

  lemma DoneView(s: State, op: FsOp)
    requires CanDo(s, op)
    ensures ViewOf(Done(s, op)) == FsView(s, op)
  {
  }

  lemma FsInv(s: State, op: FsOp)
    requires Inv(ViewOf(s)) && CanDo(s, op) && (op.Rename? ==> !Monitored(s.dirs, op.i))
    ensures Inv(FsView(s, op))
  {
    match op
    case Mkdir(i, p, n) => MkdirInv(ViewOf(s), i, p, n);
    case Rmdir(i) => RmdirInv(ViewOf(s), i);
    case Rename(i, q, m) => RenameInInv(ViewOf(s), i, q, m, s.cookie);
    case FileChange(e) => FileInv(ViewOf(s), e);
  }

  lemma GoodFsOp(s: State, op: FsOp)
    requires Good(s) && CanDo(s, op) && (op.Rename? ==> !Monitored(s.dirs, op.i))
    ensures Good(Done(s, op))
  {
    FsInv(s, op);
    DoneView(s, op);
  }

  lemma GoodVisitStep(s: State, s': State)
    requires Good(s) && VisitStep(s, s')
    ensures Good(s')
  {
    var path :| path in s.work && VisitPath(s, path, s');
    if exists i :: Resolves(s.dirs, path, i) {
      var i :| Resolves(s.dirs, path, i) && s' == Visited(s, path, i);
      VisitedGood(s, path, i);
    } else {
      MissedGood(s, path);
    }
  }

  lemma MissedGood(s: State, path: string)
    requires Good(s) && forall i :: !Resolves(s.dirs, path, i)
    ensures Good(s.(work := s.work - {path}))
  {
    MissInv(ViewOf(s), path);
    assert ViewOf(s.(work := s.work - {path})) == AfterMiss(ViewOf(s), path);
  }

  lemma VisitedContents(s: State, path: string, i: Ino)
    requires Valid(s.slots) && s.nextWd >= 1 && (i in s.watches ==> s.watches[i] >= 1)
    ensures var s', wd := Visited(s, path, i), WdFor(ViewOf(s), i);
            && Valid(s'.slots)
            && Contents(s'.slots)
            == if wd in Contents(s.slots) then Contents(s.slots) else Contents(s.slots)[wd := path]
  {
    var wd := WdFor(ViewOf(s), i);
    FoundInContents(s.slots, wd);
    if FindWatch(s.slots, wd) < 0 { AddWatchContents(s.slots, wd, path); }
  }

  lemma VisitedView(s: State, path: string, i: Ino)
    requires Good(s) && Resolves(s.dirs, path, i)
    ensures Valid(Visited(s, path, i).slots) && ViewOf(Visited(s, path, i)) == AfterVisit(ViewOf(s), path, i)
  {
    if i in s.watches { assert WatchOk(ViewOf(s), i); }
    VisitedContents(s, path, i);
  }

  lemma VisitedGood(s: State, path: string, i: Ino)
    requires Good(s) && Resolves(s.dirs, path, i)
    ensures Good(Visited(s, path, i))
  {
    VisitInv(ViewOf(s), path, i);
    VisitedView(s, path, i);
  }

  /** Which directory a visit of the path finds, if any. */
  lemma VisitFinds(s: State, path: string, s': State) returns (x: Option<Ino>)
    requires Tree(s.dirs) && VisitPath(s, path, s')
    ensures x.Some? ==> Resolves(s.dirs, path, x.value) && s' == Visited(s, path, x.value)
    ensures x.None? ==> (forall y :: !Resolves(s.dirs, path, y)) && s' == s.(work := s.work - {path})
  {
    if exists y :: Resolves(s.dirs, path, y) {
      var y :| Resolves(s.dirs, path, y) && s' == Visited(s, path, y);
      x := Some(y);
    } else {
      x := None;
    }
  }

  ghost function Listed(s: State, x: Ino, found: set<Ino>): State
    requires CanList(ViewOf(s), x, found)
  {
    var v' := AfterList(ViewOf(s), x, found);
    s.(work := v'.work, listing := v'.listing)
  }

  lemma GoodListStep(s: State, s': State)
    requires Good(s) && ListStep(s, s')
    ensures Good(s')
  {
    var i, found :| CanList(ViewOf(s), i, found) &&
      var v' := AfterList(ViewOf(s), i, found);
      s' == s.(work := v'.work, listing := v'.listing);
    ListInv(ViewOf(s), i, found);
  }

  lemma HandleArrival(slots: seq<Slot>, roots: set<string>, e: Event, next: Option<Event>, live: set<int>)
    requires Valid(slots) && Arrival(e) && e.wd >= 0 && e.wd in Contents(slots)
    ensures var full := Join(Contents(slots)[e.wd], e.name);
            Handle(slots, roots, e, next, false, live) ==
              Outcome(Consumed(1), slots, roots, if HasPath(Contents(slots), full) then None else Some(full), [])
  {
    FoundInContents(slots, e.wd);
    PathCachedIff(slots, Join(Contents(slots)[e.wd], e.name));
  }

  lemma HandleDeletion(slots: seq<Slot>, roots: set<string>, e: Event, next: Option<Event>, live: set<int>)
    requires Valid(slots) && Deletion(e) && e.wd >= 0 && e.wd in Contents(slots) && Contents(slots)[e.wd] !in roots
    ensures var o := Handle(slots, roots, e, next, false, live);
            && o == Outcome(Consumed(1), o.slots, roots, None, [])
            && Valid(o.slots) && Contents(o.slots) == Contents(slots) - {e.wd}
  {
    FoundInContents(slots, e.wd);
    var j := FindWatch(slots, e.wd);
    ClearContents(slots, j);
    assert roots - {slots[j].path} == roots;
  }

  lemma HandleNoNews(slots: seq<Slot>, roots: set<string>, e: Event, next: Option<Event>, live: set<int>)
    requires Valid(slots) && (Ignoring(e) || (FileNews(e) && e.wd >= 0 && e.wd in Contents(slots)))
    ensures Handle(slots, roots, e, next, false, live) == Outcome(Consumed(1), slots, roots, None, [])
  {
    if !Ignoring(e) { FoundInContents(slots, e.wd); }
  }

  /** What a good state says of its first event. */
  lemma GoodHead(s: State)
    requires Good(s) && s.queue != []
    ensures var e := s.queue[0];
            || Ignoring(e)
            || (e.wd >= 0 && e.wd in Contents(s.slots) &&
                (Arrival(e) || FileNews(e) || (Deletion(e) && Contents(s.slots)[e.wd] !in RootPaths(s.dirs))))
  {
    var v := ViewOf(s);
    assert EventOk(v, 0);
    if Deletion(s.queue[0]) {
      assert CachedOk(v, s.queue[0].wd);
    }
  }

  /** The first event was consumed alone, with the effect that AfterEvent describes. */
  ghost predicate HandledAlone(s: State, o: Outcome)
    requires s.queue != []
  {
    && o.verdict == Consumed(1) && o.removed == []
    && Valid(o.slots) && Contents(o.slots) == AfterEvent(ViewOf(s)).cached
    && (s.work == {} ==> (if o.scan.Some? then {o.scan.value} else {}) == AfterEvent(ViewOf(s)).work)
  }

  lemma ArrivalHandled(s: State, o: Outcome)
    requires Valid(s.slots) && s.queue != [] && Arrival(s.queue[0]) && s.queue[0].wd in Contents(s.slots)
    requires var full := Join(Contents(s.slots)[s.queue[0].wd], s.queue[0].name);
             o == Outcome(Consumed(1), s.slots, RootPaths(s.dirs),
                          if HasPath(Contents(s.slots), full) then None else Some(full), [])
    ensures HandledAlone(s, o)
  {
  }

  /** In a good state every event is handled normally: its descriptor is cached, and the
      cache changes as AfterEvent says. */
  lemma GoodHeadOutcome(s: State)
    requires Good(s) && s.queue != []
    ensures HandledAlone(s, HeadOutcome(s))
  {
    var e := s.queue[0];
    GoodHead(s);
    HeadHandled(s, HeadOutcome(s));
  }

  lemma HeadHandled(s: State, o: Outcome)
    requires Valid(s.slots) && s.queue != [] && o == HeadOutcome(s)
    requires var e := s.queue[0];
             || Ignoring(e)
             || (e.wd >= 0 && e.wd in Contents(s.slots) &&
                 (Arrival(e) || FileNews(e) || (Deletion(e) && Contents(s.slots)[e.wd] !in RootPaths(s.dirs))))
    ensures HandledAlone(s, o)
  {
    var e := s.queue[0];
    var roots, next, live := RootPaths(s.dirs), NextOf(s.queue), s.watches.Values;
    if Arrival(e) {
      HandleArrival(s.slots, roots, e, next, live);
      ArrivalHandled(s, o);
    } else if Deletion(e) {
      HandleDeletion(s.slots, roots, e, next, live);
    } else {
      HandleNoNews(s.slots, roots, e, next, live);
    }
  }

  /** The state after a single event has been handled. */
  lemma AfterOne(s: State, o: Outcome, s': State, v': View)
    requires s.queue != [] && s.work == {} && Applied(s, o, s')
    requires o.verdict == Consumed(1) && o.removed == []
    requires v' == ViewOf(s).(queue := s.queue[1..], cached := Contents(o.slots),
                              work := if o.scan.Some? then {o.scan.value} else {})
    ensures s'.slots == o.slots && ViewOf(s') == v'
  {
    assert (map i | i in s.watches && s.watches[i] !in [] :: s.watches[i]) == s.watches;
    assert s.queue[1..] + IgnoredFor([]) == s.queue[1..];
  }

  lemma HandledGood(s: State, s': State)
    requires Good(s) && HandleStep(s, s')
    ensures Good(s') && ViewOf(s') == AfterEvent(ViewOf(s))
  {
    GoodHeadOutcome(s);
    EventInv(ViewOf(s));
    AfterOne(s, HeadOutcome(s), s', AfterEvent(ViewOf(s)));
  }

  lemma CanApply(s: State, o: Outcome) returns (s': State)
    requires s.queue != [] && o.verdict.Consumed? && o.verdict.events <= |s.queue|
    ensures Applied(s, o, s')
  {
    s' := s.(slots := o.slots,
             queue := s.queue[o.verdict.events..] + IgnoredFor(o.removed),
             watches := map i | i in s.watches && s.watches[i] !in o.removed :: s.watches[i],
             work := if o.scan.Some? then {o.scan.value} else {});
  }

  // ----- the program alone -----

  ghost predicate ProgramStep(s: State, s': State) {
    VisitStep(s, s') || ListStep(s, s') || HandleStep(s, s')
  }

  ghost predicate ProgramRun(run: seq<State>) {
    run != [] && forall k :: 0 <= k < |run| - 1 ==> ProgramStep(run[k], run[k + 1])
  }

  lemma Prepend(s: State, rest: seq<State>)
    requires ProgramRun(rest) && ProgramStep(s, rest[0])
    ensures ProgramRun([s] + rest) && ([s] + rest)[|rest|] == rest[|rest| - 1]
  {
    var run := [s] + rest;
    forall k | 0 <= k < |run| - 1 ensures ProgramStep(run[k], run[k + 1]) {
      if k > 0 { assert run[k] == rest[k - 1] && run[k + 1] == rest[k - 1 + 1]; }
    }
  }

  // ----- renames -----

  /** The events that a rename queues when the old parent is watched. */
  function RenameNews(prev: State, i: Ino, q: Ino, m: string): seq<Event>
    requires i in prev.dirs && prev.dirs[i].Child? && prev.dirs[i].parent in prev.watches
  {
    [MovedFromEvent(prev.watches[prev.dirs[i].parent], prev.cookie, prev.dirs[i].name)]
    + if q in prev.watches then [MovedToEvent(prev.watches[q], prev.cookie, m)] else []
  }

  lemma DoneRename(prev: State, i: Ino, q: Ino, m: string)
    requires CanDo(prev, Rename(i, q, m)) && prev.dirs[i].parent in prev.watches
    ensures Done(prev, Rename(i, q, m))
         == prev.(dirs := prev.dirs[i := Child(q, m)], queue := prev.queue + RenameNews(prev, i, q, m),
                  cookie := prev.cookie + 1)
  {
  }

  lemma RenameKeepsRoots(dirs: Dirs, i: Ino, q: Ino, m: string)
    requires Tree(dirs) && CanRename(dirs, i, q, m)
    ensures Tree(dirs[i := Child(q, m)]) && RootPaths(dirs[i := Child(q, m)]) == RootPaths(dirs)
  {
    RenameTree(dirs, i, q, m);
    SameRoots(dirs, dirs[i := Child(q, m)]);
  }

  /** A watched directory is cached under its path. */
  ghost predicate CachedAs(s: State, x: Ino) {
    && Tree(s.dirs) && x in s.dirs && x in s.watches && s.watches[x] >= 0
    && s.watches[x] in Contents(s.slots) && Contents(s.slots)[s.watches[x]] == Path(s.dirs, x)
  }

  lemma FoundWatched(s: State, x: Ino)
    requires Good(s) && x in s.watches
    ensures CachedAs(s, x)
  {
    assert WatchOk(ViewOf(s), x);
  }

  lemma HandlePair(slots: seq<Slot>, roots: set<string>, a: int, b: int, cookie: nat, n: string, m: string,
                   live: set<int>)
    requires Valid(slots) && a >= 0 && b >= 0 && a in Contents(slots) && b in Contents(slots)
    ensures Handle(slots, roots, MovedFromEvent(a, cookie, n), Some(MovedToEvent(b, cookie, m)), false, live)
         == Outcome(Consumed(2),
                    Rewrite(slots, Join(Contents(slots)[a], n), Join(Contents(slots)[b], m)), roots, None, [])
  {
    FoundInContents(slots, a);
    FoundInContents(slots, b);
  }

  lemma NextIrrelevant(slots: seq<Slot>, roots: set<string>, e: Event, a: Option<Event>, b: Option<Event>,
                       live: set<int>)
    requires !IsMovedFrom(e)
    ensures Handle(slots, roots, e, a, false, live) == Handle(slots, roots, e, b, false, live)
  {
  }
}
