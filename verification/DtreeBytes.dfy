/** The program on bytes and the system of steps joined: fed with the bytes of the events
    that the kernel queues in a run of the system, and with what its scans meet there, the
    program ends with the cache of that run, which agrees with the directory trees. */
module DtreeBytes {
  import opened Options
  import opened DirTree
  import opened WatchCache
  import opened EventHandler
  import opened DtreeInvariant
  import opened DtreeProgram
  import opened DtreeSteps
  import opened DtreeLeaving
  import opened DtreeMoving
  import opened DtreeProtocol
  import opened DtreeConvergence
  import RawEvents
  import EventLoop
  import EventBuffer

  // ----- the event that is handled next -----

  /** A pair is handled together; any other event alone, and if it might have been the
      first half of a pair, nothing is behind it and an event about a removed watch comes
      next. */
  ghost predicate HeadCase(s: State, o: Outcome)
    requires s.queue != []
  {
    && o.roots == RootPaths(s.dirs)
    && (|| (o.verdict == Consumed(2) && Paired(s.queue) && o.removed == [])
        || (o.verdict == Consumed(1) && !Waits(s.queue[0]) && o.removed == [])
        || (o.verdict == Consumed(1) && Waits(s.queue[0]) && |s.queue| == 1 && o.removed != []))
  }

  lemma PlainHeadCase(s: State)
    requires Valid(s.slots) && s.queue != [] && !IsMovedFrom(s.queue[0])
    requires Plain(s.slots, RootPaths(s.dirs), s.queue[0])
    ensures HeadCase(s, HeadOutcome(s))
  {
    PlainHandled(s.slots, RootPaths(s.dirs), s.queue[0], NextOf(s.queue), s.watches.Values);
  }

  lemma GoodHeadCase(s: State)
    requires Good(s) && s.queue != []
    ensures HeadCase(s, HeadOutcome(s)) && !IsMovedFrom(s.queue[0])
  {
    GoodHasNoOverflow(s);
    GoodHead(s);
    PlainHeadCase(s);
  }

  lemma MovingHeadCase(s: State, v: State, mv: Move, k: nat)
    requires Ahead(s, v, mv, k)
    ensures s.queue != [] && HeadCase(s, HeadOutcome(s))
  {
    if k == 0 {
      MoveOutcome(s, v, mv);
      assert s.queue[0] == NewsOf(mv)[0] && s.queue[1] == NewsOf(mv)[1];
    } else {
      HeadIsHarmless(s, v, mv, k);
      GoodHeadCase(v);
      PlainHeadCase(s);
    }
  }

  lemma LeavingHeadCase(prev: State, i: Ino, q: Ino, m: string, s: State)
    requires Left(prev, i, q, m, s)
    ensures s.queue != [] && HeadCase(s, HeadOutcome(s))
  {
    LeftFacts(prev, i, q, m, s);
    if prev.queue != [] {
      HeadAlike(prev, i, q, m, s);
      GoodHeadCase(prev);
    } else {
      LeftZapsSome(prev, i, q, m);
      FoundWatched(prev, prev.dirs[i].parent);
      LoneMoveCase(prev, i, q, m, s);
    }
  }

  lemma MovedFromWaits(wd: int, cookie: nat, n: string)
    requires wd >= 0
    ensures Waits(MovedFromEvent(wd, cookie, n))
  {
  }

  lemma LoneMoveCase(prev: State, i: Ino, q: Ino, m: string, s: State)
    requires Good(prev) && prev.queue == [] && Differs(prev, i, q, m, s) && q !in prev.watches
    requires ZappedWds(prev.slots, Path(prev.dirs, i)) != [] && CachedAs(prev, prev.dirs[i].parent)
    ensures s.queue != [] && HeadCase(s, HeadOutcome(s))
  {
    LeftOutcome(prev, i, q, m, s);
    MovedFromWaits(prev.watches[prev.dirs[i].parent], prev.cookie, prev.dirs[i].name);
    LoneNews(prev, i, q, m, s);
  }

  lemma LoneNews(prev: State, i: Ino, q: Ino, m: string, s: State)
    requires prev.queue == [] && Differs(prev, i, q, m, s) && q !in prev.watches
    ensures s.queue == [MovedFromEvent(prev.watches[prev.dirs[i].parent], prev.cookie, prev.dirs[i].name)]
  {
  }

  /** The directory that has left is watched, so its watch is removed. */
  lemma LeftZapsSome(prev: State, i: Ino, q: Ino, m: string)
    requires Good(prev) && CanRename(prev.dirs, i, q, m) && Monitored(prev.dirs, i) && Clear(ViewOf(prev), i, q, m)
    ensures ZappedWds(prev.slots, Path(prev.dirs, i)) != []
  {
    MovedIsWatched(ViewOf(prev), i, q, m, i);
    FoundWatched(prev, i);
    ZappedIffCovered(prev.slots, Path(prev.dirs, i), prev.watches[i]);
  }

  lemma SoundHeadCase(s: State)
    requires Sound(s) && s.queue != []
    ensures HeadCase(s, HeadOutcome(s))
  {
    if Good(s) {
      GoodHeadCase(s);
    } else if Moving(s) {
      var v, mv, k :| Ahead(s, v, mv, k);
      MovingHeadCase(s, v, mv, k);
    } else {
      var prev, i, q, m :| Left(prev, i, q, m, s);
      LeavingHeadCase(prev, i, q, m, s);
    }
  }

  /** What is in the queue beyond the event or the pair makes no difference. */
  lemma HeadAlone(s: State)
    requires s.queue != [] && HeadCase(s, HeadOutcome(s))
    ensures HandleFirst(s.slots, RootPaths(s.dirs), Unit(s.queue), false, s.watches.Values) == HeadOutcome(s)
    ensures |Unit(s.queue)| == HeadOutcome(s).verdict.events <= |s.queue|
  {
    ViewIrrelevant(s.slots, RootPaths(s.dirs), s.queue, false, s.watches.Values);
  }

  // ----- the story of a run -----

  /** What happens in a step: a change of the file system, a path that the scan visits and
      the directory it finds there, a listing, or the handling of the next event. */
  datatype Label = Change(op: FsOp) | Look(path: string, found: Option<Ino>) | Read(x: Ino, entries: set<Ino>) | Take

  ghost predicate Does(s: State, l: Label, s': State) {
    match l
    case Change(op) => CanDo(s, op) && Allowed(s, op) && s' == Done(s, op)
    case Look(path, found) =>
      && Tree(s.dirs) && path in s.work
      && (if found.Some? then Resolves(s.dirs, path, found.value) && s' == Visited(s, path, found.value)
          else (forall x :: !Resolves(s.dirs, path, x)) && s' == s.(work := s.work - {path}))
    case Read(x, found) => CanList(ViewOf(s), x, found) && s' == Listed(s, x, found)
    case Take => HandleStep(s, s')
  }

  ghost predicate DoesAt(run: seq<State>, labels: seq<Label>, k: nat)
    requires k < |labels| < |run|
  {
    Does(run[k], labels[k], run[k + 1])
  }

  /** A run of the system without an overflow, step by step. */
  ghost predicate Steps(run: seq<State>, labels: seq<Label>) {
    && |run| == |labels| + 1
    && Tree(run[0].dirs) && run[0] == Rebuilt(run[0].dirs, run[0].cookie)
    && (forall k :: 0 <= k < |labels| ==> DoesAt(run, labels, k))
  }

  /** What the kernel has told the program: the events it has queued, how many of them were
      handled, in which actions, the watches there were when an event was handled, by its
      position, and the visits of the scan that followed; the first scan, and the position
      of the last action. */
  datatype Story = Story(posted: seq<Event>, taken: nat, log: seq<EventLoop.Action>, live: map<nat, set<int>>,
                         visits: map<nat, seq<EventLoop.Visit>>, first: seq<EventLoop.Visit>, at: nat)

  const BLANK := Story([], 0, [], map[], map[], [], 0)

  /** The visit as traverseTree() sees it. */
  ghost function VisitOf(s: State, path: string, found: Option<Ino>): EventLoop.Visit {
    var wd := if found.Some? then WdFor(ViewOf(s), found.value) else -1;
    EventLoop.Visit(if wd >= -1 then wd else -1, path)
  }

  /** The visits after the last action. */
  function VisitsAt(st: Story): seq<EventLoop.Visit> {
    if st.at in st.visits then st.visits[st.at] else []
  }

  ghost function Tell(st: Story, s: State, l: Label, s': State): Story
    requires Does(s, l, s')
  {
    match l
    case Change(op) => st.(posted := st.posted + Posts(s, op))
    case Look(path, found) =>
      var v := VisitOf(s, path, found);
      if st.log == [] then st.(first := st.first + [v])
      else st.(visits := st.visits[st.at := VisitsAt(st) + [v]])
    case Read(_, _) => st
    case Take =>
      var o := HeadOutcome(s);
      Story(st.posted + IgnoredFor(o.removed), st.taken + (if o.verdict.Consumed? then o.verdict.events else 0),
            st.log + [EventLoop.FirstAction(s.queue)], st.live[st.taken := s.watches.Values],
            st.visits[st.taken := []], st.first, st.taken)
  }

  /** The story of the first n steps. */
  ghost function StoryUpTo(run: seq<State>, labels: seq<Label>, n: nat): Story
    requires Steps(run, labels) && n <= |labels|
    decreases n
  {
    if n == 0 then BLANK
    else
      assert DoesAt(run, labels, n - 1);
      Tell(StoryUpTo(run, labels, n - 1), run[n - 1], labels[n - 1], run[n])
  }

  ghost function StoryOf(run: seq<State>, labels: seq<Label>): Story
    requires Steps(run, labels)
  {
    StoryUpTo(run, labels, |labels|)
  }

  function KernelFor(live: map<nat, set<int>>, visits: map<nat, seq<EventLoop.Visit>>): EventLoop.Kernel {
    EventLoop.Kernel((c: nat) => if c in live then live[c] else {}, (c: nat) => if c in visits then visits[c] else [])
  }

  function KernelOf(st: Story): EventLoop.Kernel {
    KernelFor(st.live, st.visits)
  }

  /** The program after the first scan. */
  ghost function StartOf(st: Story, roots: set<string>): EventLoop.Program {
    EventLoop.Program(EventLoop.Visited([], st.first), roots, true)
  }

  // ----- kernels that agree so far -----

  ghost predicate AgreeBelow(k: EventLoop.Kernel, k': EventLoop.Kernel, c: nat) {
    forall d: nat :: d < c ==> k.live(d) == k'.live(d) && k.visits(d) == k'.visits(d)
  }

  lemma {:induction false} FlatGrows(log: seq<EventLoop.Action>, n: nat)
    requires n < |log| && EventLoop.AllPlain(log)
    ensures |EventLoop.Flat(log[..n])| < |EventLoop.Flat(log)|
    decreases |log|
  {
    var last := |log| - 1;
    assert EventLoop.Plain(log[last]);
    if n < last {
      assert log[..last][..n] == log[..n];
      EventLoop.PrefixPlain(log[..last], log);
      FlatGrows(log[..last], n);
    }
  }

  lemma HandlersAgree(k: EventLoop.Kernel, k': EventLoop.Kernel, c: nat, s: EventLoop.Program, es: seq<Event>)
    requires k.live(c) == k'.live(c)
    ensures EventLoop.HandlerOf(k)(c, s, es, false).verdict == EventLoop.HandlerOf(k')(c, s, es, false).verdict
    ensures k.visits(c) == k'.visits(c) ==>
              EventLoop.HandlerOf(k)(c, s, es, false) == EventLoop.HandlerOf(k')(c, s, es, false)
  {
    if es != [] {
      var o := HandleFirst(s.slots, s.roots, es, false, k.live(c));
      assert EventLoop.HandlerOf(k)(c, s, es, false) == EventLoop.Turn(o.verdict, EventLoop.After(k, c, o));
      assert EventLoop.HandlerOf(k')(c, s, es, false) == EventLoop.Turn(o.verdict, EventLoop.After(k', c, o));
    }
  }

  lemma {:induction false} ReplayAgrees(k: EventLoop.Kernel, k': EventLoop.Kernel, s: EventLoop.Program,
                                        log: seq<EventLoop.Action>, c: nat)
    requires AgreeBelow(k, k', c) && EventLoop.AllPlain(log) && |EventLoop.Flat(log)| <= c
    ensures EventLoop.Replay(EventLoop.HandlerOf(k), s, log) == EventLoop.Replay(EventLoop.HandlerOf(k'), s, log)
    decreases |log|
  {
    if log != [] {
      var n := |log| - 1;
      FlatGrows(log, n);
      EventLoop.PrefixPlain(log[..n], log);
      ReplayAgrees(k, k', s, log[..n], c);
      HandlersAgree(k, k', |EventLoop.Flat(log[..n])|, EventLoop.Replay(EventLoop.HandlerOf(k), s, log[..n]),
                    EventLoop.Needed(log[n]));
    }
  }

  lemma SmoothAgrees(k: EventLoop.Kernel, k': EventLoop.Kernel, s: EventLoop.Program, log: seq<EventLoop.Action>,
                     c: nat)
    requires AgreeBelow(k, k', c) && EventLoop.AllPlain(log) && |EventLoop.Flat(log)| <= c
    requires EventLoop.Smooth(EventLoop.HandlerOf(k), s, log)
    ensures EventLoop.Smooth(EventLoop.HandlerOf(k'), s, log)
  {
    forall n | 0 <= n < |log| ensures EventLoop.TakesNth(EventLoop.HandlerOf(k'), s, log, n) {
      assert EventLoop.TakesNth(EventLoop.HandlerOf(k), s, log, n);
      FlatGrows(log, n);
      EventLoop.PrefixPlain(log[..n], log);
      ReplayAgrees(k, k', s, log[..n], c);
      HandlersAgree(k, k', |EventLoop.Flat(log[..n])|, EventLoop.Replay(EventLoop.HandlerOf(k), s, log[..n]),
                    EventLoop.Needed(log[n]));
    }
  }

  // ----- what the story says of the state -----

  /** The queue holds what was queued and not handled, and the log what was handled. */
  ghost predicate Booked(st: Story, s: State) {
    && st.taken <= |st.posted| && s.queue == st.posted[st.taken..]
    && EventLoop.Flat(st.log) == st.posted[..st.taken] && EventLoop.AllPlain(st.log)
  }

  /** The n-th action is the one of a program that has all events in view, and whatever is
      queued later it will be. */
  ghost predicate IdealAt(posted: seq<Event>, log: seq<EventLoop.Action>, n: nat)
    requires n < |log|
  {
    var c := |EventLoop.Flat(log[..n])|;
    && c < |posted| && log[n] == EventLoop.FirstAction(posted[c..])
    && (c + 1 < |posted| || !Waits(posted[c]))
  }

  ghost predicate Ideal(posted: seq<Event>, log: seq<EventLoop.Action>) {
    forall n :: 0 <= n < |log| ==> IdealAt(posted, log, n)
  }

  /** Replaying the log gives the cache of the state. */
  ghost predicate InStep(st: Story, s: State, roots: set<string>) {
    var h := EventLoop.HandlerOf(KernelOf(st));
    && EventLoop.Replay(h, StartOf(st, roots), st.log) == EventLoop.Program(s.slots, roots, true)
    && EventLoop.Smooth(h, StartOf(st, roots), st.log)
  }

  /** The program before the last action, and the outcome of that action. */
  ghost function Base(st: Story, roots: set<string>): EventLoop.Program
    requires st.log != []
  {
    EventLoop.Replay(EventLoop.HandlerOf(KernelOf(st)), StartOf(st, roots), st.log[..|st.log| - 1])
  }

  ghost function LastOutcome(st: Story, roots: set<string>): Outcome
    requires st.log != [] && EventLoop.Needed(st.log[|st.log| - 1]) != []
  {
    var base := Base(st, roots);
    HandleFirst(base.slots, base.roots, EventLoop.Needed(st.log[|st.log| - 1]), false, KernelOf(st).live(st.at))
  }

  predicate Recorded(st: Story) {
    && (forall c :: c in st.live ==> c < st.taken)
    && (forall c :: c in st.visits ==> c < st.taken)
  }

  /** While a scan is going on, the last action has asked for it. */
  ghost predicate Asked(st: Story, s: State, roots: set<string>) {
    st.log != [] ==>
      && st.at == |EventLoop.Flat(st.log[..|st.log| - 1])|
      && EventLoop.Needed(st.log[|st.log| - 1]) != []
      && (s.work != {} || s.listing != map[] ==> LastOutcome(st, roots).scan.Some?)
  }

  /** The story fits the state. */
  ghost predicate Tracks(st: Story, s: State, roots: set<string>) {
    && Booked(st, s) && Ideal(st.posted, st.log) && Recorded(st)
    && InStep(st, s, roots) && Asked(st, s, roots)
  }

  ghost predicate Follows(st: Story, s: State, roots: set<string>) {
    Sound(s) && roots == RootPaths(s.dirs) && Tracks(st, s, roots)
  }

  lemma StoryStarts(s: State)
    requires Tree(s.dirs) && s == Rebuilt(s.dirs, s.cookie)
    ensures Follows(BLANK, s, RootPaths(s.dirs))
  {
    RebuiltGood(s.dirs, s.cookie);
  }

  lemma IdealMore(posted: seq<Event>, more: seq<Event>, log: seq<EventLoop.Action>)
    requires Ideal(posted, log)
    ensures Ideal(posted + more, log)
  {
    forall n | 0 <= n < |log| ensures IdealAt(posted + more, log, n) {
      assert IdealAt(posted, log, n);
      var c := |EventLoop.Flat(log[..n])|;
      assert (posted + more)[c..] == posted[c..] + more;
    }
  }

  // ----- changes and listings -----

  lemma ChangeBooked(st: Story, s: State, op: FsOp)
    requires CanDo(s, op) && Booked(st, s)
    ensures Booked(st.(posted := st.posted + Posts(s, op)), Done(s, op))
  {
    DonePosts(s, op);
    assert (st.posted + Posts(s, op))[st.taken..] == st.posted[st.taken..] + Posts(s, op);
  }

  lemma ChangeFollows(st: Story, s: State, op: FsOp, roots: set<string>)
    requires Follows(st, s, roots) && CanDo(s, op) && Sound(Done(s, op))
    ensures Follows(st.(posted := st.posted + Posts(s, op)), Done(s, op), roots)
  {
    RootsStay(s, op);
    ChangeBooked(st, s, op);
    IdealMore(st.posted, Posts(s, op), st.log);
  }

  lemma ReadFollows(st: Story, s: State, x: Ino, entries: set<Ino>, roots: set<string>)
    requires Follows(st, s, roots) && CanList(ViewOf(s), x, entries) && Sound(Listed(s, x, entries))
    ensures Follows(st, Listed(s, x, entries), roots)
  {
  }

  // ----- visits -----

  /** The kernel's descriptors start from 1. */
  predicate WdsOk(s: State) {
    s.nextWd >= 1 && forall i :: i in s.watches ==> s.watches[i] >= 1
  }

  lemma GoodWds(s: State)
    requires Good(s)
    ensures WdsOk(s)
  {
    forall i | i in s.watches ensures s.watches[i] >= 1 { assert WatchOk(ViewOf(s), i); }
  }

  lemma LeavingWds(prev: State, i: Ino, q: Ino, m: string, s: State)
    requires CanDo(prev, Rename(i, q, m)) && s == Done(prev, Rename(i, q, m)) && WdsOk(prev)
    ensures WdsOk(s)
  {
  }

  lemma SoundWds(s: State)
    requires Sound(s)
    ensures WdsOk(s)
  {
    if Good(s) {
      GoodWds(s);
    } else if Moving(s) {
      var v, mv, k :| Ahead(s, v, mv, k);
      GoodWds(v);
    } else {
      var prev, i, q, m :| Left(prev, i, q, m, s);
      GoodWds(prev);
      LeavingWds(prev, i, q, m, s);
    }
  }

  lemma VisitedMore(slots: seq<Slot>, visits: seq<EventLoop.Visit>, v: EventLoop.Visit)
    ensures EventLoop.Visited(slots, visits + [v]) == EventLoop.Visited(EventLoop.Visited(slots, visits), [v])
  {
    assert (visits + [v])[..|visits|] == visits;
    assert [v][..0] == [];
  }

  lemma LookSlots(s: State, path: string, found: Option<Ino>, s': State)
    requires WdsOk(s) && Does(s, Look(path, found), s')
    ensures s'.slots == EventLoop.Visited(s.slots, [VisitOf(s, path, found)])
    ensures s' == s.(slots := s'.slots, watches := s'.watches, nextWd := s'.nextWd, work := s'.work,
                     listing := s'.listing)
  {
    var v := VisitOf(s, path, found);
    assert [v][..0] == [];
  }

  lemma LookFirst(st: Story, s: State, v: EventLoop.Visit, s': State, roots: set<string>)
    requires Tracks(st, s, roots) && st.log == [] && s'.queue == s.queue
    requires s'.slots == EventLoop.Visited(s.slots, [v])
    ensures Tracks(st.(first := st.first + [v]), s', roots)
  {
    VisitedMore([], st.first, v);
  }

  lemma SmoothSplits(h: EventLoop.Handler, p: EventLoop.Program, log: seq<EventLoop.Action>)
    requires log != []
    ensures var n := |log| - 1;
            EventLoop.Smooth(h, p, log) <==> EventLoop.Smooth(h, p, log[..n]) && EventLoop.TakesNth(h, p, log, n)
  {
    var n := |log| - 1;
    assert forall j :: 0 <= j < n ==> log[..n][..j] == log[..j];
    if EventLoop.Smooth(h, p, log) {
      forall j | 0 <= j < n ensures EventLoop.TakesNth(h, p, log[..n], j) {
        assert EventLoop.TakesNth(h, p, log, j);
      }
    }
    if EventLoop.Smooth(h, p, log[..n]) {
      forall j | 0 <= j < n ensures EventLoop.TakesNth(h, p, log, j) {
        assert EventLoop.TakesNth(h, p, log[..n], j);
      }
    }
  }

  /** More visits after the last action: the log is replayed with those as well. */
  lemma MoreVisits(k: EventLoop.Kernel, k': EventLoop.Kernel, p: EventLoop.Program, log: seq<EventLoop.Action>, at: nat,
                   v: EventLoop.Visit)
    requires log != [] && EventLoop.AllPlain(log) && at == |EventLoop.Flat(log[..|log| - 1])|
    requires AgreeBelow(k, k', at) && k'.live(at) == k.live(at) && k'.visits(at) == k.visits(at) + [v]
    requires EventLoop.Needed(log[|log| - 1]) != [] && EventLoop.Smooth(EventLoop.HandlerOf(k), p, log)
    ensures var n := |log| - 1; var base := EventLoop.Replay(EventLoop.HandlerOf(k), p, log[..n]);
            var o := HandleFirst(base.slots, base.roots, EventLoop.Needed(log[n]), false, k.live(at));
            var r := EventLoop.Replay(EventLoop.HandlerOf(k), p, log);
            var r' := EventLoop.Replay(EventLoop.HandlerOf(k'), p, log);
            && EventLoop.Replay(EventLoop.HandlerOf(k'), p, log[..n]) == base
            && (o.scan.Some? ==> r' == r.(slots := EventLoop.Visited(r.slots, [v])))
            && EventLoop.Smooth(EventLoop.HandlerOf(k'), p, log)
  {
    var n := |log| - 1;
    EventLoop.PrefixPlain(log[..n], log);
    ReplayAgrees(k, k', p, log[..n], at);
    SmoothSplits(EventLoop.HandlerOf(k), p, log);
    SmoothAgrees(k, k', p, log[..n], at);
    SmoothSplits(EventLoop.HandlerOf(k'), p, log);
    var base := EventLoop.Replay(EventLoop.HandlerOf(k), p, log[..n]);
    var o := HandleFirst(base.slots, base.roots, EventLoop.Needed(log[n]), false, k.live(at));
    VisitedMore(o.slots, k.visits(at), v);
  }

  lemma KernelsAgree(st: Story, st': Story, v: EventLoop.Visit)
    requires st' == st.(visits := st.visits[st.at := VisitsAt(st) + [v]])
    ensures var k, k' := KernelOf(st), KernelOf(st');
            && AgreeBelow(k, k', st.at) && k'.live(st.at) == k.live(st.at)
            && k'.visits(st.at) == k.visits(st.at) + [v]
  {
  }

  lemma LookLater(st: Story, s: State, v: EventLoop.Visit, s': State, roots: set<string>)
    requires Tracks(st, s, roots) && st.log != [] && s'.queue == s.queue && s.work != {}
    requires s'.slots == EventLoop.Visited(s.slots, [v])
    ensures Tracks(st.(visits := st.visits[st.at := VisitsAt(st) + [v]]), s', roots)
  {
    var st' := st.(visits := st.visits[st.at := VisitsAt(st) + [v]]);
    KernelsAgree(st, st', v);
    FlatGrows(st.log, |st.log| - 1);
    LookInStep(st, s, st', s', v, roots);
  }

  lemma LookInStep(st: Story, s: State, st': Story, s': State, v: EventLoop.Visit, roots: set<string>)
    requires st.log != [] && EventLoop.AllPlain(st.log) && InStep(st, s, roots) && Asked(st, s, roots) && s.work != {}
    requires s'.slots == EventLoop.Visited(s.slots, [v])
    requires st' == st.(visits := st'.visits)
    requires var k, k' := KernelOf(st), KernelOf(st');
             && AgreeBelow(k, k', st.at) && k'.live(st.at) == k.live(st.at)
             && k'.visits(st.at) == k.visits(st.at) + [v]
    ensures InStep(st', s', roots) && Asked(st', s', roots)
  {
    MoreVisits(KernelOf(st), KernelOf(st'), StartOf(st, roots), st.log, st.at, v);
  }

  lemma LookFollows(st: Story, s: State, path: string, found: Option<Ino>, s': State, roots: set<string>)
    requires Follows(st, s, roots) && Does(s, Look(path, found), s') && Sound(s')
    ensures Follows(Tell(st, s, Look(path, found), s'), s', roots)
  {
    SoundWds(s);
    LookSlots(s, path, found, s');
    if st.log == [] {
      LookFirst(st, s, VisitOf(s, path, found), s', roots);
    } else {
      LookLater(st, s, VisitOf(s, path, found), s', roots);
    }
  }

  // ----- the next event -----

  lemma FirstIsPrefix(s: State)
    requires s.queue != [] && HeadCase(s, HeadOutcome(s))
    ensures HeadOutcome(s).verdict.Consumed? && HeadOutcome(s).verdict.events <= |s.queue|
    ensures EventLoop.EventsOf(EventLoop.FirstAction(s.queue)) == s.queue[..HeadOutcome(s).verdict.events]
  {
  }

  lemma TakeBooked(st: Story, s: State, st': Story, s': State, n: nat, more: seq<Event>, a: EventLoop.Action)
    requires Booked(st, s) && n <= |s.queue| && EventLoop.EventsOf(a) == s.queue[..n] && EventLoop.Plain(a)
    requires st'.posted == st.posted + more && st'.taken == st.taken + n && st'.log == st.log + [a]
    requires s'.queue == s.queue[n..] + more
    ensures Booked(st', s')
  {
    SlicesMove(st.posted, st.taken, n, more);
    EventLoop.FlatExtends(st.posted, st.taken, st.taken + n, st.log, a);
  }

  lemma SlicesMove(posted: seq<Event>, taken: nat, n: nat, more: seq<Event>)
    requires taken + n <= |posted|
    ensures posted[taken..][..n] == posted[taken..taken + n]
    ensures (posted + more)[..taken + n] == posted[..taken + n]
    ensures (posted + more)[taken + n..] == posted[taken..][n..] + more
  {
  }

  lemma TakeIdeal(st: Story, s: State, s': State)
    requires Booked(st, s) && HandleStep(s, s') && HeadCase(s, HeadOutcome(s)) && Ideal(st.posted, st.log)
    ensures var st' := Tell(st, s, Take, s'); Ideal(st'.posted, st'.log)
  {
    var more, a := IgnoredFor(HeadOutcome(s).removed), EventLoop.FirstAction(s.queue);
    var posted, log := st.posted + more, st.log + [a];
    IdealMore(st.posted, more, st.log);
    assert log[..|st.log|] == st.log;
    assert posted[st.taken..] == s.queue + more;
    forall n | 0 <= n < |log| ensures IdealAt(posted, log, n) {
      if n < |st.log| {
        assert IdealAt(posted, st.log, n);
        assert log[..n] == st.log[..n];
      }
    }
  }

  /** One more action: the log is replayed with it. */
  lemma OneMoreAction(k: EventLoop.Kernel, k': EventLoop.Kernel, p: EventLoop.Program, log: seq<EventLoop.Action>,
                      a: EventLoop.Action, c: nat, o: Outcome)
    requires AgreeBelow(k, k', c) && EventLoop.AllPlain(log) && |EventLoop.Flat(log)| == c
    requires EventLoop.Smooth(EventLoop.HandlerOf(k), p, log) && EventLoop.Needed(a) != [] && o.verdict.Consumed?
    requires var q := EventLoop.Replay(EventLoop.HandlerOf(k), p, log);
             o == HandleFirst(q.slots, q.roots, EventLoop.Needed(a), false, k'.live(c))
    ensures EventLoop.Replay(EventLoop.HandlerOf(k'), p, log) == EventLoop.Replay(EventLoop.HandlerOf(k), p, log)
    ensures EventLoop.Replay(EventLoop.HandlerOf(k'), p, log + [a]) == EventLoop.After(k', c, o)
    ensures EventLoop.Smooth(EventLoop.HandlerOf(k'), p, log + [a])
  {
    assert (log + [a])[..|log|] == log;
    ReplayAgrees(k, k', p, log, c);
    SmoothAgrees(k, k', p, log, c);
    EventLoop.ReplayAppend(EventLoop.HandlerOf(k'), p, log, c, a);
    SmoothSplits(EventLoop.HandlerOf(k'), p, log + [a]);
  }

  lemma TakeInStep(st: Story, s: State, st': Story, s': State, roots: set<string>, a: EventLoop.Action, o: Outcome,
                   live: set<int>)
    requires Booked(st, s) && InStep(st, s, roots) && Recorded(st)
    requires o.verdict.Consumed? && o.verdict.events > 0 && o.roots == roots && EventLoop.Needed(a) != []
    requires o == HandleFirst(s.slots, roots, EventLoop.Needed(a), false, live)
    requires s'.slots == o.slots && s'.listing == map[] && (s'.work != {} ==> o.scan.Some?)
    requires st' == Story(st'.posted, st.taken + o.verdict.events, st.log + [a], st.live[st.taken := live],
                          st.visits[st.taken := []], st.first, st.taken)
    ensures InStep(st', s', roots) && Asked(st', s', roots) && Recorded(st')
  {
    OneMoreAction(KernelOf(st), KernelOf(st'), StartOf(st, roots), st.log, a, st.taken, o);
    assert st'.log[..|st.log|] == st.log;
  }

  /** What the state has after the event or the pair. */
  lemma TakeEffects(s: State, s': State)
    requires HandleStep(s, s') && HeadCase(s, HeadOutcome(s))
    ensures var o := HeadOutcome(s);
            && s'.queue == s.queue[o.verdict.events..] + IgnoredFor(o.removed) && s'.dirs == s.dirs
            && s'.slots == o.slots && s'.listing == map[] && (s'.work != {} ==> o.scan.Some?)
  {
  }

  lemma TakeTracks(st: Story, s: State, s': State, roots: set<string>)
    requires Tracks(st, s, roots) && roots == RootPaths(s.dirs)
    requires HandleStep(s, s') && HeadCase(s, HeadOutcome(s))
    ensures Tracks(Tell(st, s, Take, s'), s', roots)
  {
    var o, a, st' := HeadOutcome(s), EventLoop.FirstAction(s.queue), Tell(st, s, Take, s');
    FirstIsPrefix(s);
    TakeEffects(s, s');
    TakeBooked(st, s, st', s', o.verdict.events, IgnoredFor(o.removed), a);
    TakeIdeal(st, s, s');
    HeadAlone(s);
    EventLoop.UnitNeeded(s.queue, Consumed(1));
    TakeInStep(st, s, st', s', roots, a, o, s.watches.Values);
  }

  lemma TakeFollows(st: Story, s: State, s': State, roots: set<string>)
    requires Follows(st, s, roots) && HandleStep(s, s') && Sound(s')
    ensures Follows(Tell(st, s, Take, s'), s', roots)
  {
    SoundHeadCase(s);
    TakeEffects(s, s');
    TakeTracks(st, s, s', roots);
  }

  // ----- whole runs -----

  lemma DoesIsStep(s: State, l: Label, s': State)
    requires Does(s, l, s')
    ensures if l.Change? then FsStep(s, s') else ProgramStep(s, s')
  {
    match l
    case Change(op) => assert CanDo(s, op) && Allowed(s, op) && s' == Done(s, op);
    case Look(path, found) => assert VisitPath(s, path, s');
    case Read(x, entries) => assert CanList(ViewOf(s), x, entries);
    case Take =>
  }

  lemma LeavingIsStill(prev: State, i: Ino, q: Ino, m: string, s: State, s': State)
    requires Left(prev, i, q, m, s)
    ensures !FsStep(s, s')
  {
    LeftFacts(prev, i, q, m, s);
    MoveIsPending(prev, i, q, m, s);
    NoFsStep(s, s');
  }

  lemma SoundFs(s: State, s': State)
    requires Sound(s) && FsStep(s, s')
    ensures Sound(s')
  {
    if Good(s) {
      GoodFsStep(s, s');
    } else if Moving(s) {
      var v, mv, k :| Ahead(s, v, mv, k);
      MovingFsStep(s, v, mv, k, s');
    } else {
      var prev, i, q, m :| Left(prev, i, q, m, s);
      LeavingIsStill(prev, i, q, m, s, s');
    }
  }

  lemma DoesKeeps(s: State, l: Label, s': State)
    requires Sound(s) && Does(s, l, s')
    ensures Sound(s')
  {
    DoesIsStep(s, l, s');
    if l.Change? {
      SoundFs(s, s');
    } else {
      ProgramKeeps(s, s');
    }
  }

  lemma StoryGoesOn(st: Story, s: State, l: Label, s': State, roots: set<string>)
    requires Follows(st, s, roots) && Does(s, l, s')
    ensures Follows(Tell(st, s, l, s'), s', roots)
  {
    DoesKeeps(s, l, s');
    match l
    case Change(op) => ChangeFollows(st, s, op, roots);
    case Look(path, found) => LookFollows(st, s, path, found, s', roots);
    case Read(x, entries) => ReadFollows(st, s, x, entries, roots);
    case Take => TakeFollows(st, s, s', roots);
  }

  lemma StoryGoesOnAt(run: seq<State>, labels: seq<Label>, n: nat, roots: set<string>)
    requires Steps(run, labels) && n < |labels| && Follows(StoryUpTo(run, labels, n), run[n], roots)
    ensures Follows(StoryUpTo(run, labels, n + 1), run[n + 1], roots)
  {
    assert DoesAt(run, labels, n);
    StoryGoesOn(StoryUpTo(run, labels, n), run[n], labels[n], run[n + 1], roots);
  }

  lemma StoryFollows(run: seq<State>, labels: seq<Label>)
    requires Steps(run, labels)
    ensures Follows(StoryOf(run, labels), run[|labels|], RootPaths(run[0].dirs))
  {
    StoryStarts(run[0]);
    for n := 0 to |labels|
      invariant Follows(StoryUpTo(run, labels, n), run[n], RootPaths(run[0].dirs))
    {
      StoryGoesOnAt(run, labels, n, RootPaths(run[0].dirs));
    }
  }

  /** A log of such actions is the beginning of the ideal log. */
  lemma {:induction false} IdealIsPrefix(posted: seq<Event>, log: seq<EventLoop.Action>, c: nat)
    requires c <= |posted| && EventLoop.Flat(log) == posted[..c] && Ideal(posted, log)
    ensures log <= EventLoop.PairUp(posted)
    decreases |log|
  {
    if log != [] {
      var n := |log| - 1;
      var b := |EventLoop.Flat(log[..n])|;
      EventLoop.FlatLast(log, posted, c);
      IdealShorter(posted, log);
      IdealIsPrefix(posted, log[..n], b);
      assert IdealAt(posted, log, n);
      EventLoop.OneMore(posted, log[..n], b, log[n]);
      assert log[..n] + [log[n]] == log;
    }
  }

  lemma IdealShorter(posted: seq<Event>, log: seq<EventLoop.Action>)
    requires log != [] && Ideal(posted, log)
    ensures Ideal(posted, log[..|log| - 1])
  {
    var n := |log| - 1;
    forall j | 0 <= j < n ensures IdealAt(posted, log[..n], j) {
      assert IdealAt(posted, log, j);
      assert log[..n][..j] == log[..j];
    }
  }

  lemma IdealIsPairUp(posted: seq<Event>, log: seq<EventLoop.Action>)
    requires EventLoop.Flat(log) == posted && Ideal(posted, log)
    ensures log == EventLoop.PairUp(posted)
  {
    assert posted[..|posted|] == posted;
    IdealIsPrefix(posted, log, |posted|);
    EventLoop.RestOfPairUp(posted, log, |posted|);
    assert posted[|posted|..] == [];
  }

  /** Each step of a labelled run is one of the system. */
  lemma StepsAreRun(run: seq<State>, labels: seq<Label>)
    requires Steps(run, labels)
    ensures IsRun(run)
  {
    forall k | 0 <= k < |run| - 1 ensures Step(run[k], run[k + 1]) {
      assert DoesAt(run, labels, k);
      DoesIsStep(run[k], labels[k], run[k + 1]);
    }
  }

  /** The label of a step that does not overflow the queue. */
  lemma LabelOf(s: State, s': State) returns (l: Label)
    requires Step(s, s') && Tree(s.dirs) && !Overflown(s.queue) && !Overflown(s'.queue)
    ensures Does(s, l, s')
  {
    if FsStep(s, s') {
      var op :| CanDo(s, op) && Allowed(s, op) && s' == Done(s, op);
      l := Change(op);
    } else if VisitStep(s, s') {
      var path :| path in s.work && VisitPath(s, path, s');
      var x := VisitFinds(s, path, s');
      l := Look(path, x);
    } else if ListStep(s, s') {
      var x, entries :| CanList(ViewOf(s), x, entries) && s' == Listed(s, x, entries);
      l := Read(x, entries);
    } else {
      assert OVERFLOW in s.queue + [OVERFLOW];
      l := Take;
    }
  }

  ghost predicate NeverOverflown(run: seq<State>) {
    forall k :: 0 <= k < |run| ==> !Overflown(run[k].queue)
  }

  lemma StateInvTree(s: State)
    requires StateInv(s)
    ensures Tree(s.dirs)
  {
    if Sound(s) { SoundNotOverflown(s); }
  }

  lemma TreeInRun(run: seq<State>, k: nat)
    requires IsRun(run) && k < |run|
    ensures Tree(run[k].dirs)
  {
    EveryStateInv(run, k);
    StateInvTree(run[k]);
  }

  ghost predicate Labelled(run: seq<State>, labels: seq<Label>) {
    |labels| < |run| && forall k :: 0 <= k < |labels| ==> DoesAt(run, labels, k)
  }

  lemma OneMoreLabel(run: seq<State>, labels: seq<Label>) returns (l: Label)
    requires IsRun(run) && NeverOverflown(run) && Labelled(run, labels) && |labels| + 1 < |run|
    ensures Labelled(run, labels + [l])
  {
    var n := |labels|;
    TreeInRun(run, n);
    assert Step(run[n], run[n + 1]);
    l := LabelOf(run[n], run[n + 1]);
    forall k | 0 <= k <= n ensures DoesAt(run, labels + [l], k) {
      if k < n { assert DoesAt(run, labels, k); }
    }
  }

  /** Every run of the system in which the queue never overflows has labels. */
  lemma RunHasLabels(run: seq<State>) returns (labels: seq<Label>)
    requires IsRun(run) && NeverOverflown(run)
    ensures Steps(run, labels)
  {
    labels := [];
    while |labels| + 1 < |run|
      invariant Labelled(run, labels)
    {
      var l := OneMoreLabel(run, labels);
      labels := labels + [l];
    }
  }

  /** The other half of every rename() pair comes before the alarm rings. */
  ghost predicate InTime(arrivals: EventBuffer.Arrivals, stream: seq<Event>) {
    forall d: nat :: d + 1 < |stream| && Paired(stream[d..]) ==> arrivals.late(d + 1) > 0
  }

  /** When everything is handled, the loop on bytes has done what the story tells. */
  lemma RunsAsTold(st: Story, s: State, roots: set<string>, k: EventLoop.Kernel, arrivals: EventBuffer.Arrivals,
                   raw: seq<RawEvents.Record>)
    requires Tracks(st, s, roots) && s.queue == [] && AgreeBelow(KernelOf(st), k, |st.posted|)
    requires RawEvents.Events(raw) == st.posted && InTime(arrivals, st.posted)
    ensures EventBuffer.RunEvents(k, arrivals, raw, StartOf(st, roots)).program
         == EventLoop.Program(s.slots, roots, true)
  {
    assert st.posted[..st.taken] == st.posted;
    ReplayAgrees(KernelOf(st), k, StartOf(st, roots), st.log, |st.posted|);
    SmoothAgrees(KernelOf(st), k, StartOf(st, roots), st.log, |st.posted|);
    IdealIsPairUp(st.posted, st.log);
    EventBuffer.DrainsAsIfAllInView(k, arrivals, raw, StartOf(st, roots));
  }

  /** The program on bytes keeps its cache in agreement with the file system. Take any run of
      the system without an overflow that ends with the queue drained and the scan finished.
      Fed with the bytes of the events that were queued in it, however the reads cut them,
      and with the watches and directories that it met there, the loop ends with the cache
      of that run, and that cache holds the monitored directories and nothing else. */
  lemma BytesFollowTrees(run: seq<State>, labels: seq<Label>, arrivals: EventBuffer.Arrivals,
                         raw: seq<RawEvents.Record>)
    requires Steps(run, labels) && Idle(run[|labels|])
    requires RawEvents.Events(raw) == StoryOf(run, labels).posted && InTime(arrivals, RawEvents.Events(raw))
    ensures var st, s, roots := StoryOf(run, labels), run[|labels|], RootPaths(run[0].dirs);
            && EventBuffer.RunEvents(KernelOf(st), arrivals, raw, StartOf(st, roots)).program
            == EventLoop.Program(s.slots, roots, true)
            && Settled(s, s.dirs)
  {
    StoryFollows(run, labels);
    var st := StoryOf(run, labels);
    RunsAsTold(st, run[|labels|], RootPaths(run[0].dirs), KernelOf(st), arrivals, raw);
    StepsAreRun(run, labels);
    CacheFollowsTrees(run, |labels|);
  }

  ghost predicate AllFit(stream: seq<Event>) {
    forall i :: 0 <= i < |stream| ==> RawEvents.Fits(stream[i])
  }

  /** This covers every run of the system in which the queue never overflows, as long as
      descriptors, cookies and names are of the size that the kernel's events have room for. */
  lemma EveryRunHasBytes(run: seq<State>) returns (labels: seq<Label>, raw: seq<RawEvents.Record>)
    requires IsRun(run) && NeverOverflown(run)
    ensures Steps(run, labels)
    ensures AllFit(StoryOf(run, labels).posted) ==> RawEvents.Events(raw) == StoryOf(run, labels).posted
  {
    labels := RunHasLabels(run);
    raw := [];
    if AllFit(StoryOf(run, labels).posted) {
      raw := RawEvents.StreamRoundTrip(StoryOf(run, labels).posted);
    }
  }

  /** main() from the first scan on. */
  method WatchTrees(roots: set<string>, first: seq<EventLoop.Visit>, k: EventLoop.Kernel,
                    arrivals: EventBuffer.Arrivals, raw: seq<RawEvents.Record>, ghost run: seq<State>,
                    ghost labels: seq<Label>)
    returns (cache: Cache)
    requires Steps(run, labels) && Idle(run[|labels|]) && roots == RootPaths(run[0].dirs)
    requires RawEvents.Events(raw) == StoryOf(run, labels).posted && InTime(arrivals, RawEvents.Events(raw))
    requires first == StoryOf(run, labels).first && k == KernelOf(StoryOf(run, labels))
    ensures cache.slots == run[|labels|].slots && Settled(run[|labels|], run[|labels|].dirs)
  {
    BytesFollowTrees(run, labels, arrivals, raw);
    cache := new Cache();
    EventBuffer.Traverse(cache, first);
    var st := EventBuffer.DrainEvents(cache, roots, k, arrivals, raw);
  }
}
