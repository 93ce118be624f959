/** What holds in every run of the system: the cache agrees with the directory trees
    whenever the program has caught up. */
module DtreeProtocol {
  import opened DirTree
  import opened WatchCache
  import opened EventHandler
  import opened DtreeInvariant
  import opened DtreeSteps
  import opened DtreeLeaving
  import opened DtreeMoving

  // ----- steps while events are being lost -----

  lemma FsKeepsTree(s: State, op: FsOp)
    requires CanDo(s, op)
    ensures Tree(Done(s, op).dirs) && s.queue <= Done(s, op).queue
  {
    match op
    case Mkdir(i, p, n) => MkdirTree(s.dirs, i, p, n);
    case Rmdir(i) => RmdirTree(s.dirs, i);
    case Rename(i, q, m) => RenameTree(s.dirs, i, q, m);
    case FileChange(e) =>
  }

  /** The program finds its cache, or the queue, beyond repair and starts again. */
  ghost predicate Rebuilds(s: State, s': State) {
    HandleStep(s, s') && HeadOutcome(s).verdict == Rebuild && s' == Rebuilt(s.dirs, s.cookie)
  }

  lemma LostKeeps(s: State, s': State)
    requires Lost(s) && Step(s, s')
    ensures Lost(s') || Rebuilds(s, s')
  {
    if FsStep(s, s') {
      var op :| CanDo(s, op) && (s' == Done(s, op) || s' == Done(s, op).(queue := s.queue));
      FsKeepsTree(s, op);
    } else if HandleStep(s, s') {
      LostHandleStep(s, s');
    }
  }

  lemma LostHandleStep(s: State, s': State)
    requires Lost(s) && HandleStep(s, s')
    ensures Lost(s') || Rebuilds(s, s')
  {
    var o := HeadOutcome(s);
    if !o.verdict.Rebuild? {
      var n := o.verdict.events;
      var k :| 0 <= k < |s.queue| && s.queue[k] == OVERFLOW;
      assert n == 2 ==> Pairs(s.queue[0], NextOf(s.queue));
      assert k >= n;
      assert s'.queue[k - n] == OVERFLOW;
    }
  }

  /** Until the overflow event is reached the queue keeps it, and then the cache is
      rebuilt from scratch. */
  lemma LostStep(s: State, s': State)
    requires Lost(s) && Step(s, s')
    ensures Good(s') || Lost(s')
    ensures Lost(s') || Rebuilds(s, s')
  {
    LostKeeps(s, s');
    if !Lost(s') { RebuiltGood(s.dirs, s.cookie); }
  }

  // ----- the theorems -----

  /** A rename of a monitored directory within the trees, or out of them. */
  lemma GoodFsStep(s: State, s': State)
    requires Good(s) && FsStep(s, s')
    ensures Good(s') || Moving(s') || Leaving(s')
  {
    GoodHasNoOverflow(s);
    var op :| CanDo(s, op) && Allowed(s, op) && s' == Done(s, op);
    if !op.Rename? || !Monitored(s.dirs, op.i) {
      GoodFsOp(s, op);
    } else if Monitored(s.dirs, op.q) {
      MoveStarts(s, op.i, op.q, op.m);
    } else {
      assert Left(s, op.i, op.q, op.m, s');
    }
  }

  lemma StateInvStep(s: State, s': State)
    requires StateInv(s) && Step(s, s')
    ensures StateInv(s')
  {
    if Lost(s) {
      LostStep(s, s');
    } else if Moving(s) {
      MovingStep(s, s');
    } else if Leaving(s) {
      LeavingStep(s, s');
    } else if FsStep(s, s') {
      GoodFsStep(s, s');
    } else if VisitStep(s, s') {
      GoodVisitStep(s, s');
    } else if ListStep(s, s') {
      GoodListStep(s, s');
    } else if HandleStep(s, s') {
      HandledGood(s, s');
    }
  }

  lemma {:induction false} EveryStateInv(run: seq<State>, k: nat)
    requires IsRun(run) && k < |run|
    ensures StateInv(run[k])
    decreases k
  {
    if k == 0 {
      RebuiltGood(run[0].dirs, run[0].cookie);
    } else {
      EveryStateInv(run, k - 1);
      assert Step(run[k - 1], run[k - 1 + 1]);
      StateInvStep(run[k - 1], run[k]);
    }
  }

  /** No overflow is on its way. */
  ghost predicate Sound(s: State) {
    Good(s) || Moving(s) || Leaving(s)
  }

  lemma SoundNotOverflown(s: State)
    requires Sound(s)
    ensures Tree(s.dirs) && !Overflown(s.queue) && (Good(s) || s.queue != [])
  {
    if Good(s) {
      GoodHasNoOverflow(s);
    } else if Moving(s) {
      var v, mv, k :| Ahead(s, v, mv, k);
      MoveInQueue(s, v, mv, k);
    } else {
      var prev, i, q, m :| Left(prev, i, q, m, s);
      LeftFacts(prev, i, q, m, s);
      MoveIsPending(prev, i, q, m, s);
    }
  }

  lemma IdleIsGood(s: State)
    requires StateInv(s) && Idle(s)
    ensures Good(s)
  {
    if Sound(s) { SoundNotOverflown(s); }
  }

  /** In every run, whenever the queue is drained and the scan has finished, the cache
      holds every directory under the roots exactly once, with its true path, and
      nothing else. */
  lemma CacheFollowsTrees(run: seq<State>, k: nat)
    requires IsRun(run) && k < |run| && Idle(run[k])
    ensures Tree(run[k].dirs) && Valid(run[k].slots) && InSync(ViewOf(run[k]))
  {
    EveryStateInv(run, k);
    IdleIsGood(run[k]);
    QuietIsInSync(ViewOf(run[k]));
  }

  lemma SoundConsumes(s: State)
    requires Sound(s) && s.queue != []
    ensures HeadOutcome(s).verdict.Consumed? && HeadOutcome(s).verdict.events <= |s.queue|
  {
    if Good(s) {
      GoodHeadOutcome(s);
    } else if Moving(s) {
      var v, mv, k :| Ahead(s, v, mv, k);
      MovingConsumes(s, v, mv, k);
    } else {
      var prev, i, q, m :| Left(prev, i, q, m, s);
      LeavingConsumes(prev, i, q, m, s);
    }
  }

  lemma MovingConsumes(s: State, v: State, mv: Move, k: nat)
    requires Ahead(s, v, mv, k)
    ensures s.queue != [] && HeadOutcome(s).verdict.Consumed? && HeadOutcome(s).verdict.events <= |s.queue|
  {
    if k == 0 {
      MoveOutcome(s, v, mv);
    } else {
      MoveOutcomes(s, v, mv, k);
    }
  }

  lemma LeavingConsumes(prev: State, i: Ino, q: Ino, m: string, s: State)
    requires Left(prev, i, q, m, s)
    ensures s.queue != [] && HeadOutcome(s).verdict.Consumed? && HeadOutcome(s).verdict.events <= |s.queue|
  {
    LeftFacts(prev, i, q, m, s);
    if prev.queue != [] {
      HeadAlike(prev, i, q, m, s);
    } else {
      LeftOutcome(prev, i, q, m, s);
    }
  }

  /** As long as the queue does not overflow, the program never finds its cache
      inconsistent: every event it handles, or pair of events, is consumed. */
  lemma NeverRebuilds(run: seq<State>, k: nat)
    requires IsRun(run) && k < |run| && run[k].queue != [] && !Overflown(run[k].queue)
    ensures HeadOutcome(run[k]).verdict.Consumed?
  {
    EveryStateInv(run, k);
    SoundConsumes(run[k]);
  }
}
