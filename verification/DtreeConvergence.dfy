/** The program of inotify_dtree.c catches up: when the file system holds still, each of
    its steps makes progress, so that the queue is drained and the scan ends, whichever
    steps it takes. */
module DtreeConvergence {
  import opened Options
  import opened PathNames
  import opened DirTree
  import opened WatchCache
  import opened EventHandler
  import opened DtreeInvariant
  import opened DtreeProgram
  import opened DtreeSteps
  import opened DtreeLeaving
  import opened DtreeMoving
  import opened DtreeProtocol

  // ----- sums over finite sets -----

  ghost function Sum<T>(s: set<T>, w: map<T, nat>): nat
    requires s <= w.Keys
  {
    if s == {} then 0
    else
      var x :| x in s;
      w[x] + Sum(s - {x}, w)
  }

  lemma {:induction false} SumPick<T>(s: set<T>, w: map<T, nat>, x: T)
    requires s <= w.Keys && x in s
    ensures Sum(s, w) == w[x] + Sum(s - {x}, w)
    decreases s
  {
    var y :| y in s && Sum(s, w) == w[y] + Sum(s - {y}, w);
    if y != x {
      SumPick(s - {y}, w, x);
      SumPick(s - {x}, w, y);
      assert s - {y} - {x} == s - {x} - {y};
    }
  }

  /** Weights that agree on the set give the same sum. */
  lemma {:induction false} SumAgrees<T>(s: set<T>, w: map<T, nat>, w': map<T, nat>)
    requires s <= w.Keys && s <= w'.Keys && forall x :: x in s ==> w[x] == w'[x]
    ensures Sum(s, w) == Sum(s, w')
    decreases s
  {
    if s != {} {
      var x :| x in s;
      SumPick(s, w, x);
      SumPick(s, w', x);
      SumAgrees(s - {x}, w, w');
    }
  }

  lemma {:induction false} SumUnion<T>(a: set<T>, b: set<T>, w: map<T, nat>)
    requires a + b <= w.Keys
    ensures Sum(a + b, w) <= Sum(a, w) + Sum(b, w)
    decreases b
  {
    if b == {} {
      assert a + b == a;
    } else {
      var x :| x in b;
      SumPick(b, w, x);
      SumUnion(a, b - {x}, w);
      if x in a {
        assert a + b == a + (b - {x});
      } else {
        assert a + b - {x} == a + (b - {x});
        SumPick(a + b, w, x);
      }
    }
  }

  lemma {:induction false} SumSubset<T>(a: set<T>, b: set<T>, w: map<T, nat>)
    requires a <= b <= w.Keys
    ensures Sum(a, w) <= Sum(b, w)
    decreases b
  {
    if a != {} {
      var x :| x in a;
      SumPick(a, w, x);
      SumPick(b, w, x);
      SumSubset(a - {x}, b - {x}, w);
    }
  }

  // ----- how much scanning a directory takes -----

  ghost predicate Bounded(dirs: Dirs, bound: nat)
    requires Tree(dirs)
  {
    forall i :: i in dirs ==> Rank(dirs)[i] < bound
  }

  lemma {:induction false} BoundExists(rank: map<Ino, nat>, xs: set<Ino>) returns (bound: nat)
    requires xs <= rank.Keys
    ensures forall x :: x in xs ==> rank[x] < bound
    decreases xs
  {
    if xs == {} {
      bound := 0;
    } else {
      var x :| x in xs;
      bound := BoundExists(rank, xs - {x});
      bound := if rank[x] < bound then bound else rank[x] + 1;
    }
  }

  /** Steps to list directory i and to scan all that lies below it. */
  ghost function ListingWeight(dirs: Dirs, bound: nat, i: Ino): nat
    requires Tree(dirs) && Bounded(dirs, bound) && i in dirs
    decreases bound - Rank(dirs)[i]
  {
    1 + Sum(Children(dirs, i), map c | c in Children(dirs, i) :: 1 + ListingWeight(dirs, bound, c))
  }

  /** Steps to visit a path and scan what it leads to. */
  ghost function PathWeight(dirs: Dirs, bound: nat, path: string): nat
    requires Tree(dirs) && Bounded(dirs, bound)
  {
    if i :| Resolves(dirs, path, i) then 1 + ListingWeight(dirs, bound, i) else 1
  }

  lemma PathWeightOf(dirs: Dirs, bound: nat, path: string, i: Ino)
    requires Tree(dirs) && Bounded(dirs, bound) && Resolves(dirs, path, i)
    ensures PathWeight(dirs, bound, path) == 1 + ListingWeight(dirs, bound, i)
  {
    forall j | Resolves(dirs, path, j) ensures j == i {
      PathInjective(dirs, j, i);
    }
  }

  ghost function WorkSum(dirs: Dirs, bound: nat, work: set<string>): nat
    requires Tree(dirs) && Bounded(dirs, bound)
  {
    Sum(work, map p | p in work :: PathWeight(dirs, bound, p))
  }

  /** Steps to list directory i, reached by `path`, and to scan what that yields. */
  ghost function JobWeight(dirs: Dirs, bound: nat, i: Ino, path: string): nat
    requires Tree(dirs) && Bounded(dirs, bound)
  {
    1 + WorkSum(dirs, bound, Entries(dirs, path, Children(dirs, i)))
  }

  ghost function JobSum(dirs: Dirs, bound: nat, listing: map<Ino, Job>): nat
    requires Tree(dirs) && Bounded(dirs, bound)
  {
    Sum(listing.Keys, map i | i in listing :: JobWeight(dirs, bound, i, listing[i].path))
  }

  /** What the scan has still to do. */
  ghost function ScanWeight(s: State, bound: nat): nat
    requires Tree(s.dirs) && Bounded(s.dirs, bound)
  {
    WorkSum(s.dirs, bound, s.work) + JobSum(s.dirs, bound, s.listing)
  }

  lemma WorkPick(dirs: Dirs, bound: nat, work: set<string>, path: string)
    requires Tree(dirs) && Bounded(dirs, bound) && path in work
    ensures WorkSum(dirs, bound, work) == PathWeight(dirs, bound, path) + WorkSum(dirs, bound, work - {path})
  {
    var w := map p | p in work :: PathWeight(dirs, bound, p);
    SumPick(work, w, path);
    SumAgrees(work - {path}, w, map p | p in work - {path} :: PathWeight(dirs, bound, p));
  }

  lemma WorkUnion(dirs: Dirs, bound: nat, a: set<string>, b: set<string>)
    requires Tree(dirs) && Bounded(dirs, bound)
    ensures WorkSum(dirs, bound, a + b) <= WorkSum(dirs, bound, a) + WorkSum(dirs, bound, b)
  {
    var w := map p | p in a + b :: PathWeight(dirs, bound, p);
    SumUnion(a, b, w);
    SumAgrees(a, w, map p | p in a :: PathWeight(dirs, bound, p));
    SumAgrees(b, w, map p | p in b :: PathWeight(dirs, bound, p));
  }

  lemma WorkSubset(dirs: Dirs, bound: nat, a: set<string>, b: set<string>)
    requires Tree(dirs) && Bounded(dirs, bound) && a <= b
    ensures WorkSum(dirs, bound, a) <= WorkSum(dirs, bound, b)
  {
    var w := map p | p in b :: PathWeight(dirs, bound, p);
    SumSubset(a, b, w);
    SumAgrees(a, w, map p | p in a :: PathWeight(dirs, bound, p));
  }

  lemma JobPick(dirs: Dirs, bound: nat, listing: map<Ino, Job>, i: Ino)
    requires Tree(dirs) && Bounded(dirs, bound) && i in listing
    ensures JobSum(dirs, bound, listing)
         == JobWeight(dirs, bound, i, listing[i].path) + JobSum(dirs, bound, listing - {i})
  {
    var w := map x | x in listing :: JobWeight(dirs, bound, x, listing[x].path);
    var rest := listing - {i};
    SumPick(listing.Keys, w, i);
    assert rest.Keys == listing.Keys - {i};
    SumAgrees(rest.Keys, w, map x | x in rest :: JobWeight(dirs, bound, x, rest[x].path));
  }

  lemma JobSet(dirs: Dirs, bound: nat, listing: map<Ino, Job>, i: Ino, job: Job)
    requires Tree(dirs) && Bounded(dirs, bound)
    ensures JobSum(dirs, bound, listing[i := job])
         <= JobSum(dirs, bound, listing) + JobWeight(dirs, bound, i, job.path)
  {
    JobPick(dirs, bound, listing[i := job], i);
    assert listing[i := job] - {i} == listing - {i};
    if i in listing {
      JobPick(dirs, bound, listing, i);
    } else {
      assert listing - {i} == listing;
    }
  }

  ghost function ChildSum(dirs: Dirs, bound: nat, cs: set<Ino>): nat
    requires Tree(dirs) && Bounded(dirs, bound) && cs <= dirs.Keys
  {
    Sum(cs, map c | c in cs :: 1 + ListingWeight(dirs, bound, c))
  }

  lemma ChildPick(dirs: Dirs, bound: nat, cs: set<Ino>, x: Ino)
    requires Tree(dirs) && Bounded(dirs, bound) && cs <= dirs.Keys && x in cs
    ensures ChildSum(dirs, bound, cs) == 1 + ListingWeight(dirs, bound, x) + ChildSum(dirs, bound, cs - {x})
  {
    var w := map c | c in cs :: 1 + ListingWeight(dirs, bound, c);
    SumPick(cs, w, x);
    SumAgrees(cs - {x}, w, map c | c in cs - {x} :: 1 + ListingWeight(dirs, bound, c));
  }

  lemma ListingIsChildren(dirs: Dirs, bound: nat, i: Ino)
    requires Tree(dirs) && Bounded(dirs, bound) && i in dirs
    ensures ListingWeight(dirs, bound, i) == 1 + ChildSum(dirs, bound, Children(dirs, i))
  {
  }

  lemma EntriesSplit(dirs: Dirs, path: string, found: set<Ino>, x: Ino)
    requires (forall c :: c in found ==> c in dirs && dirs[c].Child?) && x in found
    ensures Entries(dirs, path, found) == Entries(dirs, path, found - {x}) + {Join(path, dirs[x].name)}
  {
    forall p | p in Entries(dirs, path, found)
      ensures p in Entries(dirs, path, found - {x}) + {Join(path, dirs[x].name)}
    {
      var c :| c in found && p == Join(path, dirs[c].name);
      if c != x { assert c in found - {x}; }
    }
  }

  lemma EntryWeight(dirs: Dirs, bound: nat, path: string, i: Ino, x: Ino)
    requires Tree(dirs) && Bounded(dirs, bound) && Resolves(dirs, path, i) && x in Children(dirs, i)
    ensures WorkSum(dirs, bound, {Join(path, dirs[x].name)}) == 1 + ListingWeight(dirs, bound, x)
  {
    var y := Join(path, dirs[x].name);
    WorkPick(dirs, bound, {y}, y);
    assert {y} - {y} == {};
    assert Resolves(dirs, y, x);
    PathWeightOf(dirs, bound, y, x);
  }

  /** The paths of some children weigh no more than the children's own scans. */
  lemma {:induction false} FoundWeight(dirs: Dirs, bound: nat, path: string, i: Ino, found: set<Ino>)
    requires Tree(dirs) && Bounded(dirs, bound) && Resolves(dirs, path, i) && found <= Children(dirs, i)
    ensures WorkSum(dirs, bound, Entries(dirs, path, found)) <= ChildSum(dirs, bound, found)
    decreases found
  {
    if found == {} {
      assert Entries(dirs, path, found) == {};
    } else {
      var x :| x in found;
      FoundWeight(dirs, bound, path, i, found - {x});
      ChildPick(dirs, bound, found, x);
      EntriesSplit(dirs, path, found, x);
      WorkUnion(dirs, bound, Entries(dirs, path, found - {x}), {Join(path, dirs[x].name)});
      EntryWeight(dirs, bound, path, i, x);
    }
  }

  // ----- every step of the scan makes progress -----

  /** Having visited a directory, its listing is left to do. */
  lemma ListingIsLighter(dirs: Dirs, bound: nat, path: string, i: Ino)
    requires Tree(dirs) && Bounded(dirs, bound) && Resolves(dirs, path, i)
    ensures JobWeight(dirs, bound, i, path) < PathWeight(dirs, bound, path)
  {
    PathWeightOf(dirs, bound, path, i);
    FoundWeight(dirs, bound, path, i, Children(dirs, i));
    ListingIsChildren(dirs, bound, i);
  }

  lemma VisitProgress(s: State, bound: nat, path: string, i: Ino)
    requires Tree(s.dirs) && Bounded(s.dirs, bound) && path in s.work && Resolves(s.dirs, path, i)
    ensures ScanWeight(Visited(s, path, i), bound) < ScanWeight(s, bound)
  {
    WorkPick(s.dirs, bound, s.work, path);
    ListingIsLighter(s.dirs, bound, path, i);
    JobSet(s.dirs, bound, s.listing, i, Job(path, Children(s.dirs, i)));
  }

  lemma MissProgress(s: State, bound: nat, path: string)
    requires Tree(s.dirs) && Bounded(s.dirs, bound) && path in s.work
    ensures ScanWeight(s.(work := s.work - {path}), bound) < ScanWeight(s, bound)
  {
    WorkPick(s.dirs, bound, s.work, path);
  }

  lemma ListProgress(s: State, bound: nat, i: Ino, found: set<Ino>)
    requires Tree(s.dirs) && Bounded(s.dirs, bound) && CanList(ViewOf(s), i, found)
    ensures ScanWeight(Listed(s, i, found), bound) < ScanWeight(s, bound)
  {
    var path := s.listing[i].path;
    var some, all := Entries(s.dirs, path, found), Entries(s.dirs, path, Children(s.dirs, i));
    JobPick(s.dirs, bound, s.listing, i);
    WorkUnion(s.dirs, bound, s.work, some);
    WorkSubset(s.dirs, bound, some, all);
  }

  ghost predicate ScanStep(s: State, s': State) {
    VisitStep(s, s') || ListStep(s, s')
  }

  /** In any state, good or not, a step of the scan leaves less of it to do. */
  lemma ScanProgress(s: State, s': State, bound: nat)
    requires Tree(s.dirs) && Bounded(s.dirs, bound) && ScanStep(s, s')
    ensures s'.dirs == s.dirs && s'.queue == s.queue && s'.cookie == s.cookie
    ensures ScanWeight(s', bound) < ScanWeight(s, bound)
  {
    if VisitStep(s, s') {
      var path :| path in s.work && VisitPath(s, path, s');
      var x := VisitFinds(s, path, s');
      if x.Some? {
        VisitProgress(s, bound, path, x.value);
      } else {
        MissProgress(s, bound, path);
      }
    } else {
      var i, found :| CanList(ViewOf(s), i, found) && s' == Listed(s, i, found);
      ListProgress(s, bound, i, found);
    }
  }

  /** As long as the scan has something to do it can go on. */
  lemma ScanGoesOn(s: State) returns (s': State)
    requires Tree(s.dirs) && (s.work != {} || s.listing != map[])
    ensures ScanStep(s, s')
  {
    if s.work != {} {
      var path :| path in s.work;
      if exists i :: Resolves(s.dirs, path, i) {
        var i :| Resolves(s.dirs, path, i);
        s' := Visited(s, path, i);
      } else {
        s' := s.(work := s.work - {path});
      }
      assert VisitPath(s, path, s');
    } else {
      var i :| i in s.listing;
      s' := Listed(s, i, Children(s.dirs, i));
      assert CanList(ViewOf(s), i, Children(s.dirs, i));
    }
  }

  // ----- every step from a good state -----

  /** No path takes more than this to scan. */
  ghost function Heaviest(dirs: Dirs, bound: nat): nat
    requires Tree(dirs) && Bounded(dirs, bound)
  {
    1 + Sum(dirs.Keys, map i | i in dirs :: ListingWeight(dirs, bound, i))
  }

  lemma NoPathIsHeavier(dirs: Dirs, bound: nat, path: string)
    requires Tree(dirs) && Bounded(dirs, bound)
    ensures WorkSum(dirs, bound, {path}) <= Heaviest(dirs, bound)
  {
    WorkPick(dirs, bound, {path}, path);
    assert {path} - {path} == {};
    if i :| Resolves(dirs, path, i) {
      PathWeightOf(dirs, bound, path, i);
      SumPick(dirs.Keys, map x | x in dirs :: ListingWeight(dirs, bound, x), i);
    }
  }

  function Total(n: nat, c: nat, a: nat): nat {
    n * (1 + c) + a
  }

  lemma TotalSmaller(n: nat, c: nat, a: nat, b: nat)
    ensures a < b ==> Total(n, c, a) < Total(n, c, b)
    ensures a <= c ==> Total(n, c, a) < Total(n + 1, c, b)
  {
    assert (n + 1) * (1 + c) == n * (1 + c) + (1 + c);
  }

  /** An upper limit on the steps that the program has still to take. */
  ghost function Potential(s: State, bound: nat): nat
    requires Tree(s.dirs) && Bounded(s.dirs, bound)
  {
    Total(|s.queue|, Heaviest(s.dirs, bound), ScanWeight(s, bound))
  }

  /** A scan that has just been asked for takes no more than the heaviest path. */
  lemma FreshScan(s: State, bound: nat, scan: Option<string>)
    requires Tree(s.dirs) && Bounded(s.dirs, bound) && s.listing == map[]
    requires s.work == if scan.Some? then {scan.value} else {}
    ensures ScanWeight(s, bound) <= Heaviest(s.dirs, bound)
  {
    if scan.Some? { NoPathIsHeavier(s.dirs, bound, scan.value); }
  }

  lemma HandleProgress(s: State, s': State, bound: nat)
    requires Good(s) && Bounded(s.dirs, bound) && HandleStep(s, s')
    ensures s'.dirs == s.dirs && Potential(s', bound) < Potential(s, bound)
  {
    GoodHeadOutcome(s);
    HandleShortens(s, HeadOutcome(s), s');
    FreshScan(s', bound, HeadOutcome(s).scan);
    TotalSmaller(|s'.queue|, Heaviest(s.dirs, bound), ScanWeight(s', bound), ScanWeight(s, bound));
  }

  lemma HandleShortens(s: State, o: Outcome, s': State)
    requires s.queue != [] && Applied(s, o, s') && o.verdict == Consumed(1) && o.removed == []
    ensures |s'.queue| == |s.queue| - 1 && s'.dirs == s.dirs && s'.listing == s.listing
    ensures s'.work == if o.scan.Some? then {o.scan.value} else {}
  {
  }

  lemma ScanCloser(s: State, s': State, bound: nat)
    requires Tree(s.dirs) && Bounded(s.dirs, bound) && ScanStep(s, s')
    ensures s'.dirs == s.dirs && Potential(s', bound) < Potential(s, bound)
  {
    ScanProgress(s, s', bound);
    TotalSmaller(|s.queue|, Heaviest(s.dirs, bound), ScanWeight(s', bound), ScanWeight(s, bound));
  }

  lemma GoodScanStep(s: State, s': State)
    requires Good(s) && ScanStep(s, s')
    ensures Good(s')
  {
    if VisitStep(s, s') { GoodVisitStep(s, s'); } else { GoodListStep(s, s'); }
  }

  /** Every step of the program, whichever it takes, brings it closer to being done. */
  lemma EveryStepIsCloser(s: State, s': State, bound: nat)
    requires Good(s) && Bounded(s.dirs, bound) && ProgramStep(s, s')
    ensures Good(s') && s'.dirs == s.dirs && Potential(s', bound) < Potential(s, bound)
  {
    if HandleStep(s, s') {
      HandledGood(s, s');
      HandleProgress(s, s', bound);
    } else {
      GoodScanStep(s, s');
      ScanCloser(s, s', bound);
    }
  }

  // ----- every run of the program is bounded -----

  /** No run of the program alone from this state has more than n states. */
  ghost predicate RunsWithin(s: State, n: nat) {
    forall run :: ProgramRun(run) && run[0] == s ==> |run| <= n
  }

  lemma TailRuns(run: seq<State>)
    requires ProgramRun(run) && |run| > 1
    ensures ProgramStep(run[0], run[1]) && ProgramRun(run[1..]) && run[1..][|run| - 2] == run[|run| - 1]
  {
    assert ProgramStep(run[0], run[0 + 1]);
    forall k | 0 <= k < |run[1..]| - 1 ensures ProgramStep(run[1..][k], run[1..][k + 1]) {
      assert ProgramStep(run[k + 1], run[k + 1 + 1]);
    }
  }

  lemma OneMoreState(s: State, n: nat)
    requires forall s' :: ProgramStep(s, s') ==> RunsWithin(s', n)
    ensures RunsWithin(s, n + 1)
  {
    forall run | ProgramRun(run) && run[0] == s ensures |run| <= n + 1 {
      if |run| > 1 {
        TailRuns(run);
        assert RunsWithin(run[1], n);
        assert run[1..][0] == run[1];
      }
    }
  }

  lemma MoreRoom(s: State, n: nat, n': nat)
    requires RunsWithin(s, n) && n <= n'
    ensures RunsWithin(s, n')
  {
  }

  lemma {:induction false} GoodRunsWithin(s: State, bound: nat)
    requires Good(s) && Bounded(s.dirs, bound)
    ensures RunsWithin(s, Potential(s, bound) + 1)
    decreases Potential(s, bound)
  {
    var p := Potential(s, bound);
    forall s' | ProgramStep(s, s') ensures RunsWithin(s', p) {
      EveryStepIsCloser(s, s', bound);
      GoodRunsWithin(s', bound);
      MoreRoom(s', Potential(s', bound) + 1, p);
    }
    OneMoreState(s, p);
  }

  lemma {:induction false} MovingRunsWithin(s: State, v: State, mv: Move, k: nat, bound: nat)
    requires Ahead(s, v, mv, k) && Bounded(v.dirs, bound)
    ensures RunsWithin(s, Potential(v, bound) + 2)
    decreases Potential(v, bound)
  {
    var p := Potential(v, bound);
    forall s' | ProgramStep(s, s') ensures RunsWithin(s', p + 1) {
      var v', k' := MoveGoesOn(s, v, mv, k, s');
      if s' == v {
        GoodRunsWithin(v, bound);
      } else {
        EveryStepIsCloser(v, v', bound);
        MovingRunsWithin(s', v', mv, k', bound);
        MoreRoom(s', Potential(v', bound) + 2, p + 1);
      }
    }
    OneMoreState(s, p + 1);
  }

  // ----- with a directory that has left -----

  lemma {:induction false} ZapsNoMoreThanSlots(slots: seq<Slot>, path: string)
    ensures |ZappedWds(slots, path)| <= |slots|
    decreases |slots|
  {
    if slots != [] { ZapsNoMoreThanSlots(slots[..|slots| - 1], path); }
  }

  lemma HandleKeepsLength(s: State, s': State)
    requires Good(s) && HandleStep(s, s')
    ensures |s'.slots| == |s.slots|
  {
    GoodHead(s);
    PlainHandled(s.slots, RootPaths(s.dirs), s.queue[0], NextOf(s.queue), s.watches.Values);
  }

  lemma ScanGrowsSlowly(s: State, s': State)
    requires Tree(s.dirs) && ScanStep(s, s')
    ensures |s'.slots| <= |s.slots| + ALLOC_INCR
  {
    if VisitStep(s, s') {
      var path :| path in s.work && VisitPath(s, path, s');
      var x := VisitFinds(s, path, s');
    }
  }

  /** A step of the program makes the cache grow by one allocation at most. */
  lemma GrowsSlowly(s: State, s': State)
    requires Good(s) && ProgramStep(s, s')
    ensures |s'.slots| <= |s.slots| + ALLOC_INCR
  {
    if HandleStep(s, s') { HandleKeepsLength(s, s'); } else { ScanGrowsSlowly(s, s'); }
  }

  /** After the zapping only the events about removed watches are left to handle. */
  lemma LeftIsHandled(prev: State, i: Ino, q: Ino, m: string, s: State, s': State)
    requires Left(prev, i, q, m, s) && Idle(prev) && HandleStep(s, s')
    ensures s'.dirs == s.dirs && s'.work == {} && s'.listing == map[] && |s'.queue| <= |s.slots|
  {
    LeftFacts(prev, i, q, m, s);
    LeftOutcome(prev, i, q, m, s);
    ZapsNoMoreThanSlots(prev.slots, Path(prev.dirs, i));
  }

  lemma TotalMonotone(n: nat, n': nat, c: nat)
    requires n <= n'
    ensures Total(n, c, 0) <= Total(n', c, 0)
  {
    assert n' * (1 + c) == n * (1 + c) + (n' - n) * (1 + c);
  }

  lemma QueueRunsWithin(s: State, bound: nat, room: nat)
    requires Good(s) && Bounded(s.dirs, bound) && s.work == {} && s.listing == map[] && |s.queue| <= room
    ensures RunsWithin(s, Total(room, Heaviest(s.dirs, bound), 0) + 1)
  {
    var h := Heaviest(s.dirs, bound);
    GoodRunsWithin(s, bound);
    TotalMonotone(|s.queue|, room, h);
    MoreRoom(s, Potential(s, bound) + 1, Total(room, h, 0) + 1);
  }

  lemma {:induction false} LeavingRunsWithin(prev: State, i: Ino, q: Ino, m: string, s: State, bound: nat, after: nat,
                                             room: nat)
    requires Left(prev, i, q, m, s) && Bounded(prev.dirs, bound) && Tree(s.dirs) && Bounded(s.dirs, after)
    requires |s.slots| + ALLOC_INCR * Potential(prev, bound) <= room
    ensures RunsWithin(s, Potential(prev, bound) + Total(room, Heaviest(s.dirs, after), 0) + 2)
    decreases Potential(prev, bound)
  {
    var p, rest := Potential(prev, bound), Total(room, Heaviest(s.dirs, after), 0) + 1;
    LeftFacts(prev, i, q, m, s);
    forall s' | ProgramStep(s, s') ensures RunsWithin(s', p + rest) {
      var prev' := LeftGoesOn(prev, i, q, m, s, s');
      if Idle(prev) && HandleStep(s, s') && Good(s') {
        LeftIsHandled(prev, i, q, m, s, s');
        QueueRunsWithin(s', after, room);
        MoreRoom(s', rest, p + rest);
      } else {
        EveryStepIsCloser(prev, prev', bound);
        GrowsSlowly(prev, prev');
        LeftFacts(prev', i, q, m, s');
        LeavingRunsWithin(prev', i, q, m, s', bound, after, room);
        MoreRoom(s', Potential(prev', bound) + rest + 1, p + rest);
      }
    }
    OneMoreState(s, p + rest);
  }

  // ----- after an overflow -----

  /** The overflow event is at k. */
  predicate OverflowsAt(s: State, k: nat) {
    k < |s.queue| && s.queue[k] == OVERFLOW
  }

  /** The next event ends the program: it says that the last root has gone. */
  ghost predicate Ends(s: State) {
    s.queue != [] && s.work == {} && s.listing == map[] && HeadOutcome(s).verdict == Quit
  }

  /** What the program can make of an event in front of the overflow. */
  lemma LostVerdict(s: State, k: nat)
    requires OverflowsAt(s, k)
    ensures var v := HeadOutcome(s).verdict;
            v == Rebuild || v == Quit || (v.Consumed? && 1 <= v.events <= k)
  {
    var v := HeadOutcome(s).verdict;
    assert v == Consumed(2) ==> Pairs(s.queue[0], NextOf(s.queue));
    assert k == 0 ==> v == Rebuild;
  }

  /** It rebuilds, or gets closer to the overflow. */
  lemma LostHandles(s: State, k: nat, s': State) returns (j: nat)
    requires OverflowsAt(s, k) && HandleStep(s, s')
    ensures s'.dirs == s.dirs && s'.cookie == s.cookie
    ensures s' == Rebuilt(s.dirs, s.cookie) || (j < k && OverflowsAt(s', j) && s'.listing == map[])
    ensures s' == Rebuilt(s.dirs, s.cookie) || s'.work == {} || exists path :: s'.work == {path}
  {
    j := 0;
    LostVerdict(s, k);
    var o := HeadOutcome(s);
    if o.verdict.Consumed? {
      j := k - o.verdict.events;
      assert s'.queue[j] == OVERFLOW;
    }
  }

  lemma LostScanWeight(s: State, bound: nat)
    requires Tree(s.dirs) && Bounded(s.dirs, bound) && s.listing == map[]
    requires s.work == {} || exists path :: s.work == {path}
    ensures ScanWeight(s, bound) <= Heaviest(s.dirs, bound)
  {
    if s.work == {} {
      FreshScan(s, bound, None);
    } else {
      var path :| s.work == {path};
      FreshScan(s, bound, Some(path));
    }
  }

  /** The steps to the rebuild at most. */
  ghost function LostPotential(s: State, bound: nat, k: nat): nat
    requires Tree(s.dirs) && Bounded(s.dirs, bound)
  {
    Total(k, Heaviest(s.dirs, bound), ScanWeight(s, bound))
  }

  /** Every step of the program rebuilds, or brings it closer to the overflow event. */
  lemma LostGoesOn(s: State, bound: nat, k: nat, s': State) returns (j: nat)
    requires Tree(s.dirs) && Bounded(s.dirs, bound) && OverflowsAt(s, k) && ProgramStep(s, s')
    ensures s'.dirs == s.dirs && s'.cookie == s.cookie
    ensures || s' == Rebuilt(s.dirs, s.cookie)
            || (OverflowsAt(s', j) && LostPotential(s', bound, j) < LostPotential(s, bound, k))
  {
    var h, w, w' := Heaviest(s.dirs, bound), ScanWeight(s, bound), 0;
    if HandleStep(s, s') {
      j := LostHandles(s, k, s');
      if s' != Rebuilt(s.dirs, s.cookie) {
        LostScanWeight(s', bound);
        LowerTotal(j, k, h, ScanWeight(s', bound), w);
      }
    } else {
      j := k;
      ScanProgress(s, s', bound);
      TotalSmaller(k, h, ScanWeight(s', bound), w);
    }
  }

  lemma LowerTotal(j: nat, k: nat, c: nat, a: nat, b: nat)
    requires j < k && a <= c
    ensures Total(j, c, a) < Total(k, c, b)
  {
    TotalSmaller(j, c, a, 0);
    TotalMonotone(j + 1, k, c);
  }

  lemma {:induction false} LostRunsWithin(s: State, bound: nat, k: nat)
    requires Tree(s.dirs) && Bounded(s.dirs, bound) && OverflowsAt(s, k)
    ensures RunsWithin(s, LostPotential(s, bound, k) + Potential(Rebuilt(s.dirs, s.cookie), bound) + 2)
    decreases LostPotential(s, bound, k)
  {
    var p, r := LostPotential(s, bound, k), Rebuilt(s.dirs, s.cookie);
    var rest := Potential(r, bound) + 1;
    forall s' | ProgramStep(s, s') ensures RunsWithin(s', p + rest) {
      var j := LostGoesOn(s, bound, k, s');
      if s' == r {
        RebuiltGood(s.dirs, s.cookie);
        GoodRunsWithin(r, bound);
        MoreRoom(r, rest, p + rest);
      } else {
        LostRunsWithin(s', bound, j);
        MoreRoom(s', LostPotential(s', bound, j) + rest + 1, p + rest);
      }
    }
    OneMoreState(s, p + rest);
  }

  // ----- from any state of a run -----

  /** Whatever state a run has come to, the program alone cannot go on forever. */
  lemma EveryStateIsBounded(s: State) returns (n: nat)
    requires StateInv(s)
    ensures RunsWithin(s, n)
  {
    if Sound(s) {
      SoundNotOverflown(s);
      n := SoundIsBounded(s);
    } else {
      var bound := BoundExists(Rank(s.dirs), s.dirs.Keys);
      var k :| 0 <= k < |s.queue| && s.queue[k] == OVERFLOW;
      LostRunsWithin(s, bound, k);
      n := LostPotential(s, bound, k) + Potential(Rebuilt(s.dirs, s.cookie), bound) + 2;
    }
  }

  lemma SoundIsBounded(s: State) returns (n: nat)
    requires Sound(s) && Tree(s.dirs)
    ensures RunsWithin(s, n)
  {
    var bound := BoundExists(Rank(s.dirs), s.dirs.Keys);
    if Good(s) {
      GoodRunsWithin(s, bound);
      n := Potential(s, bound) + 1;
    } else if Moving(s) {
      var v, mv, k :| Ahead(s, v, mv, k);
      MovingRunsWithin(s, v, mv, k, bound);
      n := Potential(v, bound) + 2;
    } else {
      var prev, i, q, m :| Left(prev, i, q, m, s);
      var before := BoundExists(Rank(prev.dirs), prev.dirs.Keys);
      var room := |s.slots| + ALLOC_INCR * Potential(prev, before);
      LeavingRunsWithin(prev, i, q, m, s, before, bound, room);
      n := Potential(prev, before) + Total(room, Heaviest(s.dirs, bound), 0) + 2;
    }
  }

  /** As long as there is something to do the program can do it. */
  lemma NeverStuck(s: State) returns (s': State)
    requires Sound(s) && !Idle(s)
    ensures ProgramStep(s, s')
  {
    SoundNotOverflown(s);
    if s.work != {} || s.listing != map[] {
      s' := ScanGoesOn(s);
    } else {
      SoundConsumes(s);
      s' := CanApply(s, HeadOutcome(s));
      assert HandleStep(s, s');
    }
  }

  lemma LostNeverStuck(s: State) returns (s': State)
    requires Lost(s) && !Ends(s)
    ensures ProgramStep(s, s')
  {
    if s.work != {} || s.listing != map[] {
      s' := ScanGoesOn(s);
    } else {
      var k :| 0 <= k < |s.queue| && s.queue[k] == OVERFLOW;
      LostVerdict(s, k);
      var o := HeadOutcome(s);
      if o.verdict == Rebuild {
        s' := Rebuilt(s.dirs, s.cookie);
        assert Applied(s, o, s');
      } else {
        s' := CanApply(s, o);
      }
      assert HandleStep(s, s');
    }
  }

  /** The program keeps what holds of all runs, and causes no overflow. */
  lemma ProgramKeeps(s: State, s': State)
    requires StateInv(s) && ProgramStep(s, s')
    ensures StateInv(s') && s'.dirs == s.dirs && (Sound(s) ==> Sound(s'))
  {
    if Good(s) {
      var bound := BoundExists(Rank(s.dirs), s.dirs.Keys);
      EveryStepIsCloser(s, s', bound);
    } else if Moving(s) {
      var v, mv, k :| Ahead(s, v, mv, k);
      var v', k' := MoveGoesOn(s, v, mv, k, s');
      StepKeepsDirs(s, s');
    } else if Leaving(s) {
      var prev, i, q, m :| Left(prev, i, q, m, s);
      LeftFacts(prev, i, q, m, s);
      var prev' := LeftGoesOn(prev, i, q, m, s, s');
      StepKeepsDirs(s, s');
    } else {
      LostStep(s, s');
      StepKeepsDirs(s, s');
    }
  }

  lemma StepKeepsDirs(s: State, s': State)
    requires Tree(s.dirs) && ProgramStep(s, s')
    ensures s'.dirs == s.dirs
  {
    if !HandleStep(s, s') {
      var bound := BoundExists(Rank(s.dirs), s.dirs.Keys);
      ScanProgress(s, s', bound);
    }
  }

  lemma {:induction false} RunKeeps(run: seq<State>)
    requires ProgramRun(run) && StateInv(run[0])
    ensures var last := run[|run| - 1];
            StateInv(last) && last.dirs == run[0].dirs && (Sound(run[0]) ==> Sound(last))
    decreases |run|
  {
    if |run| > 1 {
      TailRuns(run);
      ProgramKeeps(run[0], run[1]);
      RunKeeps(run[1..]);
    }
  }

  /** Idle, with the cache in agreement with the trees `dirs`. */
  ghost predicate Settled(s: State, dirs: Dirs) {
    s.dirs == dirs && Tree(dirs) && Idle(s) && Valid(s.slots) && InSync(ViewOf(s))
  }

  lemma SettledOrGoesOn(s: State)
    requires StateInv(s)
    ensures || Settled(s, s.dirs)
            || (!Sound(s) && Ends(s))
            || exists s' :: ProgramStep(s, s')
  {
    if Sound(s) {
      if Idle(s) {
        IdleIsGood(s);
        QuietIsInSync(ViewOf(s));
      } else {
        var s' := NeverStuck(s);
      }
    } else if !Ends(s) {
      var s' := LostNeverStuck(s);
    }
  }

  /** Having started from s, the program has settled, or come to an event that ends it after
      an overflow, or can go on. */
  ghost predicate EndsWell(s: State, last: State) {
    || Settled(last, s.dirs)
    || (Overflown(s.queue) && Ends(last))
    || exists s' :: ProgramStep(last, s')
  }

  /** From wherever a run of the system has got to, when the file system holds still: every
      run of the program, whatever steps it takes, is bounded; and if it cannot go on, it
      is idle and the cache agrees with the directory trees as they are, or, only after an
      overflow, it has come to an event that ends it. */
  lemma EveryProgramRunSettles(history: seq<State>) returns (n: nat)
    requires IsRun(history)
    ensures RunsWithin(history[|history| - 1], n)
    ensures forall run: seq<State> :: ProgramRun(run) && run[0] == history[|history| - 1] ==>
              EndsWell(run[0], run[|run| - 1])
  {
    var s := history[|history| - 1];
    EveryStateInv(history, |history| - 1);
    n := EveryStateIsBounded(s);
    forall run | ProgramRun(run) && run[0] == s
      ensures EndsWell(s, run[|run| - 1])
    {
      RunKeeps(run);
      SettledOrGoesOn(run[|run| - 1]);
    }
  }

  lemma {:induction false} JoinRuns(a: seq<State>, b: seq<State>) returns (run: seq<State>)
    requires ProgramRun(a) && ProgramRun(b) && a[|a| - 1] == b[0]
    ensures ProgramRun(run) && run[0] == a[0] && run[|run| - 1] == b[|b| - 1]
    ensures |run| == |a| + |b| - 1
    decreases |a|
  {
    if |a| == 1 {
      run := b;
    } else {
      TailRuns(a);
      run := JoinRuns(a[1..], b);
      Prepend(a[0], run);
      run := [a[0]] + run;
    }
  }

  ghost predicate AtEnd(s: State) {
    forall s' :: !ProgramStep(s, s')
  }

  lemma OneMoreStep(run: seq<State>, s': State)
    requires ProgramRun(run) && ProgramStep(run[|run| - 1], s')
    ensures ProgramRun(run + [s'])
  {
    var longer := run + [s'];
    forall k | 0 <= k < |longer| - 1 ensures ProgramStep(longer[k], longer[k + 1]) {
      if k < |run| - 1 { assert ProgramStep(run[k], run[k + 1]); }
    }
  }

  /** A run that cannot be prolonged. */
  lemma {:induction false} Prolonged(run: seq<State>, n: nat) returns (all: seq<State>)
    requires ProgramRun(run) && RunsWithin(run[0], n)
    ensures ProgramRun(all) && all[0] == run[0] && AtEnd(all[|all| - 1])
    decreases n - |run|
  {
    if AtEnd(run[|run| - 1]) {
      all := run;
    } else {
      var s' :| ProgramStep(run[|run| - 1], s');
      OneMoreStep(run, s');
      assert (run + [s'])[0] == run[0];
      all := Prolonged(run + [s'], n);
    }
  }

  /** So the program does catch up. */
  lemma ProgramCatchesUp(history: seq<State>) returns (run: seq<State>)
    requires IsRun(history)
    ensures ProgramRun(run) && run[0] == history[|history| - 1]
    ensures || Settled(run[|run| - 1], run[0].dirs)
            || (Overflown(run[0].queue) && Ends(run[|run| - 1]))
  {
    var n := EveryProgramRunSettles(history);
    run := Prolonged([history[|history| - 1]], n);
  }
}
