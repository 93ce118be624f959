/** What stays true between the directory trees, the kernel's watches and event queue,
    and the cached descriptors of inotify_dtree.c, while directories come and go and the
    program scans and handles events. */
module DtreeInvariant {
  import opened DirTree
  import opened EventHandler

  /** A directory whose watch has been placed and whose entries are still to be read:
      the path it was reached by, and the entries it had when it was opened. */
  datatype Job = Job(path: string, must: set<Ino>)

  /** `watches` gives each watched inode its one descriptor, `cached` is the contents of
      the cache, `work` are paths the scan has yet to visit. */
  datatype View = View(
    dirs: Dirs,
    watches: map<Ino, int>,
    nextWd: int,
    queue: seq<Event>,
    cached: map<int, string>,
    work: set<string>,
    listing: map<Ino, Job>)

  // ----- the events of the kernel -----

  function CreateEvent(wd: int, name: string): Event {
    Event(wd, {IsDir, Create}, 0, name)
  }

  function DeleteSelfEvent(wd: int): Event {
    Event(wd, {DeleteSelf}, 0, "")
  }

  function IgnoredEvent(wd: int): Event {
    Event(wd, {Ignored}, 0, "")
  }

  function MovedFromEvent(wd: int, cookie: nat, name: string): Event {
    Event(wd, {MovedFrom, IsDir}, cookie, name)
  }

  function MovedToEvent(wd: int, cookie: nat, name: string): Event {
    Event(wd, {MovedTo, IsDir}, cookie, name)
  }

  predicate Arrival(e: Event) {
    e.flags == {IsDir, Create} || e.flags == {MovedTo, IsDir}
  }

  predicate Deletion(e: Event) {
    e.flags == {DeleteSelf}
  }

  predicate Ignoring(e: Event) {
    e.flags == {Ignored}
  }

  /** An event about a file, which the program has no interest in. */
  predicate FileNews(e: Event) {
    e.flags != {} && e.flags <= {Create, MovedFrom, MovedTo}
  }

  // ----- the invariant -----

  ghost function RootPaths(dirs: Dirs): set<string> {
    set i | i in dirs && dirs[i].Root? :: dirs[i].path
  }

  lemma SameRoots(dirs: Dirs, dirs': Dirs)
    requires forall i :: i in dirs && dirs[i].Root? ==> i in dirs' && dirs'[i] == dirs[i]
    requires forall i :: i in dirs' && dirs'[i].Root? ==> i in dirs && dirs[i] == dirs'[i]
    ensures RootPaths(dirs') == RootPaths(dirs)
  {
    forall p | p in RootPaths(dirs) ensures p in RootPaths(dirs') {
      var i :| i in dirs && dirs[i].Root? && dirs[i].path == p;
      assert dirs'[i] == dirs[i];
    }
    forall p | p in RootPaths(dirs') ensures p in RootPaths(dirs) {
      var i :| i in dirs' && dirs'[i].Root? && dirs'[i].path == p;
      assert dirs[i] == dirs'[i];
    }
  }

  predicate Live(v: View, w: int) {
    w in v.watches.Values
  }

  /** Queue entry k says that the directory of descriptor w is gone. */
  predicate Doomed(v: View, w: int, k: int) {
    0 <= k < |v.queue| && Deletion(v.queue[k]) && v.queue[k].wd == w
  }

  ghost predicate DoomedBefore(v: View, w: int, k: int) {
    exists j :: 0 <= j < k && Doomed(v, w, j)
  }

  /** A watched directory is monitored and cached under its true path. */
  ghost predicate WatchOk(v: View, i: Ino)
    requires Tree(v.dirs) && i in v.watches
  {
    && i in v.dirs && Monitored(v.dirs, i)
    && 1 <= v.watches[i] < v.nextWd
    && v.watches[i] in v.cached && v.cached[v.watches[i]] == Path(v.dirs, i)
  }

  /** A cached descriptor is live, or news of its deletion is on the way. */
  ghost predicate CachedOk(v: View, w: int)
    requires w in v.cached
  {
    && 1 <= w < v.nextWd
    && (Live(v, w) || (v.cached[w] !in RootPaths(v.dirs) && DoomedBefore(v, w, |v.queue|)))
  }

  /** Events concern cached descriptors, and nothing about one follows its deletion. */
  ghost predicate EventOk(v: View, k: int)
    requires 0 <= k < |v.queue|
  {
    var e := v.queue[k];
    && 1 <= e.wd < v.nextWd
    && (Ignoring(e) || Arrival(e) || Deletion(e) || FileNews(e))
    && (!Ignoring(e) ==> e.wd in v.cached && !DoomedBefore(v, e.wd, k))
    && (Deletion(e) ==> !Live(v, e.wd))
  }

  /** Queue entry k announces directory d to the program, and by the time the program
      gets there no stale entry will occupy d's path in the cache. */
  ghost predicate Announced(v: View, d: Ino, k: int)
    requires Tree(v.dirs) && d in v.dirs && v.dirs[d].Child? && v.dirs[d].parent in v.watches
  {
    && 0 <= k < |v.queue|
    && Arrival(v.queue[k])
    && v.queue[k].wd == v.watches[v.dirs[d].parent] && v.queue[k].name == v.dirs[d].name
    && (forall w :: w in v.cached && v.cached[w] == Path(v.dirs, d) && !Live(v, w) ==> DoomedBefore(v, w, k))
  }

  /** Someone sees to it that monitored directory d gets cached: it is, or the scan
      will visit it, or its parent is not watched yet or still being listed, or an
      event announces it. */
  ghost predicate Covered(v: View, d: Ino)
    requires Tree(v.dirs) && d in v.dirs
  {
    || d in v.watches
    || Path(v.dirs, d) in v.work
    || (v.dirs[d].Child? &&
        var p := v.dirs[d].parent;
        || p !in v.watches
        || (p in v.listing && d in v.listing[p].must)
        || (exists k :: Announced(v, d, k)))
  }

  ghost predicate JobOk(v: View, i: Ino)
    requires Tree(v.dirs) && i in v.listing
  {
    i in v.dirs ==> Monitored(v.dirs, i) && v.listing[i].path == Path(v.dirs, i)
  }

  predicate Injective(watches: map<Ino, int>) {
    forall i, j :: i in watches && j in watches && i != j ==> watches[i] != watches[j]
  }

  ghost predicate Inv(v: View) {
    && Tree(v.dirs)
    && v.nextWd >= 1
    && Injective(v.watches)
    && (forall i :: i in v.watches ==> WatchOk(v, i))
    && (forall w :: w in v.cached ==> CachedOk(v, w))
    && (forall k :: 0 <= k < |v.queue| ==> EventOk(v, k))
    && (forall d :: d in v.dirs && Monitored(v.dirs, d) ==> Covered(v, d))
    && (forall i :: i in v.listing ==> JobOk(v, i))
  }

  // ----- what the invariant promises -----

  predicate Quiet(v: View) {
    v.queue == [] && v.work == {} && v.listing == map[]
  }

  /** The cache agrees with the trees: every monitored directory is watched, and the
      cached descriptors are exactly theirs, each with the directory's path. */
  ghost predicate InSync(v: View)
    requires Tree(v.dirs)
  {
    && (forall d :: d in v.watches <==> d in v.dirs && Monitored(v.dirs, d))
    && Injective(v.watches)
    && v.cached.Keys == v.watches.Values
    && (forall d :: d in v.watches ==> v.cached[v.watches[d]] == Path(v.dirs, d))
  }

  lemma {:induction false} QuietWatches(v: View, d: Ino)
    requires Inv(v) && Quiet(v) && d in v.dirs && Monitored(v.dirs, d)
    ensures d in v.watches
    decreases Rank(v.dirs)[d]
  {
    if v.dirs[d].Child? {
      QuietWatches(v, v.dirs[d].parent);
    }
    assert Covered(v, d);
  }

  /** Once the queue is drained and the scan is over, the cache is right. */
  lemma QuietIsInSync(v: View)
    requires Inv(v) && Quiet(v)
    ensures InSync(v)
  {
    forall d | d in v.dirs && Monitored(v.dirs, d) ensures d in v.watches {
      QuietWatches(v, d);
    }
    forall d | d in v.watches
      ensures d in v.dirs && Monitored(v.dirs, d)
      ensures v.watches[d] in v.cached && v.cached[v.watches[d]] == Path(v.dirs, d)
    {
      assert WatchOk(v, d);
    }
    forall w | w in v.cached ensures w in v.watches.Values {
      assert CachedOk(v, w);
    }
  }

  /** A rebuild from nothing starts from the invariant, whatever went wrong before. */
  lemma RebuildInv(dirs: Dirs)
    requires Tree(dirs)
    ensures Inv(View(dirs, map[], 1, [], map[], RootPaths(dirs), map[]))
  {
    var v := View(dirs, map[], 1, [], map[], RootPaths(dirs), map[]);
    forall d | d in v.dirs && Monitored(v.dirs, d) ensures Covered(v, d) {}
  }

  // ----- small facts -----

  lemma UnmonitoredUnwatched(v: View, p: Ino)
    requires Inv(v) && p in v.dirs && !Monitored(v.dirs, p)
    ensures p !in v.watches
  {
    assert p in v.watches ==> WatchOk(v, p);
  }

  lemma WatchedIsLive(v: View, i: Ino)
    requires i in v.watches
    ensures Live(v, v.watches[i])
  {
  }

  lemma LiveIsWatched(v: View, w: int) returns (i: Ino)
    requires Live(v, w)
    ensures i in v.watches && v.watches[i] == w
  {
    i :| i in v.watches && v.watches[i] == w;
  }

  lemma LiveNotDoomed(v: View, w: int, k: int)
    requires Inv(v) && Live(v, w) && k <= |v.queue|
    ensures !DoomedBefore(v, w, k)
  {
    forall j | 0 <= j < k ensures !Doomed(v, w, j) {
      assert EventOk(v, j);
    }
  }

  /** Events added at the end leave what the earlier ones say. */
  lemma DoomedExtends(v: View, v': View, w: int, k: int)
    requires v.queue <= v'.queue && k <= |v.queue|
    ensures DoomedBefore(v, w, k) == DoomedBefore(v', w, k)
  {
    forall j | 0 <= j < k ensures Doomed(v, w, j) == Doomed(v', w, j) {}
    if DoomedBefore(v, w, k) {
      var j :| 0 <= j < k && Doomed(v, w, j);
      assert Doomed(v', w, j);
    }
    if DoomedBefore(v', w, k) {
      var j :| 0 <= j < k && Doomed(v', w, j);
      assert Doomed(v, w, j);
    }
  }

  lemma DoomedMonotone(v: View, w: int, k: int, l: int)
    requires DoomedBefore(v, w, k) && k <= l
    ensures DoomedBefore(v, w, l)
  {
  }

  // ----- the trees change -----

  /** The file system moved on from v to v': events were added, some watches may have
      gone with their directories, and what is still watched is where it was. */
  ghost predicate MovesOn(v: View, v': View) {
    && Inv(v) && Tree(v'.dirs)
    && v'.nextWd == v.nextWd && v'.cached == v.cached && v'.work == v.work && v'.listing == v.listing
    && v.queue <= v'.queue
    && RootPaths(v'.dirs) == RootPaths(v.dirs)
    && Injective(v'.watches)
    && (forall i :: i in v'.watches ==> StillWatched(v, v', i))
    && (forall i :: i in v.watches && i !in v'.watches ==> Dropped(v, v', i))
  }

  ghost predicate StillWatched(v: View, v': View, i: Ino)
    requires Tree(v.dirs) && Tree(v'.dirs) && i in v'.watches
  {
    && i in v.watches && v'.watches[i] == v.watches[i] && i in v.dirs
    && i in v'.dirs && Monitored(v'.dirs, i) && Path(v'.dirs, i) == Path(v.dirs, i)
  }

  ghost predicate Dropped(v: View, v': View, i: Ino)
    requires i in v.watches
  {
    i in v.dirs && v.dirs[i].Child? && DoomedBefore(v', v.watches[i], |v'.queue|)
  }

  lemma ChildPathIsNoRoot(dirs: Dirs, i: Ino)
    requires Tree(dirs) && i in dirs && dirs[i].Child? && Monitored(dirs, i)
    ensures Path(dirs, i) !in RootPaths(dirs)
  {
    if Path(dirs, i) in RootPaths(dirs) {
      var r :| r in dirs && dirs[r].Root? && dirs[r].path == Path(dirs, i);
      PathInjective(dirs, i, r);
    }
  }

  lemma MovesOnLive(v: View, v': View, w: int)
    requires MovesOn(v, v') && Live(v', w)
    ensures Live(v, w)
  {
    var i := LiveIsWatched(v', w);
    assert StillWatched(v, v', i);
    WatchedIsLive(v, i);
  }

  lemma LostWatch(v: View, v': View, w: int) returns (i: Ino)
    requires MovesOn(v, v') && Live(v, w) && !Live(v', w)
    ensures i in v.watches && v.watches[i] == w && i !in v'.watches && WatchOk(v, i)
  {
    i := LiveIsWatched(v, w);
    assert WatchOk(v, i);
    assert i in v'.watches ==> StillWatched(v, v', i);
    if i in v'.watches { WatchedIsLive(v', i); }
  }

  lemma MovesOnCached(v: View, v': View, w: int)
    requires MovesOn(v, v') && w in v.cached
    ensures CachedOk(v', w)
  {
    assert CachedOk(v, w);
    if !Live(v', w) {
      if Live(v, w) {
        var i := LostWatch(v, v', w);
        assert Dropped(v, v', i);
        ChildPathIsNoRoot(v.dirs, i);
      } else {
        DoomedExtends(v, v', w, |v.queue|);
        DoomedMonotone(v', w, |v.queue|, |v'.queue|);
      }
    }
  }

  lemma MovesOnEvent(v: View, v': View, k: int)
    requires MovesOn(v, v') && 0 <= k < |v.queue|
    ensures EventOk(v', k)
  {
    var e := v.queue[k];
    assert EventOk(v, k) && v'.queue[k] == e;
    DoomedExtends(v, v', e.wd, k);
    if Deletion(e) && Live(v', e.wd) {
      MovesOnLive(v, v', e.wd);
    }
  }

  /** A directory that stays where it is stays covered, unless a watch was dropped at
      its own path. */
  lemma MovesOnCovered(v: View, v': View, d: Ino)
    requires MovesOn(v, v')
    requires d in v.dirs && d in v'.dirs && v'.dirs[d] == v.dirs[d]
    requires Monitored(v.dirs, d) && Path(v'.dirs, d) == Path(v.dirs, d)
    requires d in v.watches ==> d in v'.watches
    requires forall i :: i in v.watches && i !in v'.watches ==> Path(v.dirs, i) != Path(v.dirs, d)
    ensures Covered(v', d)
  {
    assert Covered(v, d);
    if v.dirs[d].Child? && v.dirs[d].parent in v'.watches {
      assert StillWatched(v, v', v.dirs[d].parent);
      if k :| Announced(v, d, k) {
        MovesOnAnnounced(v, v', d, k);
      }
    }
  }

  lemma MovesOnAnnounced(v: View, v': View, d: Ino, k: int)
    requires MovesOn(v, v')
    requires d in v.dirs && d in v'.dirs && v'.dirs[d] == v.dirs[d] && v.dirs[d].Child?
    requires v.dirs[d].parent in v.watches && v.dirs[d].parent in v'.watches
    requires Path(v'.dirs, d) == Path(v.dirs, d) && Announced(v, d, k)
    requires forall i :: i in v.watches && i !in v'.watches ==> Path(v.dirs, i) != Path(v.dirs, d)
    ensures Announced(v', d, k)
  {
    assert StillWatched(v, v', v.dirs[d].parent);
    forall w | w in v'.cached && v'.cached[w] == Path(v'.dirs, d) && !Live(v', w) ensures DoomedBefore(v', w, k) {
      if Live(v, w) {
        var i := LostWatch(v, v', w);
      } else {
        DoomedExtends(v, v', w, k);
      }
    }
  }

  /** A directory newly announced at the end of the queue. */
  lemma NewlyAnnounced(v: View, d: Ino, k: int)
    requires Tree(v.dirs) && d in v.dirs && v.dirs[d].Child? && v.dirs[d].parent in v.watches
    requires 0 <= k < |v.queue| && Arrival(v.queue[k])
    requires v.queue[k].wd == v.watches[v.dirs[d].parent] && v.queue[k].name == v.dirs[d].name
    requires forall w :: w in v.cached && !Live(v, w) ==> DoomedBefore(v, w, k)
    ensures Announced(v, d, k)
  {
  }

  /** Everything cached and dead was doomed before the step already. */
  lemma DeadWereDoomed(v: View, v': View, w: int)
    requires Inv(v) && v'.watches == v.watches && v'.cached == v.cached && v.queue <= v'.queue
    requires w in v'.cached && !Live(v', w)
    ensures DoomedBefore(v', w, |v.queue|)
  {
    assert CachedOk(v, w);
    DoomedExtends(v, v', w, |v.queue|);
  }

  /** An event about a live descriptor may be added. */
  lemma NewEventOk(v: View, v': View, k: int)
    requires Inv(v) && v.queue <= v'.queue && v'.cached == v.cached && v'.nextWd == v.nextWd
    requires k == |v.queue| < |v'.queue|
    requires Live(v, v'.queue[k].wd) && (Arrival(v'.queue[k]) || FileNews(v'.queue[k]))
    ensures EventOk(v', k)
  {
    var w := v'.queue[k].wd;
    var i := LiveIsWatched(v, w);
    assert WatchOk(v, i);
    LiveNotDoomed(v, w, k);
    DoomedExtends(v, v', w, k);
  }

  /** mkdir() */
  function AfterMkdir(v: View, i: Ino, p: Ino, n: string): View {
    v.(dirs := v.dirs[i := Child(p, n)],
       queue := v.queue + if p in v.watches then [CreateEvent(v.watches[p], n)] else [])
  }

  lemma MkdirMovesOn(v: View, i: Ino, p: Ino, n: string)
    requires Inv(v) && CanMkdir(v.dirs, i, p, n)
    ensures MovesOn(v, AfterMkdir(v, i, p, n))
  {
    var v' := AfterMkdir(v, i, p, n);
    MkdirTree(v.dirs, i, p, n);
    SameRoots(v.dirs, v'.dirs);
    forall x | x in v'.watches ensures StillWatched(v, v', x) {
      assert WatchOk(v, x);
      MkdirPaths(v.dirs, i, p, n, x);
    }
  }

  lemma MkdirInv(v: View, i: Ino, p: Ino, n: string)
    requires Inv(v) && CanMkdir(v.dirs, i, p, n) && i !in v.listing
    ensures Inv(AfterMkdir(v, i, p, n))
  {
    var v' := AfterMkdir(v, i, p, n);
    MkdirMovesOn(v, i, p, n);
    forall w | w in v'.cached ensures CachedOk(v', w) { MovesOnCached(v, v', w); }
    forall k | 0 <= k < |v'.queue| ensures EventOk(v', k) {
      if k < |v.queue| {
        MovesOnEvent(v, v', k);
      } else {
        WatchedIsLive(v, p);
        NewEventOk(v, v', k);
      }
    }
    forall d | d in v'.dirs && Monitored(v'.dirs, d) ensures Covered(v', d) {
      if d == i {
        MkdirCovered(v, i, p, n);
      } else {
        MkdirPaths(v.dirs, i, p, n, d);
        MovesOnCovered(v, v', d);
      }
    }
    forall x | x in v'.listing ensures JobOk(v', x) {
      assert JobOk(v, x);
      if x in v.dirs { MkdirPaths(v.dirs, i, p, n, x); }
    }
    forall x | x in v'.watches ensures WatchOk(v', x) {
      assert StillWatched(v, v', x) && WatchOk(v, x);
    }
  }

  lemma MkdirCovered(v: View, i: Ino, p: Ino, n: string)
    requires Inv(v) && CanMkdir(v.dirs, i, p, n) && Tree(v.dirs[i := Child(p, n)])
    ensures Covered(AfterMkdir(v, i, p, n), i)
  {
    var v' := AfterMkdir(v, i, p, n);
    if p in v.watches {
      forall w | w in v'.cached && !Live(v', w) ensures DoomedBefore(v', w, |v.queue|) {
        DeadWereDoomed(v, v', w);
      }
      NewlyAnnounced(v', i, |v.queue|);
    }
  }

  /** rmdir() */
  function AfterRmdir(v: View, i: Ino): View {
    v.(dirs := v.dirs - {i},
       watches := v.watches - {i},
       queue := v.queue + if i in v.watches then [DeleteSelfEvent(v.watches[i]), IgnoredEvent(v.watches[i])] else [])
  }

  lemma RmdirMovesOn(v: View, i: Ino)
    requires Inv(v) && CanRmdir(v.dirs, i)
    ensures MovesOn(v, AfterRmdir(v, i))
  {
    var v' := AfterRmdir(v, i);
    RmdirTree(v.dirs, i);
    SameRoots(v.dirs, v'.dirs);
    forall x | x in v'.watches ensures StillWatched(v, v', x) {
      assert WatchOk(v, x);
      RmdirPaths(v.dirs, i, x);
    }
    if i in v.watches {
      assert Doomed(v', v.watches[i], |v.queue|);
      assert Dropped(v, v', i);
    }
  }

  lemma RmdirNewEvents(v: View, i: Ino, k: int)
    requires Inv(v) && CanRmdir(v.dirs, i) && i in v.watches
    requires |v.queue| <= k < |v.queue| + 2
    ensures EventOk(AfterRmdir(v, i), k)
  {
    var v' := AfterRmdir(v, i);
    var w := v.watches[i];
    assert WatchOk(v, i);
    WatchedIsLive(v, i);
    LiveNotDoomed(v, w, |v.queue|);
    DoomedExtends(v, v', w, |v.queue|);
    if Live(v', w) {
      var x := LiveIsWatched(v', w);
    }
  }

  lemma RmdirCovered(v: View, i: Ino, d: Ino)
    requires Inv(v) && CanRmdir(v.dirs, i) && MovesOn(v, AfterRmdir(v, i))
    requires d in v.dirs && d != i && Monitored(AfterRmdir(v, i).dirs, d)
    ensures Covered(AfterRmdir(v, i), d)
  {
    RmdirPaths(v.dirs, i, d);
    if i in v.watches {
      assert WatchOk(v, i);
      if Path(v.dirs, i) == Path(v.dirs, d) { PathInjective(v.dirs, i, d); }
    }
    MovesOnCovered(v, AfterRmdir(v, i), d);
  }

  lemma RmdirInv(v: View, i: Ino)
    requires Inv(v) && CanRmdir(v.dirs, i)
    ensures Inv(AfterRmdir(v, i))
  {
    var v' := AfterRmdir(v, i);
    RmdirMovesOn(v, i);
    forall w | w in v'.cached ensures CachedOk(v', w) { MovesOnCached(v, v', w); }
    forall k | 0 <= k < |v'.queue| ensures EventOk(v', k) {
      if k < |v.queue| { MovesOnEvent(v, v', k); } else { RmdirNewEvents(v, i, k); }
    }
    forall d | d in v'.dirs && Monitored(v'.dirs, d) ensures Covered(v', d) {
      RmdirCovered(v, i, d);
    }
    forall x | x in v'.listing ensures JobOk(v', x) {
      assert JobOk(v, x);
      if x in v'.dirs { RmdirPaths(v.dirs, i, x); }
    }
    forall x | x in v'.watches ensures WatchOk(v', x) {
      assert StillWatched(v, v', x) && WatchOk(v, x);
    }
  }

  /** Something happens to a file in a watched directory. */
  function AfterFile(v: View, e: Event): View {
    v.(queue := v.queue + [e])
  }

  lemma FileInv(v: View, e: Event)
    requires Inv(v) && FileNews(e) && Live(v, e.wd)
    ensures Inv(AfterFile(v, e))
  {
    var v' := AfterFile(v, e);
    forall x | x in v'.watches ensures StillWatched(v, v', x) && WatchOk(v', x) {
      assert WatchOk(v, x);
    }
    forall w | w in v'.cached ensures CachedOk(v', w) { MovesOnCached(v, v', w); }
    forall k | 0 <= k < |v'.queue| ensures EventOk(v', k) {
      if k < |v.queue| { MovesOnEvent(v, v', k); } else { NewEventOk(v, v', k); }
    }
    forall d | d in v'.dirs && Monitored(v'.dirs, d) ensures Covered(v', d) {
      MovesOnCovered(v, v', d);
    }
    forall x | x in v'.listing ensures JobOk(v', x) {
      assert JobOk(v, x);
    }
  }

  /** rename() of directory i to entry m of directory q, wherever the two are. */
  function AfterRename(v: View, i: Ino, q: Ino, m: string, cookie: nat): View
    requires i in v.dirs && v.dirs[i].Child?
  {
    var p, n := v.dirs[i].parent, v.dirs[i].name;
    v.(dirs := v.dirs[i := Child(q, m)],
       queue := v.queue
                + (if p in v.watches then [MovedFromEvent(v.watches[p], cookie, n)] else [])
                + (if q in v.watches then [MovedToEvent(v.watches[q], cookie, m)] else []))
  }

  /** A rename of an unmonitored directory moves nothing that is watched, and is not
      announced at the place it leaves. */
  lemma RenameInMovesOn(v: View, i: Ino, q: Ino, m: string, cookie: nat)
    requires Inv(v) && CanRename(v.dirs, i, q, m) && !Monitored(v.dirs, i)
    ensures v.dirs[i].parent !in v.watches
    ensures MovesOn(v, AfterRename(v, i, q, m, cookie))
  {
    var v' := AfterRename(v, i, q, m, cookie);
    RenameTree(v.dirs, i, q, m);
    SameRoots(v.dirs, v'.dirs);
    UnmonitoredUnwatched(v, v.dirs[i].parent);
    forall x | x in v'.watches ensures StillWatched(v, v', x) {
      assert WatchOk(v, x);
      RenamePaths(v.dirs, i, q, m, x);
    }
  }

  lemma RenameInCovered(v: View, i: Ino, q: Ino, m: string, cookie: nat, d: Ino)
    requires Inv(v) && CanRename(v.dirs, i, q, m) && !Monitored(v.dirs, i)
    requires MovesOn(v, AfterRename(v, i, q, m, cookie)) && v.dirs[i].parent !in v.watches
    requires d in v.dirs && Monitored(AfterRename(v, i, q, m, cookie).dirs, d)
    ensures Covered(AfterRename(v, i, q, m, cookie), d)
  {
    var v' := AfterRename(v, i, q, m, cookie);
    RenamePaths(v.dirs, i, q, m, d);
    if !Below(v.dirs, i, d) {
      MovesOnCovered(v, v', d);
    } else if d == i {
      if q in v.watches {
        forall w | w in v'.cached && !Live(v', w) ensures DoomedBefore(v', w, |v.queue|) {
          DeadWereDoomed(v, v', w);
        }
        NewlyAnnounced(v', i, |v.queue|);
      }
    } else {
      var p := v.dirs[d].parent;
      RenamePaths(v.dirs, i, q, m, p);
      UnmonitoredUnwatched(v, p);
    }
  }

  lemma RenameInInv(v: View, i: Ino, q: Ino, m: string, cookie: nat)
    requires Inv(v) && CanRename(v.dirs, i, q, m) && !Monitored(v.dirs, i)
    ensures Inv(AfterRename(v, i, q, m, cookie))
  {
    var v' := AfterRename(v, i, q, m, cookie);
    RenameInMovesOn(v, i, q, m, cookie);
    forall w | w in v'.cached ensures CachedOk(v', w) { MovesOnCached(v, v', w); }
    forall k | 0 <= k < |v'.queue| ensures EventOk(v', k) {
      if k < |v.queue| {
        MovesOnEvent(v, v', k);
      } else {
        WatchedIsLive(v, q);
        NewEventOk(v, v', k);
      }
    }
    forall d | d in v'.dirs && Monitored(v'.dirs, d) ensures Covered(v', d) {
      RenameInCovered(v, i, q, m, cookie, d);
    }
    forall x | x in v'.listing ensures JobOk(v', x) {
      assert JobOk(v, x);
      if x in v.dirs { RenamePaths(v.dirs, i, q, m, x); }
    }
    forall x | x in v'.watches ensures WatchOk(v', x) {
      assert StillWatched(v, v', x) && WatchOk(v, x);
    }
  }
}
