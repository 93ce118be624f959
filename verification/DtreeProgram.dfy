/** The program's side of inotify_dtree.c: the recursive scan that nftw() drives and the
    handling of events, and that each of their steps keeps the invariant. */
module DtreeProgram {
  import opened PathNames
  import opened DirTree
  import opened EventHandler
  import opened DtreeInvariant
  import WatchCache

  ghost function Children(dirs: Dirs, i: Ino): set<Ino> {
    set c | c in dirs && dirs[c].Child? && dirs[c].parent == i
  }

  // ----- the scan -----

  /** `path` leads to the monitored directory i. */
  ghost predicate Resolves(dirs: Dirs, path: string, i: Ino)
    requires Tree(dirs)
  {
    i in dirs && Monitored(dirs, i) && Path(dirs, i) == path
  }

  /** inotify_add_watch() gives a watched inode its old descriptor, else a new one. */
  function WdFor(v: View, i: Ino): int {
    if i in v.watches then v.watches[i] else v.nextWd
  }

  /** traverseTree() on a directory: place the watch, cache it unless its descriptor is
      cached already, and go on to list it. */
  ghost function AfterVisit(v: View, path: string, i: Ino): View {
    var wd := WdFor(v, i);
    v.(watches := v.watches[i := wd],
       nextWd := if i in v.watches then v.nextWd else v.nextWd + 1,
       cached := if wd in v.cached then v.cached else v.cached[wd := path],
       work := v.work - {path},
       listing := v.listing[i := Job(path, Children(v.dirs, i))])
  }

  /** The directory has gone before it could be watched. */
  function AfterMiss(v: View, path: string): View {
    v.(work := v.work - {path})
  }

  lemma MissInv(v: View, path: string)
    requires Inv(v) && forall i :: !Resolves(v.dirs, path, i)
    ensures Inv(AfterMiss(v, path))
  {
    var v' := AfterMiss(v, path);
    SameButScan(v, v');
    forall d | d in v'.dirs && Monitored(v'.dirs, d) ensures Covered(v', d) {
      assert !Resolves(v.dirs, path, d);
      StaysCovered(v, v', d);
    }
    forall x | x in v'.listing ensures JobOk(v', x) { assert JobOk(v, x); }
  }

  /** Two views that differ only in what the scan has still to do. */
  predicate OnlyScanDiffers(v: View, v': View) {
    v' == v.(work := v'.work, listing := v'.listing)
  }

  lemma SameButScan(v: View, v': View)
    requires Inv(v) && OnlyScanDiffers(v, v')
    ensures forall i :: i in v'.watches ==> WatchOk(v', i)
    ensures forall w :: w in v'.cached ==> CachedOk(v', w)
    ensures forall k :: 0 <= k < |v'.queue| ==> EventOk(v', k)
  {
    forall i | i in v'.watches ensures WatchOk(v', i) { assert WatchOk(v, i); }
    forall w | w in v'.cached ensures CachedOk(v', w) {
      assert CachedOk(v, w);
      SameDoomed(v, v', w, |v.queue|);
    }
    forall k | 0 <= k < |v'.queue| ensures EventOk(v', k) {
      assert EventOk(v, k);
      SameDoomed(v, v', v.queue[k].wd, k);
    }
  }

  lemma SameDoomed(v: View, v': View, w: int, k: int)
    requires v'.queue == v.queue && k <= |v.queue|
    ensures DoomedBefore(v', w, k) == DoomedBefore(v, w, k)
  {
    DoomedExtends(v, v', w, k);
  }

  /** Reasons for being covered that the scan's own progress does not touch. */
  lemma StaysCovered(v: View, v': View, d: Ino)
    requires Inv(v) && OnlyScanDiffers(v, v') && d in v.dirs && Monitored(v.dirs, d)
    requires Path(v.dirs, d) in v.work ==> Path(v.dirs, d) in v'.work || d in v.watches
    requires forall p :: p in v.listing && d in v.listing[p].must && v.dirs[d].Child? && v.dirs[d].parent == p ==>
               (p in v'.listing && d in v'.listing[p].must) || Path(v.dirs, d) in v'.work
    ensures Covered(v', d)
  {
    assert Covered(v, d);
    if v.dirs[d].Child? && v.dirs[d].parent in v.watches {
      if k :| Announced(v, d, k) {
        forall w | w in v'.cached && v'.cached[w] == Path(v'.dirs, d) && !Live(v', w) ensures DoomedBefore(v', w, k) {
          SameDoomed(v, v', w, k);
        }
        assert Announced(v', d, k);
      }
    }
  }

  /** Visiting a directory that is watched already only starts its listing. */
  lemma RevisitInv(v: View, path: string, i: Ino)
    requires Inv(v) && Resolves(v.dirs, path, i) && i in v.watches
    ensures Inv(AfterVisit(v, path, i))
  {
    var v' := AfterVisit(v, path, i);
    assert WatchOk(v, i);
    assert v.watches[i := v.watches[i]] == v.watches;
    SameButScan(v, v');
    forall d | d in v'.dirs && Monitored(v'.dirs, d) ensures Covered(v', d) {
      if Path(v.dirs, d) == path { PathInjective(v.dirs, d, i); }
      StaysCovered(v, v', d);
    }
    forall x | x in v'.listing ensures JobOk(v', x) {
      if x != i { assert JobOk(v, x); }
    }
  }

  /** Visiting an unwatched directory adds a fresh descriptor for it. */
  lemma FreshVisit(v: View, path: string, i: Ino)
    requires Inv(v) && Resolves(v.dirs, path, i) && i !in v.watches
    ensures var v' := AfterVisit(v, path, i);
            && v.nextWd !in v.cached && v'.cached == v.cached[v.nextWd := path]
            && Injective(v'.watches)
            && (forall w :: Live(v', w) <==> Live(v, w) || w == v.nextWd)
            && !Live(v, v.nextWd)
  {
    var v' := AfterVisit(v, path, i);
    forall w | w in v.cached ensures w < v.nextWd { assert CachedOk(v, w); }
    forall x | x in v.watches ensures v.watches[x] != v.nextWd { assert WatchOk(v, x); }
    forall w ensures Live(v', w) <==> Live(v, w) || w == v.nextWd {
      if Live(v', w) {
        var x := LiveIsWatched(v', w);
        if x != i { WatchedIsLive(v, x); }
      }
      if Live(v, w) {
        var x := LiveIsWatched(v, w);
        assert v'.watches[x] == w;
        WatchedIsLive(v', x);
      }
      if w == v.nextWd { WatchedIsLive(v', i); }
    }
  }

  lemma FreshVisitCovered(v: View, path: string, i: Ino, d: Ino)
    requires Inv(v) && Resolves(v.dirs, path, i) && i !in v.watches
    requires d in v.dirs && Monitored(v.dirs, d)
    ensures Covered(AfterVisit(v, path, i), d)
  {
    var v' := AfterVisit(v, path, i);
    FreshVisit(v, path, i);
    assert Covered(v, d);
    if Path(v.dirs, d) == path { PathInjective(v.dirs, d, i); }
    if d != i && v.dirs[d].Child? && v.dirs[d].parent != i && v.dirs[d].parent in v.watches {
      if k :| Announced(v, d, k) {
        forall w | w in v'.cached && v'.cached[w] == Path(v'.dirs, d) && !Live(v', w) ensures DoomedBefore(v', w, k) {
          assert w in v.cached && !Live(v, w);
          SameDoomed(v, v', w, k);
        }
        assert Announced(v', d, k);
      }
    }
  }

  lemma FreshVisitInv(v: View, path: string, i: Ino)
    requires Inv(v) && Resolves(v.dirs, path, i) && i !in v.watches
    ensures Inv(AfterVisit(v, path, i))
  {
    var v' := AfterVisit(v, path, i);
    FreshVisit(v, path, i);
    forall x | x in v'.watches ensures WatchOk(v', x) {
      if x != i { assert WatchOk(v, x); }
    }
    forall w | w in v'.cached ensures CachedOk(v', w) {
      if w != v.nextWd {
        assert CachedOk(v, w);
        SameDoomed(v, v', w, |v.queue|);
      }
    }
    forall k | 0 <= k < |v'.queue| ensures EventOk(v', k) {
      assert EventOk(v, k);
      SameDoomed(v, v', v.queue[k].wd, k);
    }
    forall d | d in v'.dirs && Monitored(v'.dirs, d) ensures Covered(v', d) {
      FreshVisitCovered(v, path, i, d);
    }
    forall x | x in v'.listing ensures JobOk(v', x) {
      if x != i { assert JobOk(v, x); }
    }
  }

  lemma VisitInv(v: View, path: string, i: Ino)
    requires Inv(v) && Resolves(v.dirs, path, i)
    ensures Inv(AfterVisit(v, path, i))
  {
    if i in v.watches { RevisitInv(v, path, i); } else { FreshVisitInv(v, path, i); }
  }

  /** Reading the entries of directory i: every entry that was there throughout is
      found; one that appeared since may be. */
  ghost predicate CanList(v: View, i: Ino, found: set<Ino>) {
    && i in v.listing
    && v.listing[i].must * Children(v.dirs, i) <= found <= Children(v.dirs, i)
  }

  /** The paths under which a listing reports some entries of a directory. */
  ghost function Entries(dirs: Dirs, path: string, found: set<Ino>): set<string>
    requires forall c :: c in found ==> c in dirs && dirs[c].Child?
  {
    set c | c in found :: Join(path, dirs[c].name)
  }

  ghost function AfterList(v: View, i: Ino, found: set<Ino>): View
    requires CanList(v, i, found)
  {
    v.(work := v.work + Entries(v.dirs, v.listing[i].path, found),
       listing := v.listing - {i})
  }

  lemma ListInv(v: View, i: Ino, found: set<Ino>)
    requires Inv(v) && CanList(v, i, found)
    ensures Inv(AfterList(v, i, found))
  {
    var v' := AfterList(v, i, found);
    SameButScan(v, v');
    forall d | d in v'.dirs && Monitored(v'.dirs, d) ensures Covered(v', d) {
      if d in v.listing[i].must && v.dirs[d].Child? && v.dirs[d].parent == i {
        assert JobOk(v, i);
        assert d in Children(v.dirs, i);
        assert d in found;
        assert Path(v.dirs, d) == Join(v.listing[i].path, v.dirs[d].name);
        assert Path(v.dirs, d) in v'.work;
      }
      StaysCovered(v, v', d);
    }
    forall x | x in v'.listing ensures JobOk(v', x) { assert JobOk(v, x); }
  }

  // ----- the first event of the queue -----

  predicate HasPath(cached: map<int, string>, path: string) {
    exists w :: w in cached && cached[w] == path
  }

  /** Where an arrival says a directory has appeared. */
  function ArrivalPath(v: View, e: Event): string
    requires e.wd in v.cached
  {
    Join(v.cached[e.wd], e.name)
  }

  /** The effect of the first event: a deletion clears the entry, an arrival starts a
      scan unless the path is cached already, other events change nothing. */
  function AfterEvent(v: View): View
    requires v.queue != []
  {
    var e := v.queue[0];
    v.(queue := v.queue[1..],
       cached := if Deletion(e) then v.cached - {e.wd} else v.cached,
       work := if Arrival(e) && e.wd in v.cached && !HasPath(v.cached, ArrivalPath(v, e))
               then v.work + {ArrivalPath(v, e)} else v.work)
  }

  lemma DoomedShifts(v: View, v': View, w: int, k: int)
    requires v.queue != [] && v'.queue == v.queue[1..] && 0 <= k <= |v'.queue|
    ensures DoomedBefore(v', w, k) ==> DoomedBefore(v, w, k + 1)
    ensures DoomedBefore(v, w, k + 1) && !Doomed(v, w, 0) ==> DoomedBefore(v', w, k)
  {
    if DoomedBefore(v', w, k) {
      var j :| 0 <= j < k && Doomed(v', w, j);
      assert Doomed(v, w, j + 1);
    }
    if DoomedBefore(v, w, k + 1) && !Doomed(v, w, 0) {
      var j :| 0 <= j < k + 1 && Doomed(v, w, j);
      assert Doomed(v', w, j - 1);
    }
  }

  lemma HandledWatch(v: View, i: Ino)
    requires Inv(v) && v.queue != [] && i in v.watches
    ensures WatchOk(AfterEvent(v), i)
  {
    assert WatchOk(v, i) && EventOk(v, 0);
    WatchedIsLive(v, i);
  }

  lemma HandledCached(v: View, w: int)
    requires Inv(v) && v.queue != [] && w in AfterEvent(v).cached
    ensures CachedOk(AfterEvent(v), w)
  {
    var v' := AfterEvent(v);
    assert CachedOk(v, w);
    DoomedShifts(v, v', w, |v'.queue|);
  }

  lemma HandledEvent(v: View, k: int)
    requires Inv(v) && v.queue != [] && 0 <= k < |v.queue| - 1
    ensures EventOk(AfterEvent(v), k)
  {
    var v' := AfterEvent(v);
    var e := v.queue[k + 1];
    assert EventOk(v, k + 1) && v'.queue[k] == e;
    DoomedShifts(v, v', e.wd, k);
    if Doomed(v, e.wd, 0) {
      assert DoomedBefore(v, e.wd, k + 1);
    }
  }

  /** An announcement further back in the queue stays one. */
  lemma HandledAnnounced(v: View, d: Ino, k: int)
    requires Inv(v) && v.queue != [] && d in v.dirs && v.dirs[d].Child? && v.dirs[d].parent in v.watches
    requires Announced(v, d, k) && k > 0
    ensures Announced(AfterEvent(v), d, k - 1)
  {
    var v' := AfterEvent(v);
    forall w | w in v'.cached && v'.cached[w] == Path(v'.dirs, d) && !Live(v', w) ensures DoomedBefore(v', w, k - 1) {
      assert DoomedBefore(v, w, k);
      DoomedShifts(v, v', w, k - 1);
    }
  }

  /** When the announcement itself is handled, the directory is cached or scanned: a
      stale entry with its path would have been cleared before. */
  lemma AnnouncementHandled(v: View, d: Ino)
    requires Inv(v) && d in v.dirs && v.dirs[d].Child? && Monitored(v.dirs, d) && v.dirs[d].parent in v.watches
    requires Announced(v, d, 0)
    ensures d in v.watches || Path(v.dirs, d) in AfterEvent(v).work
  {
    var e := v.queue[0];
    assert WatchOk(v, v.dirs[d].parent);
    assert ArrivalPath(v, e) == Path(v.dirs, d);
    if HasPath(v.cached, Path(v.dirs, d)) {
      var w :| w in v.cached && v.cached[w] == Path(v.dirs, d);
      assert !DoomedBefore(v, w, 0);
      var i := LiveIsWatched(v, w);
      assert WatchOk(v, i);
      PathInjective(v.dirs, i, d);
    }
  }

  lemma HandledCovered(v: View, d: Ino)
    requires Inv(v) && v.queue != [] && d in v.dirs && Monitored(v.dirs, d)
    ensures Covered(AfterEvent(v), d)
  {
    assert Covered(v, d);
    if v.dirs[d].Child? && v.dirs[d].parent in v.watches {
      if k :| Announced(v, d, k) {
        if k == 0 {
          AnnouncementHandled(v, d);
        } else {
          HandledAnnounced(v, d, k);
        }
      }
    }
  }

  lemma EventInv(v: View)
    requires Inv(v) && v.queue != []
    ensures Inv(AfterEvent(v))
  {
    var v' := AfterEvent(v);
    forall i | i in v'.watches ensures WatchOk(v', i) { HandledWatch(v, i); }
    forall w | w in v'.cached ensures CachedOk(v', w) { HandledCached(v, w); }
    forall k | 0 <= k < |v'.queue| ensures EventOk(v', k) { HandledEvent(v, k); }
    forall d | d in v'.dirs && Monitored(v'.dirs, d) ensures Covered(v', d) { HandledCovered(v, d); }
    forall x | x in v'.listing ensures JobOk(v', x) { assert JobOk(v, x); }
  }

  // ----- renames of monitored directories -----

  /** The cache and the watches after a rename out of the monitored trees. */
  function AfterZap(v: View, path: string, tail: seq<Event>): View {
    var gone := set w | w in v.cached && Covers(path, v.cached[w]);
    v.(queue := tail,
       cached := v.cached - gone,
       watches := map i | i in v.watches && v.watches[i] !in gone :: v.watches[i])
  }

  /** Everything monitored is watched and cached under its path, and nothing else is. */
  lemma SyncIsInv(v: View)
    requires Tree(v.dirs) && InSync(v) && v.nextWd >= 1 && v.work == {} && v.listing == map[]
    requires forall w :: w in v.cached ==> 1 <= w < v.nextWd
    requires forall k :: 0 <= k < |v.queue| ==> Ignoring(v.queue[k]) && 1 <= v.queue[k].wd < v.nextWd
    ensures Inv(v)
  {
    forall i | i in v.watches ensures WatchOk(v, i) { WatchedIsLive(v, i); }
    forall w | w in v.cached ensures CachedOk(v, w) {}
    forall k | 0 <= k < |v.queue| ensures EventOk(v, k) {}
    forall d | d in v.dirs && Monitored(v.dirs, d) ensures Covered(v, d) {}
  }

  /** What rewriting does to the entry of directory x. */
  lemma RenameInsideEntry(v: View, i: Ino, q: Ino, m: string, x: Ino)
    requires Inv(v) && CanRename(v.dirs, i, q, m) && Tree(v.dirs[i := Child(q, m)])
    requires Monitored(v.dirs, i) && Monitored(v.dirs, q) && x in v.dirs
    ensures Monitored(v.dirs[i := Child(q, m)], x) == Monitored(v.dirs, x)
    ensures x in v.watches ==>
              && v.watches[x] in v.cached
              && WatchCache.Rewritten(v.cached[v.watches[x]], Path(v.dirs, i), Join(Path(v.dirs, q), m))
                 == Path(v.dirs[i := Child(q, m)], x)
  {
    RenamePaths(v.dirs, i, q, m, x);
    if x in v.watches {
      assert WatchOk(v, x);
      CoversIffBelow(v.dirs, i, x);
    }
  }

  lemma CachedInRange(v: View)
    requires Inv(v)
    ensures forall w :: w in v.cached ==> 1 <= w < v.nextWd
  {
    forall w | w in v.cached ensures 1 <= w < v.nextWd { assert CachedOk(v, w); }
  }

  /** The entry of a watched directory lies under the moved path exactly if the
      directory is no longer monitored, and is right otherwise. */
  lemma RenameOutEntry(v: View, i: Ino, q: Ino, m: string, x: Ino)
    requires Inv(v) && CanRename(v.dirs, i, q, m) && Tree(v.dirs[i := Child(q, m)])
    requires Monitored(v.dirs, i) && !Monitored(v.dirs, q) && x in v.watches
    ensures x in v.dirs && v.watches[x] in v.cached
    ensures Covers(Path(v.dirs, i), v.cached[v.watches[x]]) <==> !Monitored(v.dirs[i := Child(q, m)], x)
    ensures Monitored(v.dirs[i := Child(q, m)], x) ==> v.cached[v.watches[x]] == Path(v.dirs[i := Child(q, m)], x)
  {
    assert WatchOk(v, x);
    RenamePaths(v.dirs, i, q, m, x);
    CoversIffBelow(v.dirs, i, x);
  }

  lemma ZapValues(v: View, path: string, tail: seq<Event>)
    requires v.cached.Keys == v.watches.Values
    ensures var v' := AfterZap(v, path, tail);
            v'.cached.Keys == v'.watches.Values
  {
    var v' := AfterZap(v, path, tail);
    forall w | w in v'.cached ensures w in v'.watches.Values {
      var x := LiveIsWatched(v, w);
      WatchedIsLive(v', x);
    }
    forall w | w in v'.watches.Values ensures w in v'.cached {
      var x := LiveIsWatched(v', w);
      WatchedIsLive(v, x);
    }
  }

  /** Zapping brings a cache into sync whose entries under `path` are exactly those of
      directories no longer monitored. */
  lemma ZapInSync(v: View, path: string, tail: seq<Event>)
    requires Tree(v.dirs) && Injective(v.watches) && v.cached.Keys == v.watches.Values
    requires forall x :: x in v.watches ==> ZapsRightly(v, path, x)
    requires forall x :: x in v.dirs && Monitored(v.dirs, x) ==> x in v.watches
    ensures InSync(AfterZap(v, path, tail))
  {
    var v' := AfterZap(v, path, tail);
    ZapValues(v, path, tail);
    forall x | x in v.watches
      ensures x in v'.watches <==> Monitored(v.dirs, x)
      ensures x in v'.watches ==> v'.watches[x] in v'.cached && v'.cached[v'.watches[x]] == Path(v.dirs, x)
    {
      assert ZapsRightly(v, path, x);
    }
  }

  ghost predicate ZapsRightly(v: View, path: string, x: Ino)
    requires Tree(v.dirs) && x in v.watches
  {
    && x in v.dirs && v.watches[x] in v.cached
    && (Covers(path, v.cached[v.watches[x]]) <==> !Monitored(v.dirs, x))
    && (Monitored(v.dirs, x) ==> v.cached[v.watches[x]] == Path(v.dirs, x))
  }

  lemma RenameOutInSync(v: View, i: Ino, q: Ino, m: string, cookie: nat, tail: seq<Event>)
    requires Inv(v) && InSync(v) && CanRename(v.dirs, i, q, m)
    requires Monitored(v.dirs, i) && !Monitored(v.dirs, q)
    ensures var v' := AfterZap(AfterRename(v, i, q, m, cookie), Path(v.dirs, i), tail);
            Tree(v'.dirs) && InSync(v')
  {
    var r := AfterRename(v, i, q, m, cookie);
    RenameTree(v.dirs, i, q, m);
    forall x | x in r.watches ensures ZapsRightly(r, Path(v.dirs, i), x) {
      RenameOutEntry(v, i, q, m, x);
    }
    forall x | x in r.dirs && Monitored(r.dirs, x) ensures x in r.watches {
      RenamePaths(v.dirs, i, q, m, x);
    }
    ZapInSync(r, Path(v.dirs, i), tail);
  }

  /** A rename out of the monitored trees, followed by zapping the subtree, leaves no
      watch and no entry for it, and every other one. */
  lemma RenameOutInv(v: View, i: Ino, q: Ino, m: string, cookie: nat, tail: seq<Event>)
    requires Inv(v) && Quiet(v) && CanRename(v.dirs, i, q, m)
    requires Monitored(v.dirs, i) && !Monitored(v.dirs, q)
    requires forall k :: 0 <= k < |tail| ==> Ignoring(tail[k]) && 1 <= tail[k].wd < v.nextWd
    ensures Inv(AfterZap(AfterRename(v, i, q, m, cookie), Path(v.dirs, i), tail))
  {
    var v' := AfterZap(AfterRename(v, i, q, m, cookie), Path(v.dirs, i), tail);
    QuietIsInSync(v);
    RenameOutInSync(v, i, q, m, cookie, tail);
    CachedInRange(v);
    SyncIsInv(v');
  }

  // ----- what a rename must keep clear of -----

  /** A path that the program has still to look into: the scan will visit it, or reads
      its entries, or an event announces it. */
  predicate Pending(v: View, path: string) {
    || path in v.work
    || (exists x :: x in v.listing && v.listing[x].path == path)
    || (exists k :: 0 <= k < |v.queue| && Announces(v, k, path))
  }

  predicate Announces(v: View, k: nat, path: string)
    requires k < |v.queue|
  {
    var e := v.queue[k];
    Arrival(e) && e.wd in v.cached && ArrivalPath(v, e) == path
  }

  /** Everything pending is apart from the old and from the new place of directory i. */
  ghost predicate Clear(v: View, i: Ino, q: Ino, m: string)
    requires Tree(v.dirs) && i in v.dirs && q in v.dirs
  {
    forall path :: Pending(v, path) ==> OutOfTheWay(v.dirs, i, q, m, path)
  }

  ghost predicate OutOfTheWay(dirs: Dirs, i: Ino, q: Ino, m: string, path: string)
    requires Tree(dirs) && i in dirs && q in dirs
  {
    Apart(path, Path(dirs, i)) && (Monitored(dirs, q) ==> Apart(path, Join(Path(dirs, q), m)))
  }

  /** Nothing is pending when the program is at rest, so every rename is clear then. */
  lemma QuietIsClear(v: View, i: Ino, q: Ino, m: string)
    requires Quiet(v) && Tree(v.dirs) && i in v.dirs && q in v.dirs
    ensures Clear(v, i, q, m)
  {
    forall path ensures !Pending(v, path) {}
  }

  /** Something pending leads to every monitored directory that is not watched. */
  lemma {:induction false} PendingLeads(v: View, d: Ino) returns (path: string)
    requires Inv(v) && d in v.dirs && Monitored(v.dirs, d) && d !in v.watches
    ensures Pending(v, path) && Covers(path, Path(v.dirs, d))
    decreases Rank(v.dirs)[d]
  {
    assert Covered(v, d);
    path := Path(v.dirs, d);
    if path !in v.work {
      var p, n := v.dirs[d].parent, v.dirs[d].name;
      if p !in v.watches {
        path := PendingLeads(v, p);
        CoversJoin(path, Path(v.dirs, p), n);
      } else if p in v.listing && d in v.listing[p].must {
        assert JobOk(v, p) && WatchOk(v, p);
        path := Path(v.dirs, p);
        CoversJoin(path, path, n);
      } else {
        var k :| Announced(v, d, k);
        assert WatchOk(v, p);
        assert Announces(v, k, path);
      }
    }
  }

  lemma ClearIsWatched(v: View, d: Ino)
    requires Inv(v) && d in v.dirs && Monitored(v.dirs, d)
    requires forall path :: Pending(v, path) ==> !Covers(path, Path(v.dirs, d))
    ensures d in v.watches
  {
    if d !in v.watches {
      var path := PendingLeads(v, d);
    }
  }

  /** So the old and, if it is monitored, the new parent of the directory are watched. */
  lemma ClearPlaces(v: View, i: Ino, q: Ino, m: string)
    requires Inv(v) && CanRename(v.dirs, i, q, m) && Monitored(v.dirs, i) && Clear(v, i, q, m)
    ensures v.dirs[i].parent in v.watches
    ensures q in v.watches <==> Monitored(v.dirs, q)
  {
    var p, n := v.dirs[i].parent, v.dirs[i].name;
    forall path | Pending(v, path) ensures !Covers(path, Path(v.dirs, p)) {
      assert OutOfTheWay(v.dirs, i, q, m, path);
      CoversJoin(path, Path(v.dirs, p), n);
    }
    ClearIsWatched(v, p);
    if Monitored(v.dirs, q) {
      forall path | Pending(v, path) ensures !Covers(path, Path(v.dirs, q)) {
        assert OutOfTheWay(v.dirs, i, q, m, path);
        CoversJoin(path, Path(v.dirs, q), m);
      }
      ClearIsWatched(v, q);
    } else {
      UnmonitoredUnwatched(v, q);
    }
  }

  /** A path out of the way leads to the same directory before and after the rename. */
  lemma ResolvesAlike(dirs: Dirs, i: Ino, q: Ino, m: string, path: string, x: Ino)
    requires Tree(dirs) && CanRename(dirs, i, q, m) && Tree(dirs[i := Child(q, m)])
    requires Monitored(dirs, i) && OutOfTheWay(dirs, i, q, m, path)
    ensures Resolves(dirs[i := Child(q, m)], path, x) <==> Resolves(dirs, path, x)
    ensures Resolves(dirs, path, x) ==> x != dirs[i].parent && x != q
  {
    if x in dirs {
      RenamePaths(dirs, i, q, m, x);
      CoversJoin(Path(dirs, dirs[i].parent), Path(dirs, dirs[i].parent), dirs[i].name);
      CoversJoin(Path(dirs, q), Path(dirs, q), m);
      if Below(dirs, i, x) {
        CoversIffBelow(dirs, i, x);
        CoversRebase(Path(dirs, x), Path(dirs, i), Join(Path(dirs, q), m));
      }
    }
  }

  lemma ChildrenAlike(dirs: Dirs, i: Ino, q: Ino, m: string, x: Ino)
    requires i in dirs && dirs[i].Child? && x != dirs[i].parent && x != q
    ensures Children(dirs[i := Child(q, m)], x) == Children(dirs, x) && i !in Children(dirs, x)
  {
  }

  // ----- the program's own steps keep clear -----

  lemma PendingAfterVisit(v: View, path: string, x: Ino, y: string)
    requires Inv(v) && path in v.work && Pending(AfterVisit(v, path, x), y)
    ensures Pending(v, y)
  {
    var v' := AfterVisit(v, path, x);
    if k :| 0 <= k < |v'.queue| && Announces(v', k, y) {
      assert EventOk(v, k);
      assert Announces(v, k, y);
    } else if z :| z in v'.listing && v'.listing[z].path == y {
      assert z != x ==> v.listing[z].path == y;
    }
  }

  lemma PendingAfterMiss(v: View, path: string, y: string)
    requires Pending(AfterMiss(v, path), y)
    ensures Pending(v, y)
  {
    var v' := AfterMiss(v, path);
    if k :| 0 <= k < |v'.queue| && Announces(v', k, y) {
      assert Announces(v, k, y);
    }
  }

  /** What a listing adds lies in the directory that was pending. */
  lemma PendingAfterList(v: View, x: Ino, found: set<Ino>, y: string)
    requires CanList(v, x, found) && Pending(AfterList(v, x, found), y)
    ensures Pending(v, y) || (Pending(v, v.listing[x].path) &&
              exists c :: c in found && y == Join(v.listing[x].path, v.dirs[c].name))
  {
    var v' := AfterList(v, x, found);
    if k :| 0 <= k < |v'.queue| && Announces(v', k, y) {
      assert Announces(v, k, y);
    } else if z :| z in v'.listing && v'.listing[z].path == y {
      assert v.listing[z].path == y;
    }
  }

  lemma PendingAfterEvent(v: View, y: string)
    requires v.queue != [] && Pending(AfterEvent(v), y)
    ensures Pending(v, y)
  {
    var v' := AfterEvent(v);
    if k :| 0 <= k < |v'.queue| && Announces(v', k, y) {
      assert Announces(v, k + 1, y);
    } else if y in v'.work && y !in v.work {
      assert Announces(v, 0, y);
    }
  }

  lemma ClearAfterList(v: View, i: Ino, q: Ino, m: string, x: Ino, found: set<Ino>)
    requires Tree(v.dirs) && i in v.dirs && q in v.dirs && CanList(v, x, found) && Clear(v, i, q, m)
    ensures Clear(AfterList(v, x, found), i, q, m)
  {
    var v' := AfterList(v, x, found);
    forall y | Pending(v', y) ensures OutOfTheWay(v.dirs, i, q, m, y) {
      PendingAfterList(v, x, found, y);
      if !Pending(v, y) {
        var c :| c in found && y == Join(v.listing[x].path, v.dirs[c].name);
        assert OutOfTheWay(v.dirs, i, q, m, v.listing[x].path);
        ApartJoin(v.listing[x].path, v.dirs[c].name, Path(v.dirs, i));
        if Monitored(v.dirs, q) { ApartJoin(v.listing[x].path, v.dirs[c].name, Join(Path(v.dirs, q), m)); }
      }
    }
  }

  lemma ClearAfterVisit(v: View, i: Ino, q: Ino, m: string, path: string, x: Ino)
    requires Inv(v) && i in v.dirs && q in v.dirs && path in v.work && Clear(v, i, q, m)
    ensures Clear(AfterVisit(v, path, x), i, q, m)
  {
    forall y | Pending(AfterVisit(v, path, x), y) ensures OutOfTheWay(v.dirs, i, q, m, y) {
      PendingAfterVisit(v, path, x, y);
    }
  }

  lemma ClearAfterMiss(v: View, i: Ino, q: Ino, m: string, path: string)
    requires Tree(v.dirs) && i in v.dirs && q in v.dirs && Clear(v, i, q, m)
    ensures Clear(AfterMiss(v, path), i, q, m)
  {
    forall y | Pending(AfterMiss(v, path), y) ensures OutOfTheWay(v.dirs, i, q, m, y) {
      PendingAfterMiss(v, path, y);
    }
  }

  lemma ClearAfterEvent(v: View, i: Ino, q: Ino, m: string)
    requires Tree(v.dirs) && i in v.dirs && q in v.dirs && v.queue != [] && Clear(v, i, q, m)
    ensures Clear(AfterEvent(v), i, q, m)
  {
    forall y | Pending(AfterEvent(v), y) ensures OutOfTheWay(v.dirs, i, q, m, y) {
      PendingAfterEvent(v, y);
    }
  }

  // ----- a rename within the trees, as if it were seen at once -----

  /** The trees and the cache after a rename within the monitored trees, as if the program
      had seen it before anything else that is on its way. */
  ghost function AfterRewrite(v: View, i: Ino, q: Ino, m: string): View
    requires Tree(v.dirs) && i in v.dirs && q in v.dirs
  {
    var from, to := Path(v.dirs, i), Join(Path(v.dirs, q), m);
    v.(dirs := v.dirs[i := Child(q, m)],
       cached := map w | w in v.cached :: WatchCache.Rewritten(v.cached[w], from, to))
  }

  /** Everything in a directory that is clear of what is pending is watched. */
  lemma MovedIsWatched(v: View, i: Ino, q: Ino, m: string, d: Ino)
    requires Inv(v) && CanRename(v.dirs, i, q, m) && Monitored(v.dirs, i) && Clear(v, i, q, m)
    requires d in v.dirs && Monitored(v.dirs, d) && Below(v.dirs, i, d)
    ensures d in v.watches
  {
    CoversIffBelow(v.dirs, i, d);
    forall path | Pending(v, path) ensures !Covers(path, Path(v.dirs, d)) {
      assert OutOfTheWay(v.dirs, i, q, m, path);
      if Covers(path, Path(v.dirs, d)) { CoversComparable(path, Path(v.dirs, i), Path(v.dirs, d)); }
    }
    ClearIsWatched(v, d);
  }

  /** A rewritten path is that of no directory outside the moved one, and of no root. */
  lemma RewrittenApart(dirs: Dirs, i: Ino, q: Ino, m: string, path: string, d: Ino)
    requires Tree(dirs) && CanRename(dirs, i, q, m) && Monitored(dirs, q)
    requires Covers(Path(dirs, i), path) && d in dirs && Monitored(dirs, d)
    ensures WatchCache.Rewritten(path, Path(dirs, i), Join(Path(dirs, q), m)) != Path(dirs, d)
  {
    CoversRebase(path, Path(dirs, i), Join(Path(dirs, q), m));
    NothingBelowVacant(dirs, q, m, d);
  }

  lemma RewriteCachedOk(v: View, i: Ino, q: Ino, m: string, w: int)
    requires Inv(v) && CanRename(v.dirs, i, q, m) && Monitored(v.dirs, q) && w in v.cached
    requires RootPaths(v.dirs[i := Child(q, m)]) == RootPaths(v.dirs)
    ensures CachedOk(AfterRewrite(v, i, q, m), w)
  {
    var v' := AfterRewrite(v, i, q, m);
    assert CachedOk(v, w);
    SameDoomed(v, v', w, |v.queue|);
    if Covers(Path(v.dirs, i), v.cached[w]) && v'.cached[w] in RootPaths(v.dirs) {
      var r :| r in v.dirs && v.dirs[r].Root? && v.dirs[r].path == v'.cached[w];
      RewrittenApart(v.dirs, i, q, m, v.cached[w], r);
    }
  }

  lemma RewriteAnnounced(v: View, i: Ino, q: Ino, m: string, d: Ino, k: int)
    requires Inv(v) && CanRename(v.dirs, i, q, m) && Monitored(v.dirs, q) && Tree(v.dirs[i := Child(q, m)])
    requires d in v.dirs && d != i && Monitored(v.dirs, d) && v.dirs[d].Child? && v.dirs[d].parent in v.watches
    requires Path(v.dirs[i := Child(q, m)], d) == Path(v.dirs, d) && Announced(v, d, k)
    ensures Announced(AfterRewrite(v, i, q, m), d, k)
  {
    var v' := AfterRewrite(v, i, q, m);
    forall w | w in v'.cached && v'.cached[w] == Path(v'.dirs, d) && !Live(v', w) ensures DoomedBefore(v', w, k) {
      if Covers(Path(v.dirs, i), v.cached[w]) { RewrittenApart(v.dirs, i, q, m, v.cached[w], d); }
      SameDoomed(v, v', w, k);
    }
  }

  lemma RewriteCovered(v: View, i: Ino, q: Ino, m: string, d: Ino)
    requires Inv(v) && CanRename(v.dirs, i, q, m) && Monitored(v.dirs, i) && Monitored(v.dirs, q)
    requires Clear(v, i, q, m) && Tree(v.dirs[i := Child(q, m)]) && d in v.dirs && Monitored(v.dirs, d)
    ensures Covered(AfterRewrite(v, i, q, m), d)
  {
    if Below(v.dirs, i, d) {
      MovedIsWatched(v, i, q, m, d);
    } else {
      RenamePaths(v.dirs, i, q, m, d);
      assert Covered(v, d);
      if v.dirs[d].Child? && v.dirs[d].parent in v.watches {
        if k :| Announced(v, d, k) {
          RewriteAnnounced(v, i, q, m, d, k);
        }
      }
    }
  }

  lemma RewriteJobOk(v: View, i: Ino, q: Ino, m: string, x: Ino)
    requires Inv(v) && CanRename(v.dirs, i, q, m) && Monitored(v.dirs, i) && Clear(v, i, q, m)
    requires Tree(v.dirs[i := Child(q, m)]) && x in v.listing
    ensures JobOk(AfterRewrite(v, i, q, m), x)
  {
    var path := v.listing[x].path;
    assert JobOk(v, x) && Pending(v, path);
    ResolvesAlike(v.dirs, i, q, m, path, x);
  }

  /** A rename within the monitored trees that is clear of what is pending, and the
      rewriting of the cached paths with the string test, keep the invariant. */
  lemma RewriteInv(v: View, i: Ino, q: Ino, m: string)
    requires Inv(v) && CanRename(v.dirs, i, q, m) && Monitored(v.dirs, i) && Monitored(v.dirs, q)
    requires Clear(v, i, q, m)
    ensures Inv(AfterRewrite(v, i, q, m))
  {
    var v' := AfterRewrite(v, i, q, m);
    RenameTree(v.dirs, i, q, m);
    SameRoots(v.dirs, v'.dirs);
    forall x | x in v'.watches ensures WatchOk(v', x) {
      assert WatchOk(v, x);
      RenameInsideEntry(v, i, q, m, x);
    }
    forall w | w in v'.cached ensures CachedOk(v', w) { RewriteCachedOk(v, i, q, m, w); }
    forall k | 0 <= k < |v'.queue| ensures EventOk(v', k) {
      assert EventOk(v, k);
      SameDoomed(v, v', v.queue[k].wd, k);
    }
    forall d | d in v'.dirs && Monitored(v'.dirs, d) ensures Covered(v', d) {
      RenameInsideEntry(v, i, q, m, d);
      RewriteCovered(v, i, q, m, d);
    }
    forall x | x in v'.listing ensures JobOk(v', x) { RewriteJobOk(v, i, q, m, x); }
  }
}
