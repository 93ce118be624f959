/** What inotify_dtree.c does with one event: processNextInotifyEvent(). */
module EventHandler {
  import opened Options
  import opened PathNames
  import opened WatchCache

  /** The bits of an event mask that the program looks at. */
  datatype Flag = IsDir | Create | DeleteSelf | MoveSelf | MovedFrom | MovedTo | Ignored | Overflow | Unmount

  datatype Event = Event(wd: int, flags: set<Flag>, cookie: nat, name: string)

  /** How many events were used up, or what the caller must do instead: read more
      events, rebuild the cache from scratch and drop the buffer, or leave. */
  datatype Verdict = Consumed(events: nat) | Deferred | Rebuild | Quit

  /** `scan` is a path to watch recursively; `removed` the descriptors taken off the
      watch list. */
  datatype Outcome = Outcome(verdict: Verdict, slots: seq<Slot>, roots: set<string>, scan: Option<string>,
                             removed: seq<int>)

  const DISCARD := Outcome(Rebuild, [], {}, None, [])

  predicate AllLive(wds: seq<int>, live: set<int>) {
    forall w :: w in wds ==> w in live
  }

  /** The rename() pair test: the next event in the buffer is the matching "moved to". */
  predicate Pairs(ev: Event, next: Option<Event>) {
    next.Some? && MovedTo in next.value.flags && next.value.cookie == ev.cookie
  }

  predicate IsMovedFrom(ev: Event) {
    MovedFrom in ev.flags && IsDir in ev.flags
  }

  function ZapOutcome(slots: seq<Slot>, roots: set<string>, path: string, live: set<int>): Outcome {
    if AllLive(ZappedWds(slots, path), live) then
      Outcome(Consumed(1), Zap(slots, path), roots, None, ZappedWds(slots, path))
    else DISCARD.(roots := roots)
  }

  /** The effect of `ev`, when `next` is what follows it in the buffer and `live` are
      the descriptors that inotify_rm_watch() accepts. */
  function Handle(slots: seq<Slot>, roots: set<string>, ev: Event, next: Option<Event>, firstTry: bool,
                  live: set<int>): Outcome
  {
    var same := Outcome(Consumed(1), slots, roots, None, []);
    if ev.wd == -1 || Ignored in ev.flags then
      if Overflow in ev.flags then DISCARD.(roots := roots) else same
    else
      var j := FindWatch(slots, ev.wd);
      if j == -1 then DISCARD.(roots := roots)
      else
        var path := slots[j].path;
        var full := Join(path, ev.name);
        if IsDir in ev.flags && (Create in ev.flags || MovedTo in ev.flags) then
          if PathCached(slots, full) then same else same.(scan := Some(full))
        else if DeleteSelf in ev.flags then
          if path in roots && roots == {path} then same.(verdict := Quit, roots := {})
          else same.(slots := slots[j := UNUSED], roots := roots - {path})
        else if IsMovedFrom(ev) then
          if Pairs(ev, next) then
            var k := FindWatch(slots, next.value.wd);
            if k == -1 then DISCARD.(roots := roots)
            else same.(verdict := Consumed(2),
                            slots := Rewrite(slots, full, Join(slots[k].path, next.value.name)))
          else if next.Some? || !firstTry then
            ZapOutcome(slots, roots, full, live)
          else
            same.(verdict := Deferred)
        else if Overflow in ev.flags then DISCARD.(roots := roots)
        else if Unmount in ev.flags then same.(slots := slots[j := UNUSED])
        else if MoveSelf in ev.flags && path in roots then
          if roots == {path} then same.(verdict := Quit, roots := {})
          else ZapOutcome(slots, roots - {path}, path, live)
        else same
  }

  // ----- the verdict -----

  predicate NewDirectory(ev: Event) {
    IsDir in ev.flags && (Create in ev.flags || MovedTo in ev.flags)
  }

  /** A directory's "moved from" event, as the handler recognises it after its earlier
      branches: the one kind of event that may have to wait for another. */
  predicate Waits(ev: Event) {
    && ev.wd != -1 && Ignored !in ev.flags
    && IsMovedFrom(ev) && !NewDirectory(ev) && DeleteSelf !in ev.flags
  }

  predicate Matches(ev: Event, next: Event) {
    MovedTo in next.flags && next.cookie == ev.cookie
  }

  /** The first two events in view are a rename() pair. */
  predicate Paired(es: seq<Event>) {
    |es| > 1 && Waits(es[0]) && Matches(es[0], es[1])
  }

  /** The outcome for the first of the events in view. */
  function HandleFirst(slots: seq<Slot>, roots: set<string>, es: seq<Event>, firstTry: bool, live: set<int>): Outcome
    requires es != []
  {
    Handle(slots, roots, es[0], if |es| > 1 then Some(es[1]) else None, firstTry, live)
  }

  /** Every watch below the path is still there to be removed. */
  predicate CanZap(slots: seq<Slot>, path: string, live: set<int>) {
    AllLive(ZappedWds(slots, path), live)
  }

  /** The cache, or the queue, is beyond repair: the queue overflowed, a descriptor is
      not cached, or a watch of a subtree to be zapped has gone. */
  predicate Beyond(slots: seq<Slot>, roots: set<string>, es: seq<Event>, firstTry: bool, live: set<int>)
    requires es != []
  {
    var ev := es[0];
    if ev.wd == -1 || Ignored in ev.flags then Overflow in ev.flags
    else
      var j := FindWatch(slots, ev.wd);
      if j == -1 then true
      else if NewDirectory(ev) || DeleteSelf in ev.flags then false
      else if Paired(es) then FindWatch(slots, es[1].wd) == -1
      else if Waits(ev) then (|es| > 1 || !firstTry) && !CanZap(slots, Join(slots[j].path, ev.name), live)
      else
        || Overflow in ev.flags
        || (RootMoves(slots[j].path, roots, ev) && roots != {slots[j].path} && !CanZap(slots, slots[j].path, live))
  }

  predicate RootMoves(path: string, roots: set<string>, ev: Event) {
    Unmount !in ev.flags && MoveSelf in ev.flags && path in roots
  }

  /** The last root goes: it is removed, or moved away. */
  predicate LastRootGoes(slots: seq<Slot>, roots: set<string>, ev: Event) {
    && ev.wd != -1 && Ignored !in ev.flags && !NewDirectory(ev)
    && FindWatch(slots, ev.wd) >= 0
    && roots == {slots[FindWatch(slots, ev.wd)].path}
    && (DeleteSelf in ev.flags || (!Waits(ev) && {Overflow, Unmount} !! ev.flags && MoveSelf in ev.flags))
  }

  /** What the handler does with the events in view unless it gives up on the cache or
      leaves: it asks for more, takes a pair, or takes one. */
  function Expected(es: seq<Event>, firstTry: bool): Verdict
    requires es != []
  {
    if Paired(es) then Consumed(2)
    else if Waits(es[0]) && |es| == 1 && firstTry then Deferred
    else Consumed(1)
  }

  /** Exactly when it gives up, and exactly when it leaves. */
  lemma HandlerVerdict(slots: seq<Slot>, roots: set<string>, es: seq<Event>, firstTry: bool, live: set<int>)
    requires es != []
    ensures HandleFirst(slots, roots, es, firstTry, live).verdict
         == if Beyond(slots, roots, es, firstTry, live) then Rebuild
            else if LastRootGoes(slots, roots, es[0]) then Quit
            else Expected(es, firstTry)
  {
  }

  /** The events that are handled together. */
  function Unit(es: seq<Event>): seq<Event>
    requires es != []
  {
    if Paired(es) then es[..2] else es[..1]
  }

  /** Unless the event is put off, what is in view beyond the event or the pair makes no
      difference, nor does the number of tries. */
  lemma ViewIrrelevant(slots: seq<Slot>, roots: set<string>, es: seq<Event>, firstTry: bool, live: set<int>)
    requires es != []
    ensures var o := HandleFirst(slots, roots, es, firstTry, live);
            o.verdict != Deferred ==> o == HandleFirst(slots, roots, Unit(es), false, live)
  {
  }

  /** No descriptor is ever cached twice. */
  lemma HandleKeepsValid(slots: seq<Slot>, roots: set<string>, ev: Event, next: Option<Event>, firstTry: bool,
                         live: set<int>)
    requires Valid(slots)
    ensures Valid(Handle(slots, roots, ev, next, firstTry, live).slots)
  {
    var j := FindWatch(slots, ev.wd);
    if ev.wd != -1 && j >= 0 {
      var path, full := slots[j].path, Join(slots[j].path, ev.name);
      ZapContents(slots, full);
      ZapContents(slots, path);
      BlankedValid(slots, slots[j := UNUSED]);
      if next.Some? && FindWatch(slots, next.value.wd) >= 0 {
        RewriteValid(slots, full, Join(slots[FindWatch(slots, next.value.wd)].path, next.value.name));
      }
    }
  }

  // ----- the effect -----

  /** The event speaks of this cached directory. */
  predicate About(slots: seq<Slot>, ev: Event, path: string) {
    && ev.wd != -1 && Ignored !in ev.flags
    && exists j :: 0 <= j < |slots| && slots[j] == Slot(ev.wd, path)
  }

  /** The roots that the event says are gone: the directory itself was removed, or moved. */
  function RootsGone(slots: seq<Slot>, roots: set<string>, ev: Event): set<string> {
    set path | path in roots && About(slots, ev, path) && !NewDirectory(ev) &&
               (DeleteSelf in ev.flags || (!Waits(ev) && {Overflow, Unmount} !! ev.flags && MoveSelf in ev.flags))
  }

  /** The cached descriptor stands for nothing any more: its directory was removed or
      unmounted, moved out of the trees with all below it, or lies below a root that moved. */
  ghost predicate Dropped(slots: seq<Slot>, roots: set<string>, es: seq<Event>, wd: int, path: string)
    requires es != []
  {
    var ev := es[0];
    && ev.wd != -1 && Ignored !in ev.flags && !NewDirectory(ev)
    && (|| (wd == ev.wd && (DeleteSelf in ev.flags || (!Waits(ev) && Overflow !in ev.flags && Unmount in ev.flags)))
        || (Waits(ev) && !Paired(es) && exists at :: About(slots, ev, at) && Covers(Join(at, ev.name), path))
        || (DeleteSelf !in ev.flags && exists root :: root in RootsGone(slots, roots, ev) && Covers(root, path)))
  }

  /** The path under which a descriptor is cached afterwards. */
  function PathAfter(slots: seq<Slot>, es: seq<Event>, path: string): string
    requires es != []
  {
    if Paired(es) && FindWatch(slots, es[0].wd) >= 0 && FindWatch(slots, es[1].wd) >= 0 then
      Rewritten(path, Join(slots[FindWatch(slots, es[0].wd)].path, es[0].name),
                Join(slots[FindWatch(slots, es[1].wd)].path, es[1].name))
    else path
  }

  lemma {:induction false} AboutFound(slots: seq<Slot>, ev: Event, path: string)
    requires Valid(slots) && ev.wd >= 0
    ensures About(slots, ev, path) <==> Ignored !in ev.flags && FindWatch(slots, ev.wd) >= 0
                                        && slots[FindWatch(slots, ev.wd)].path == path
  {
  }

  /** Exactly the roots that were removed or moved away are given up, also when the cache is
      rebuilt. */
  lemma {:induction false} RootsAfter(slots: seq<Slot>, roots: set<string>, es: seq<Event>, firstTry: bool,
                                      live: set<int>)
    requires es != [] && Valid(slots)
    ensures HandleFirst(slots, roots, es, firstTry, live).roots == roots - RootsGone(slots, roots, es[0])
  {
    var ev, gone := es[0], RootsGone(slots, roots, es[0]);
    if ev.wd >= 0 && FindWatch(slots, ev.wd) >= 0 {
      var path := slots[FindWatch(slots, ev.wd)].path;
      forall x ensures About(slots, ev, x) <==> Ignored !in ev.flags && x == path { AboutFound(slots, ev, x); }
      assert gone <= {path};
      assert path in gone ==> gone == {path};
    } else {
      assert gone == {};
    }
  }

  /** What is left of the contents when some descriptors are dropped. */
  ghost function Kept(slots: seq<Slot>, roots: set<string>, es: seq<Event>): map<int, string>
    requires es != []
  {
    map w | w in Contents(slots) && !Dropped(slots, roots, es, w, Contents(slots)[w])
          :: PathAfter(slots, es, Contents(slots)[w])
  }

  lemma {:induction false} ZappedIsKept(slots: seq<Slot>, roots: set<string>, es: seq<Event>, path: string)
    requires es != [] && Valid(slots) && !Paired(es)
    requires forall w :: w in Contents(slots) ==>
               (Dropped(slots, roots, es, w, Contents(slots)[w]) <==> Covers(path, Contents(slots)[w]))
    ensures Contents(Zap(slots, path)) == Kept(slots, roots, es)
  {
    ZapContents(slots, path);
    var gone := set w | w in ZappedWds(slots, path);
    forall w | w in Contents(slots) ensures w in gone <==> Dropped(slots, roots, es, w, Contents(slots)[w]) {
      ZappedIffCovered(slots, path, w);
    }
    assert Contents(slots) - gone == Kept(slots, roots, es);
  }

  lemma {:induction false} ClearedIsKept(slots: seq<Slot>, roots: set<string>, es: seq<Event>, j: nat)
    requires es != [] && Valid(slots) && !Paired(es) && j < |slots| && slots[j].wd >= 0
    requires forall w :: w in Contents(slots) ==>
               (Dropped(slots, roots, es, w, Contents(slots)[w]) <==> w == slots[j].wd)
    ensures Contents(slots[j := UNUSED]) == Kept(slots, roots, es)
  {
    ClearContents(slots, j);
    assert Contents(slots) - {slots[j].wd} == Kept(slots, roots, es);
  }

  lemma {:induction false} RewrittenIsKept(slots: seq<Slot>, roots: set<string>, es: seq<Event>, j: nat, k: nat)
    requires es != [] && Valid(slots) && Paired(es) && j < |slots| && k < |slots|
    requires FindWatch(slots, es[0].wd) == j && FindWatch(slots, es[1].wd) == k
    requires forall w :: w in Contents(slots) ==> !Dropped(slots, roots, es, w, Contents(slots)[w])
    ensures Contents(Rewrite(slots, Join(slots[j].path, es[0].name), Join(slots[k].path, es[1].name)))
         == Kept(slots, roots, es)
  {
    RewriteContents(slots, Join(slots[j].path, es[0].name), Join(slots[k].path, es[1].name));
  }

  lemma {:induction false} AllIsKept(slots: seq<Slot>, roots: set<string>, es: seq<Event>)
    requires es != [] && Valid(slots) && !Paired(es)
    requires forall w :: w in Contents(slots) ==> !Dropped(slots, roots, es, w, Contents(slots)[w])
    ensures Contents(slots) == Kept(slots, roots, es)
  {
  }

  /** The event is about the j-th slot. */
  ghost predicate Known(slots: seq<Slot>, ev: Event, j: int) {
    && Valid(slots) && 0 <= j < |slots| && FindWatch(slots, ev.wd) == j
    && ev.wd >= 0 && Ignored !in ev.flags
    && forall x :: About(slots, ev, x) <==> x == slots[j].path
  }

  /** Dropped, by the branches of the handler. */
  predicate DroppedBy(path: string, roots: set<string>, es: seq<Event>, w: int, p: string)
    requires es != []
  {
    var ev := es[0];
    if NewDirectory(ev) then false
    else if DeleteSelf in ev.flags then w == ev.wd
    else if Waits(ev) then !Paired(es) && Covers(Join(path, ev.name), p)
    else if Overflow in ev.flags then false
    else if Unmount in ev.flags then w == ev.wd
    else MoveSelf in ev.flags && path in roots && Covers(path, p)
  }

  lemma {:induction false} WhatIsDropped(slots: seq<Slot>, roots: set<string>, es: seq<Event>, j: int, w: int,
                                         p: string)
    requires es != [] && Known(slots, es[0], j)
    ensures Dropped(slots, roots, es, w, p) <==> DroppedBy(slots[j].path, roots, es, w, p)
  {
    var ev, path := es[0], slots[j].path;
    assert About(slots, ev, path);
    if MoveSelf in ev.flags && path in roots && Covers(path, p) && !NewDirectory(ev) && DeleteSelf !in ev.flags {
      assert !Waits(ev) && {Overflow, Unmount} !! ev.flags ==> path in RootsGone(slots, roots, ev);
    }
  }

  /** What an outcome makes of the contents. */
  ghost predicate KeepsRightly(slots: seq<Slot>, roots: set<string>, es: seq<Event>, o: Outcome)
    requires es != []
  {
    match o.verdict
    case Consumed(_) => Contents(o.slots) == Kept(slots, roots, es)
    case Rebuild => o.slots == []
    case _ => o.slots == slots
  }

  /** The slots after an event that is used up. */
  function SlotsAfter(slots: seq<Slot>, roots: set<string>, es: seq<Event>, j: nat): seq<Slot>
    requires es != [] && j < |slots|
  {
    var ev, path := es[0], slots[j].path;
    if NewDirectory(ev) then slots
    else if DeleteSelf in ev.flags then slots[j := UNUSED]
    else if Paired(es) then
      var k := FindWatch(slots, es[1].wd);
      if k >= 0 then Rewrite(slots, Join(path, ev.name), Join(slots[k].path, es[1].name)) else []
    else if Waits(ev) then Zap(slots, Join(path, ev.name))
    else if Overflow in ev.flags then slots
    else if Unmount in ev.flags then slots[j := UNUSED]
    else if MoveSelf in ev.flags && path in roots then Zap(slots, path)
    else slots
  }

  lemma {:induction false} SlotsOf(slots: seq<Slot>, roots: set<string>, es: seq<Event>, firstTry: bool,
                                   live: set<int>, j: nat)
    requires es != [] && j < |slots| && FindWatch(slots, es[0].wd) == j && es[0].wd != -1 && Ignored !in es[0].flags
    ensures var o := HandleFirst(slots, roots, es, firstTry, live);
            match o.verdict
            case Consumed(_) =>
              o.slots == SlotsAfter(slots, roots, es, j) && (Paired(es) ==> FindWatch(slots, es[1].wd) >= 0)
            case Rebuild => o.slots == []
            case _ => o.slots == slots
  {
  }

  lemma {:induction false} SlotsAreKept(slots: seq<Slot>, roots: set<string>, es: seq<Event>, j: nat)
    requires es != [] && Known(slots, es[0], j) && (Paired(es) ==> FindWatch(slots, es[1].wd) >= 0)
    ensures Contents(SlotsAfter(slots, roots, es, j)) == Kept(slots, roots, es)
  {
    var ev, path := es[0], slots[j].path;
    forall w, p ensures Dropped(slots, roots, es, w, p) <==> DroppedBy(path, roots, es, w, p) {
      WhatIsDropped(slots, roots, es, j, w, p);
    }
    if NewDirectory(ev) {
      AllIsKept(slots, roots, es);
    } else if DeleteSelf in ev.flags {
      ClearedIsKept(slots, roots, es, j);
    } else if Paired(es) {
      RewrittenIsKept(slots, roots, es, j, FindWatch(slots, es[1].wd));
    } else if Waits(ev) {
      ZappedIsKept(slots, roots, es, Join(path, ev.name));
    } else if Overflow in ev.flags {
      AllIsKept(slots, roots, es);
    } else if Unmount in ev.flags {
      ClearedIsKept(slots, roots, es, j);
    } else if MoveSelf in ev.flags && path in roots {
      ZappedIsKept(slots, roots, es, path);
    } else {
      AllIsKept(slots, roots, es);
    }
  }

  /** An event that is used up drops exactly the descriptors that stand for nothing any more,
      and moves exactly the paths that a rename moved; a rebuild begins from an empty cache,
      and an event that is put off, or is the last, changes nothing. */
  lemma {:induction false} ContentsAfter(slots: seq<Slot>, roots: set<string>, es: seq<Event>, firstTry: bool,
                                         live: set<int>)
    requires es != [] && Valid(slots)
    ensures KeepsRightly(slots, roots, es, HandleFirst(slots, roots, es, firstTry, live))
  {
    var ev, j := es[0], FindWatch(slots, es[0].wd);
    if ev.wd == -1 || Ignored in ev.flags {
      AllIsKept(slots, roots, es);
    } else if j >= 0 {
      forall x ensures About(slots, ev, x) <==> x == slots[j].path { AboutFound(slots, ev, x); }
      SlotsOf(slots, roots, es, firstTry, live, j);
      if HandleFirst(slots, roots, es, firstTry, live).verdict.Consumed? { SlotsAreKept(slots, roots, es, j); }
    }
  }

  /** The kernel is asked to remove exactly the watches of directories that have moved out of
      sight, and a scan is asked for exactly for a new directory that is not cached yet. */
  lemma {:induction false} AsksAfter(slots: seq<Slot>, roots: set<string>, es: seq<Event>, firstTry: bool,
                                     live: set<int>)
    requires es != [] && Valid(slots) && HandleFirst(slots, roots, es, firstTry, live).verdict.Consumed?
    ensures var ev, o := es[0], HandleFirst(slots, roots, es, firstTry, live);
            && (forall w :: w in o.removed <==>
                  && w in Contents(slots) && Dropped(slots, roots, es, w, Contents(slots)[w])
                  && (Waits(ev) || {DeleteSelf, Unmount} !! ev.flags))
            && (forall full :: o.scan == Some(full) <==> NewIn(slots, ev, full) && !PathCached(slots, full))
  {
    var ev, o, j := es[0], HandleFirst(slots, roots, es, firstTry, live), FindWatch(slots, es[0].wd);
    if ev.wd != -1 && Ignored !in ev.flags {
      forall x ensures About(slots, ev, x) <==> x == slots[j].path { AboutFound(slots, ev, x); }
      forall w ensures w in o.removed <==>
          && w in Contents(slots) && Dropped(slots, roots, es, w, Contents(slots)[w])
          && (Waits(ev) || {DeleteSelf, Unmount} !! ev.flags)
      {
        RemovedIs(slots, roots, es, firstTry, live, j, w);
      }
    }
  }

  /** The event says that this directory has appeared below a cached one. */
  ghost predicate NewIn(slots: seq<Slot>, ev: Event, full: string) {
    NewDirectory(ev) && exists at :: About(slots, ev, at) && full == Join(at, ev.name)
  }

  lemma {:induction false} RemovedIs(slots: seq<Slot>, roots: set<string>, es: seq<Event>, firstTry: bool,
                                     live: set<int>, j: nat, w: int)
    requires es != [] && Known(slots, es[0], j) && HandleFirst(slots, roots, es, firstTry, live).verdict.Consumed?
    ensures w in HandleFirst(slots, roots, es, firstTry, live).removed <==>
              && w in Contents(slots) && Dropped(slots, roots, es, w, Contents(slots)[w])
              && (Waits(es[0]) || {DeleteSelf, Unmount} !! es[0].flags)
  {
    var ev, path := es[0], slots[j].path;
    RemovedAre(slots, roots, es, firstTry, live, j);
    if w in Contents(slots) { WhatIsDropped(slots, roots, es, j, w, Contents(slots)[w]); }
    if Waits(ev) {
      ZappedIffCovered(slots, Join(path, ev.name), w);
    } else {
      ZappedIffCovered(slots, path, w);
    }
  }

  lemma {:induction false} RemovedAre(slots: seq<Slot>, roots: set<string>, es: seq<Event>, firstTry: bool,
                                      live: set<int>, j: nat)
    requires es != [] && Known(slots, es[0], j) && HandleFirst(slots, roots, es, firstTry, live).verdict.Consumed?
    ensures var ev, path := es[0], slots[j].path;
            HandleFirst(slots, roots, es, firstTry, live).removed ==
              if Waits(ev) then (if Paired(es) then [] else ZappedWds(slots, Join(path, ev.name)))
              else if !NewDirectory(ev) && {DeleteSelf, Overflow, Unmount} !! ev.flags && RootMoves(path, roots, ev)
              then ZappedWds(slots, path)
              else []
  {
  }

  // ----- on the cache object -----

  /** The same step on the cache object, with its searching and rewriting loops. After a
      Rebuild verdict the cache has been freed. */
  method ProcessNextEvent(cache: Cache, roots: set<string>, ev: Event, next: Option<Event>, firstTry: bool,
                          live: set<int>) returns (o: Outcome)
    modifies cache
    ensures o == Handle(old(cache.slots), roots, ev, next, firstTry, live)
    ensures cache.slots == o.slots
  {
    var scan: Option<string> := None;
    var discard := DISCARD.(roots := roots);
    if ev.wd == -1 || Ignored in ev.flags {
      if Overflow in ev.flags {
        cache.slots := [];
        return discard;
      }
      return Outcome(Consumed(1), cache.slots, roots, None, []);
    }
    var j := cache.FindSlot(ev.wd);
    if j == -1 {
      cache.slots := [];
      return discard;
    }
    var path := cache.slots[j].path;
    var full := Join(path, ev.name);
    if IsDir in ev.flags && (Create in ev.flags || MovedTo in ev.flags) {
      var k := cache.PathnameToSlot(full);
      o := Outcome(Consumed(1), cache.slots, roots, if k < 0 then Some(full) else None, []);
    } else if DeleteSelf in ev.flags {
      if path in roots && roots == {path} {
        return Outcome(Quit, cache.slots, {}, None, []);
      }
      cache.MarkEmpty(j);
      o := Outcome(Consumed(1), cache.slots, roots - {path}, None, []);
    } else if IsMovedFrom(ev) {
      if Pairs(ev, next) {
        var k := cache.FindSlot(next.value.wd);
        if k == -1 {
          cache.slots := [];
          return discard;
        }
        cache.RewriteCachedPaths(path, ev.name, cache.slots[k].path, next.value.name);
        o := Outcome(Consumed(2), cache.slots, roots, None, []);
      } else if next.Some? || !firstTry {
        o := ZapOrRebuild(cache, roots, full, live);
      } else {
        o := Outcome(Deferred, cache.slots, roots, None, []);
      }
    } else if Overflow in ev.flags {
      cache.slots := [];
      o := discard;
    } else if Unmount in ev.flags {
      cache.MarkEmpty(j);
      o := Outcome(Consumed(1), cache.slots, roots, None, []);
    } else if MoveSelf in ev.flags && path in roots {
      if roots == {path} {
        return Outcome(Quit, cache.slots, {}, None, []);
      }
      o := ZapOrRebuild(cache, roots - {path}, path, live);
    } else {
      o := Outcome(Consumed(1), cache.slots, roots, None, []);
    }
  }

  method ZapOrRebuild(cache: Cache, roots: set<string>, path: string, live: set<int>) returns (o: Outcome)
    modifies cache
    ensures o == ZapOutcome(old(cache.slots), roots, path, live)
    ensures cache.slots == o.slots
  {
    var cnt, removed := cache.ZapSubtree(path, live);
    if cnt == -1 {
      cache.slots := [];
      o := DISCARD.(roots := roots);
    } else {
      o := Outcome(Consumed(1), cache.slots, roots, None, removed);
    }
  }
}
