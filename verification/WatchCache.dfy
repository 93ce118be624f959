/** The watch list cache of inotify_dtree.c: an array of (watch descriptor, path)
    slots that is searched linearly and grows by 200 slots at a time. */
module WatchCache {
  import opened PathNames

  const ALLOC_INCR := 200

  /** wd is -1 if the slot is unused. */
  datatype Slot = Slot(wd: int, path: string)

  const UNUSED := Slot(-1, "")

  /** Unused slots are blank, and no descriptor is cached twice. */
  predicate Valid(slots: seq<Slot>) {
    && (forall j :: 0 <= j < |slots| ==> slots[j].wd >= 0 || slots[j] == UNUSED)
    && (forall i, j :: 0 <= i < j < |slots| && slots[i].wd >= 0 ==> slots[i].wd != slots[j].wd)
  }

  /** What the cache stands for: the path of each cached descriptor. */
  ghost function Contents(slots: seq<Slot>): map<int, string> {
    map w | w in CachedWds(slots) :: PathAt(slots, w)
  }

  function CachedWds(slots: seq<Slot>): set<int> {
    set j | 0 <= j < |slots| && slots[j].wd >= 0 :: slots[j].wd
  }

  function PathAt(slots: seq<Slot>, wd: int): string {
    var j := FindWatch(slots, wd);
    if j >= 0 then slots[j].path else ""
  }

  // ----- the operations as functions -----

  /** The first slot with this descriptor (or, for -1, the first unused one), or -1. */
  function FindWatch(slots: seq<Slot>, wd: int): (j: int)
    ensures -1 <= j < |slots|
    ensures j >= 0 ==> slots[j].wd == wd
    ensures j == -1 ==> forall i :: 0 <= i < |slots| ==> slots[i].wd != wd
    ensures forall i :: 0 <= i < j ==> slots[i].wd != wd
  {
    if slots == [] then -1
    else
      var n := |slots| - 1;
      var j := FindWatch(slots[..n], wd);
      if j >= 0 then j else if slots[n].wd == wd then n else -1
  }

  predicate PathCached(slots: seq<Slot>, path: string) {
    exists j :: 0 <= j < |slots| && slots[j].wd >= 0 && slots[j].path == path
  }

  function Grown(slots: seq<Slot>): seq<Slot> {
    slots + seq(ALLOC_INCR, _ => UNUSED)
  }

  function AddWatch(slots: seq<Slot>, wd: int, path: string): seq<Slot> {
    var j := FindWatch(slots, -1);
    if j >= 0 then slots[j := Slot(wd, path)] else Grown(slots)[|slots| := Slot(wd, path)]
  }

  function RewriteSlot(s: Slot, from: string, to: string): Slot {
    if Covers(from, s.path) then s.(path := Rebase(s.path, from, to)) else s
  }

  function Rewrite(slots: seq<Slot>, from: string, to: string): seq<Slot> {
    seq(|slots|, j requires 0 <= j < |slots| => RewriteSlot(slots[j], from, to))
  }

  predicate Zapped(s: Slot, path: string) {
    s.wd >= 0 && Covers(path, s.path)
  }

  function Zap(slots: seq<Slot>, path: string): seq<Slot> {
    seq(|slots|, j requires 0 <= j < |slots| => if Zapped(slots[j], path) then UNUSED else slots[j])
  }

  /** The descriptors of the zapped slots, in order. */
  function ZappedWds(slots: seq<Slot>, path: string): seq<int> {
    if slots == [] then []
    else
      var n := |slots| - 1;
      ZappedWds(slots[..n], path) + if Zapped(slots[n], path) then [slots[n].wd] else []
  }

  // ----- what they do to the contents -----

  lemma FoundInContents(slots: seq<Slot>, wd: int)
    requires Valid(slots) && wd >= 0
    ensures var j := FindWatch(slots, wd);
            if j >= 0 then wd in Contents(slots) && Contents(slots)[wd] == slots[j].path
            else wd !in Contents(slots)
  {
  }

  lemma PathCachedIff(slots: seq<Slot>, path: string)
    requires Valid(slots)
    ensures PathCached(slots, path) <==> exists w :: w in Contents(slots) && Contents(slots)[w] == path
  {
    if PathCached(slots, path) {
      var j :| 0 <= j < |slots| && slots[j].wd >= 0 && slots[j].path == path;
      assert slots[j].wd in Contents(slots);
    }
  }

  /** The slot of a cached descriptor. */
  ghost function SlotOf(slots: seq<Slot>, w: int): (j: int)
    requires Valid(slots) && w in Contents(slots)
    ensures 0 <= j < |slots| && slots[j] == Slot(w, Contents(slots)[w]) && w >= 0
  {
    FindWatch(slots, w)
  }

  /** A map is the contents if each of its entries is in a slot and every used slot's
      descriptor is in the map. */
  lemma ContentsAre(slots: seq<Slot>, m: map<int, string>)
    requires Valid(slots)
    requires forall j :: 0 <= j < |slots| && slots[j].wd >= 0 ==> slots[j].wd in m
    requires forall w :: w in m ==> w in Contents(slots) && Contents(slots)[w] == m[w]
    ensures Contents(slots) == m
  {
    forall w | w in Contents(slots) ensures w in m {
      var j := SlotOf(slots, w);
    }
    assert forall w :: w in Contents(slots) <==> w in m;
  }

  lemma InSlot(slots: seq<Slot>, j: int)
    requires Valid(slots) && 0 <= j < |slots| && slots[j].wd >= 0
    ensures slots[j].wd in Contents(slots) && Contents(slots)[slots[j].wd] == slots[j].path
  {
  }

  lemma ReplaceValid(slots: seq<Slot>, j: int, wd: int, path: string)
    requires Valid(slots) && 0 <= j < |slots| && slots[j].wd < 0
    requires wd >= 0 && wd !in Contents(slots)
    ensures Valid(slots[j := Slot(wd, path)])
  {
    forall i | 0 <= i < |slots| && slots[i].wd >= 0 ensures slots[i].wd != wd {
      InSlot(slots, i);
    }
  }

  lemma ReplaceFree(slots: seq<Slot>, j: int, wd: int, path: string)
    requires Valid(slots) && 0 <= j < |slots| && slots[j].wd < 0
    requires wd >= 0 && wd !in Contents(slots)
    ensures Valid(slots[j := Slot(wd, path)])
    ensures Contents(slots[j := Slot(wd, path)]) == Contents(slots)[wd := path]
  {
    var r := slots[j := Slot(wd, path)];
    var m := Contents(slots)[wd := path];
    ReplaceValid(slots, j, wd, path);
    forall w | w in m ensures w in Contents(r) && Contents(r)[w] == m[w] {
      InSlot(r, if w == wd then j else SlotOf(slots, w));
    }
    forall i | 0 <= i < |r| && r[i].wd >= 0 ensures r[i].wd in m {
      if i != j { InSlot(slots, i); }
    }
    ContentsAre(r, m);
  }

  /** `r` is `slots`, possibly longer, with some slots blanked. */
  predicate Blanked(slots: seq<Slot>, r: seq<Slot>) {
    && |slots| <= |r|
    && (forall j :: 0 <= j < |slots| ==> r[j] == slots[j] || r[j] == UNUSED)
    && (forall j :: |slots| <= j < |r| ==> r[j] == UNUSED)
  }

  lemma BlankedValid(slots: seq<Slot>, r: seq<Slot>)
    requires Valid(slots) && Blanked(slots, r)
    ensures Valid(r)
  {
    forall i, j | 0 <= i < j < |r| && r[i].wd >= 0 ensures r[i].wd != r[j].wd {
      assert r[i] == slots[i];
    }
  }

  lemma BlankedContents(slots: seq<Slot>, r: seq<Slot>, gone: set<int>)
    requires Valid(slots) && Valid(r) && Blanked(slots, r)
    requires forall j :: 0 <= j < |slots| && slots[j].wd >= 0 ==> (r[j] == UNUSED <==> slots[j].wd in gone)
    ensures Contents(r) == Contents(slots) - gone
  {
    var m := Contents(slots) - gone;
    forall w | w in m ensures w in Contents(r) && Contents(r)[w] == m[w] {
      var j := SlotOf(slots, w);
      assert r[j] == slots[j];
      InSlot(r, j);
    }
    forall i | 0 <= i < |r| && r[i].wd >= 0 ensures r[i].wd in m {
      assert r[i] == slots[i];
      InSlot(slots, i);
    }
    ContentsAre(r, m);
  }

  lemma GrownContents(slots: seq<Slot>)
    requires Valid(slots)
    ensures Valid(Grown(slots)) && Contents(Grown(slots)) == Contents(slots)
  {
    BlankedValid(slots, Grown(slots));
    BlankedContents(slots, Grown(slots), {});
    assert Contents(slots) - {} == Contents(slots);
  }

  /** Adding a new descriptor adds exactly that entry, wherever it is put. */
  lemma AddWatchContents(slots: seq<Slot>, wd: int, path: string)
    requires Valid(slots) && wd >= 0 && wd !in Contents(slots)
    ensures Valid(AddWatch(slots, wd, path))
    ensures Contents(AddWatch(slots, wd, path)) == Contents(slots)[wd := path]
  {
    var j := FindWatch(slots, -1);
    if j >= 0 {
      ReplaceFree(slots, j, wd, path);
    } else {
      GrownContents(slots);
      ReplaceFree(Grown(slots), |slots|, wd, path);
    }
  }

  lemma ClearContents(slots: seq<Slot>, j: int)
    requires Valid(slots) && 0 <= j < |slots| && slots[j].wd >= 0
    ensures Valid(slots[j := UNUSED])
    ensures Contents(slots[j := UNUSED]) == Contents(slots) - {slots[j].wd}
  {
    BlankedValid(slots, slots[j := UNUSED]);
    BlankedContents(slots, slots[j := UNUSED], {slots[j].wd});
  }

  lemma RewriteValid(slots: seq<Slot>, from: string, to: string)
    requires Valid(slots) && from != ""
    ensures Valid(Rewrite(slots, from, to))
  {
    var r := Rewrite(slots, from, to);
    assert forall j :: 0 <= j < |slots| ==> r[j] == RewriteSlot(slots[j], from, to);
    assert forall j :: 0 <= j < |slots| ==> r[j].wd == slots[j].wd;
  }

  /** The new path of a cached directory. */
  function Rewritten(path: string, from: string, to: string): string {
    if Covers(from, path) then Rebase(path, from, to) else path
  }

  /** Rewriting keeps the descriptors, rebases the covered paths and no others. */
  lemma RewriteContents(slots: seq<Slot>, from: string, to: string)
    requires Valid(slots) && from != ""
    ensures Valid(Rewrite(slots, from, to))
    ensures Contents(Rewrite(slots, from, to))
         == map w | w in Contents(slots) :: Rewritten(Contents(slots)[w], from, to)
  {
    var r := Rewrite(slots, from, to);
    var m := map w | w in Contents(slots) :: Rewritten(Contents(slots)[w], from, to);
    RewriteValid(slots, from, to);
    forall w | w in m ensures w in Contents(r) && Contents(r)[w] == m[w] {
      InSlot(r, SlotOf(slots, w));
    }
    forall i | 0 <= i < |r| && r[i].wd >= 0 ensures r[i].wd in m {
      InSlot(slots, i);
    }
    ContentsAre(r, m);
  }

  lemma {:induction false} ZappedSomewhere(slots: seq<Slot>, path: string, w: int)
    ensures w in ZappedWds(slots, path) <==> exists j :: 0 <= j < |slots| && Zapped(slots[j], path) && slots[j].wd == w
    decreases |slots|
  {
    if slots != [] {
      var n := |slots| - 1;
      ZappedSomewhere(slots[..n], path, w);
      if w in ZappedWds(slots[..n], path) {
        var j :| 0 <= j < n && Zapped(slots[..n][j], path) && slots[..n][j].wd == w;
        assert slots[j] == slots[..n][j];
      }
      if j :| 0 <= j < |slots| && Zapped(slots[j], path) && slots[j].wd == w {
        if j < n { assert slots[..n][j] == slots[j]; }
      }
    }
  }

  lemma ZappedIffCovered(slots: seq<Slot>, path: string, w: int)
    requires Valid(slots)
    ensures w in ZappedWds(slots, path) <==> w in Contents(slots) && Covers(path, Contents(slots)[w])
  {
    ZappedSomewhere(slots, path, w);
    if w in ZappedWds(slots, path) {
      var j :| 0 <= j < |slots| && Zapped(slots[j], path) && slots[j].wd == w;
      InSlot(slots, j);
    }
    if w in Contents(slots) && Covers(path, Contents(slots)[w]) {
      var j := SlotOf(slots, w);
      assert Zapped(slots[j], path);
    }
  }

  /** Zapping removes exactly the covered entries. */
  lemma ZapContents(slots: seq<Slot>, path: string)
    requires Valid(slots)
    ensures Valid(Zap(slots, path))
    ensures Contents(Zap(slots, path)) == Contents(slots) - (set w | w in ZappedWds(slots, path))
  {
    var r := Zap(slots, path);
    var gone := set w | w in ZappedWds(slots, path);
    BlankedValid(slots, r);
    forall j | 0 <= j < |slots| && slots[j].wd >= 0 ensures r[j] == UNUSED <==> slots[j].wd in gone {
      InSlot(slots, j);
      ZappedIffCovered(slots, path, slots[j].wd);
    }
    BlankedContents(slots, r, gone);
  }

  // ----- the array that is updated in place -----

  class Cache {
    var slots: seq<Slot>

    constructor ()
      ensures slots == []
    {
      slots := [];
    }

    method FindSlot(wd: int) returns (j: int)
      ensures j == FindWatch(slots, wd)
    {
      j := 0;
      while j < |slots|
        invariant 0 <= j <= |slots|
        invariant forall i :: 0 <= i < j ==> slots[i].wd != wd
      {
        if slots[j].wd == wd { return; }
        j := j + 1;
      }
      j := -1;
    }

    method PathnameToSlot(path: string) returns (j: int)
      ensures j >= 0 ==> j < |slots| && slots[j].wd >= 0 && slots[j].path == path
      ensures j < 0 <==> !PathCached(slots, path)
      ensures forall i :: 0 <= i < j ==> !(slots[i].wd >= 0 && slots[i].path == path)
    {
      j := 0;
      while j < |slots|
        invariant 0 <= j <= |slots|
        invariant forall i :: 0 <= i < j ==> !(slots[i].wd >= 0 && slots[i].path == path)
      {
        if slots[j].wd >= 0 && slots[j].path == path { return; }
        j := j + 1;
      }
      j := -1;
    }

    method MarkEmpty(j: int)
      requires 0 <= j < |slots|
      modifies this
      ensures slots == old(slots)[j := UNUSED]
    {
      slots := slots[j := UNUSED];
    }

    /** Grows the array when no slot is free. */
    method FindEmptySlot() returns (j: int)
      modifies this
      ensures slots == if FindWatch(old(slots), -1) >= 0 then old(slots) else Grown(old(slots))
      ensures j == if FindWatch(old(slots), -1) >= 0 then FindWatch(old(slots), -1) else |old(slots)|
      ensures 0 <= j < |slots|
    {
      j := FindSlot(-1);
      if j < 0 {
        j := |slots|;
        slots := Grown(slots);
      }
    }

    method AddWatchToCache(wd: int, path: string) returns (j: int)
      requires Valid(slots) && wd >= 0 && wd !in Contents(slots)
      modifies this
      ensures slots == AddWatch(old(slots), wd, path) && Valid(slots)
      ensures Contents(slots) == old(Contents(slots))[wd := path]
    {
      AddWatchContents(slots, wd, path);
      j := FindEmptySlot();
      slots := slots[j := Slot(wd, path)];
    }

    /** The callback of the tree walk for one directory: `wd` is the descriptor that
        inotify_add_watch() returned, -1 if the directory has gone. A descriptor that is
        cached already is not cached again. */
    method TraverseTree(wd: int, path: string) returns (added: bool)
      requires Valid(slots) && wd >= -1
      modifies this
      ensures added <==> wd != -1 && wd !in old(Contents(slots))
      ensures slots == if added then AddWatch(old(slots), wd, path) else old(slots)
      ensures Valid(slots)
      ensures Contents(slots) == if added then old(Contents(slots))[wd := path] else old(Contents(slots))
    {
      if wd == -1 { return false; }
      FoundInContents(slots, wd);
      var j := FindSlot(wd);
      if j >= 0 { return false; }
      j := AddWatchToCache(wd, path);
      added := true;
    }

    method RewriteCachedPaths(oldPrefix: string, oldName: string, newPrefix: string, newName: string)
      modifies this
      ensures slots == Rewrite(old(slots), Join(oldPrefix, oldName), Join(newPrefix, newName))
    {
      var fullPath, newFull := Join(oldPrefix, oldName), Join(newPrefix, newName);
      ghost var before := slots;
      var j := 0;
      while j < |slots|
        invariant 0 <= j <= |slots| == |before|
        invariant forall i :: 0 <= i < j ==> slots[i] == RewriteSlot(before[i], fullPath, newFull)
        invariant forall i :: j <= i < |slots| ==> slots[i] == before[i]
      {
        if Covers(fullPath, slots[j].path) {
          slots := slots[j := slots[j].(path := newFull + slots[j].path[|fullPath|..])];
        }
        j := j + 1;
      }
    }

    /** Removes the watches and entries of a subtree; inotify_rm_watch() succeeds for
        the descriptors in `live`. The first failure ends the loop, with count -1. */
    method ZapSubtree(path: string, live: set<int>) returns (cnt: int, removed: seq<int>)
      modifies this
      ensures cnt == -1 <==> exists w :: w in ZappedWds(old(slots), path) && w !in live
      ensures cnt != -1 ==> slots == Zap(old(slots), path) && removed == ZappedWds(old(slots), path) && cnt == |removed|
      ensures cnt == -1 ==> exists j: nat :: FailedAt(old(slots), slots, j, path, removed, live)
    {
      ghost var before := slots;
      cnt, removed := 0, [];
      var j := 0;
      while j < |slots|
        invariant 0 <= j <= |slots|
        invariant ZappedUpTo(before, slots, j, path, removed)
        invariant cnt == |removed| && forall w :: w in removed ==> w in live
      {
        ZapAdvance(before, slots, j, path, removed);
        if slots[j].wd >= 0 && Covers(path, slots[j].path) {
          if slots[j].wd !in live {
            assert FailedAt(before, slots, j, path, removed, live);
            return -1, removed;
          }
          removed := removed + [slots[j].wd];
          slots := slots[j := UNUSED];
          cnt := cnt + 1;
        }
        j := j + 1;
      }
      assert before[..j] == before;
    }
  }

  /** The zapping loop has dealt with the first j slots. */
  ghost predicate ZappedUpTo(before: seq<Slot>, now: seq<Slot>, j: nat, path: string, removed: seq<int>) {
    && j <= |before|
    && now == Zap(before[..j], path) + before[j..]
    && removed == ZappedWds(before[..j], path)
  }

  /** The zapping loop has dealt with the first j slots, and fails at the next. */
  ghost predicate FailedAt(before: seq<Slot>, now: seq<Slot>, j: nat, path: string, removed: seq<int>, live: set<int>) {
    && j < |before|
    && ZappedUpTo(before, now, j, path, removed)
    && (forall w :: w in removed ==> w in live)
    && Zapped(before[j], path) && before[j].wd !in live
  }

  lemma ZapAdvance(before: seq<Slot>, now: seq<Slot>, j: nat, path: string, removed: seq<int>)
    requires j < |before| && ZappedUpTo(before, now, j, path, removed)
    ensures |now| == |before| && now[j] == before[j]
    ensures if Zapped(now[j], path) then
              && now[j].wd in ZappedWds(before, path)
              && ZappedUpTo(before, now[j := UNUSED], j + 1, path, removed + [now[j].wd])
            else
              ZappedUpTo(before, now, j + 1, path, removed)
  {
    var sofar := before[..j + 1];
    assert sofar[..j] == before[..j];
    assert Zap(sofar, path) == Zap(before[..j], path) + [if Zapped(before[j], path) then UNUSED else before[j]];
    assert before[j..] == [before[j]] + before[j + 1..];
    ZappedSomewhere(before, path, before[j].wd);
  }
}
