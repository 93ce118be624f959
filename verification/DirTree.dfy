/** The directory trees under watch: an inode knows its parent and its name there, so
    that a rename changes one entry, and pathnames follow from the entries. */
module DirTree {
  import opened PathNames

  type Ino = nat

  /** A root is a directory named on the command line; Elsewhere is a directory outside
      the monitored trees whose own place does not matter. */
  datatype Entry = Root(path: string) | Elsewhere | Child(parent: Ino, name: string)

  type Dirs = map<Ino, Entry>

  /** A rank that grows from parent to child witnesses that parents never cycle. */
  ghost predicate IsRank(dirs: Dirs, rank: map<Ino, nat>) {
    && dirs.Keys <= rank.Keys
    && (forall i :: i in dirs && dirs[i].Child? ==>
          dirs[i].parent in dirs && rank[dirs[i].parent] < rank[i])
  }

  ghost predicate Acyclic(dirs: Dirs) {
    exists rank: map<Ino, nat> :: IsRank(dirs, rank)
  }

  ghost predicate NamesOk(dirs: Dirs) {
    && (forall i :: i in dirs && dirs[i].Child? ==> IsName(dirs[i].name))
    && (forall i, j :: i in dirs && j in dirs && i != j && dirs[i].Child? ==> dirs[i] != dirs[j])
  }

  /** No monitored tree lies inside another. */
  ghost predicate RootsApart(dirs: Dirs) {
    forall i, j :: i in dirs && j in dirs && dirs[i].Root? && dirs[j].Root? ==>
      Covers(dirs[i].path, dirs[j].path) ==> i == j
  }

  ghost predicate Tree(dirs: Dirs) {
    Acyclic(dirs) && NamesOk(dirs) && RootsApart(dirs)
  }

  ghost function Rank(dirs: Dirs): map<Ino, nat>
    requires Tree(dirs)
    ensures IsRank(dirs, Rank(dirs))
  {
    var rank :| IsRank(dirs, rank); rank
  }

  /** The full pathname; meaningful for monitored directories. */
  ghost function Path(dirs: Dirs, i: Ino): string
    requires Tree(dirs) && i in dirs
    decreases Rank(dirs)[i]
  {
    match dirs[i]
    case Root(path) => path
    case Elsewhere => ""
    case Child(p, n) => Join(Path(dirs, p), n)
  }

  ghost predicate Monitored(dirs: Dirs, i: Ino)
    requires Tree(dirs) && i in dirs
    decreases Rank(dirs)[i]
  {
    match dirs[i]
    case Root(_) => true
    case Elsewhere => false
    case Child(p, _) => Monitored(dirs, p)
  }

  /** `i` is `a` or lies in the subtree of `a`. */
  ghost predicate Below(dirs: Dirs, a: Ino, i: Ino)
    requires Tree(dirs) && i in dirs
    decreases Rank(dirs)[i]
  {
    a == i || (dirs[i].Child? && Below(dirs, a, dirs[i].parent))
  }

  // ----- paths identify directories -----

  lemma {:induction false} TopRoot(dirs: Dirs, i: Ino) returns (t: Ino)
    requires Tree(dirs) && i in dirs && Monitored(dirs, i)
    ensures t in dirs && dirs[t].Root? && Below(dirs, t, i) && Covers(dirs[t].path, Path(dirs, i))
    ensures |dirs[t].path| <= |Path(dirs, i)| && (|dirs[t].path| == |Path(dirs, i)| ==> t == i)
    decreases Rank(dirs)[i]
  {
    if dirs[i].Root? {
      t := i;
    } else {
      var p := dirs[i].parent;
      t := TopRoot(dirs, p);
      CoversJoin(dirs[t].path, Path(dirs, p), dirs[i].name);
    }
  }

  /** A path that covers a root's path, or equals it, is that root's. */
  lemma RootIsItsPath(dirs: Dirs, a: Ino, r: Ino)
    requires Tree(dirs) && a in dirs && r in dirs && Monitored(dirs, a) && dirs[r].Root?
    requires Covers(Path(dirs, a), dirs[r].path)
    ensures a == r
  {
    var t := TopRoot(dirs, a);
    CoversTransitive(dirs[t].path, Path(dirs, a), dirs[r].path);
    assert t == r;
  }

  /** Two monitored directories with the same path are the same directory. */
  lemma {:induction false} PathInjective(dirs: Dirs, a: Ino, i: Ino)
    requires Tree(dirs) && a in dirs && i in dirs && Monitored(dirs, a) && Monitored(dirs, i)
    requires Path(dirs, a) == Path(dirs, i)
    ensures a == i
    decreases Rank(dirs)[i]
  {
    if dirs[i].Root? {
      RootIsItsPath(dirs, a, i);
    } else if dirs[a].Root? {
      RootIsItsPath(dirs, i, a);
    } else {
      JoinInjective(Path(dirs, dirs[a].parent), dirs[a].name, Path(dirs, dirs[i].parent), dirs[i].name);
      PathInjective(dirs, dirs[a].parent, dirs[i].parent);
    }
  }

  /** The string test on pathnames finds exactly the directories of the subtree. */
  lemma {:induction false} CoversIffBelow(dirs: Dirs, a: Ino, i: Ino)
    requires Tree(dirs) && a in dirs && i in dirs && Monitored(dirs, a) && Monitored(dirs, i)
    ensures Covers(Path(dirs, a), Path(dirs, i)) <==> Below(dirs, a, i)
    decreases Rank(dirs)[i]
  {
    if dirs[i].Root? {
      if Covers(Path(dirs, a), Path(dirs, i)) {
        RootIsItsPath(dirs, a, i);
      }
    } else {
      var p := dirs[i].parent;
      CoversJoin(Path(dirs, a), Path(dirs, p), dirs[i].name);
      CoversIffBelow(dirs, a, p);
      if Path(dirs, a) == Path(dirs, i) {
        PathInjective(dirs, a, i);
      }
    }
  }

  // ----- making a directory -----

  /** No entry of directory `p` is called `n`. */
  ghost predicate Vacant(dirs: Dirs, p: Ino, n: string) {
    forall i :: i in dirs ==> dirs[i] != Child(p, n)
  }

  ghost predicate CanMkdir(dirs: Dirs, i: Ino, p: Ino, n: string) {
    i !in dirs && p in dirs && IsName(n) && Vacant(dirs, p, n)
  }

  lemma MkdirTree(dirs: Dirs, i: Ino, p: Ino, n: string)
    requires Tree(dirs) && CanMkdir(dirs, i, p, n)
    ensures Tree(dirs[i := Child(p, n)])
  {
    var rank := Rank(dirs);
    var rank' := rank[i := rank[p] + 1];
    var dirs' := dirs[i := Child(p, n)];
    assert IsRank(dirs', rank');
  }

  /** Nothing else moves. */
  lemma {:induction false} MkdirPaths(dirs: Dirs, i: Ino, p: Ino, n: string, x: Ino)
    requires Tree(dirs) && CanMkdir(dirs, i, p, n) && x in dirs
    requires Tree(dirs[i := Child(p, n)])
    ensures var dirs' := dirs[i := Child(p, n)];
            Path(dirs', x) == Path(dirs, x) && Monitored(dirs', x) == Monitored(dirs, x)
    decreases Rank(dirs)[x]
  {
    if dirs[x].Child? {
      MkdirPaths(dirs, i, p, n, dirs[x].parent);
    }
  }

  // ----- removing an empty directory -----

  ghost predicate CanRmdir(dirs: Dirs, i: Ino) {
    i in dirs && dirs[i].Child? && forall j :: j in dirs && dirs[j].Child? ==> dirs[j].parent != i
  }

  lemma RmdirTree(dirs: Dirs, i: Ino)
    requires Tree(dirs) && CanRmdir(dirs, i)
    ensures Tree(dirs - {i})
  {
    assert IsRank(dirs - {i}, Rank(dirs));
  }

  lemma {:induction false} RmdirPaths(dirs: Dirs, i: Ino, x: Ino)
    requires Tree(dirs) && CanRmdir(dirs, i) && x in dirs && x != i && Tree(dirs - {i})
    ensures Path(dirs - {i}, x) == Path(dirs, x) && Monitored(dirs - {i}, x) == Monitored(dirs, x)
    decreases Rank(dirs)[x]
  {
    if dirs[x].Child? {
      RmdirPaths(dirs, i, dirs[x].parent);
    }
  }

  // ----- renaming -----

  ghost predicate CanRename(dirs: Dirs, i: Ino, q: Ino, m: string)
    requires Tree(dirs)
  {
    i in dirs && dirs[i].Child? && q in dirs && !Below(dirs, i, q) && IsName(m) && Vacant(dirs, q, m)
  }

  /** Nothing lies where there is no entry. */
  lemma {:induction false} NothingBelowVacant(dirs: Dirs, q: Ino, m: string, d: Ino)
    requires Tree(dirs) && q in dirs && Monitored(dirs, q) && IsName(m) && Vacant(dirs, q, m)
    requires d in dirs && Monitored(dirs, d)
    ensures !Covers(Join(Path(dirs, q), m), Path(dirs, d))
    decreases Rank(dirs)[d]
  {
    var target := Join(Path(dirs, q), m);
    if dirs[d].Root? {
      if Covers(target, Path(dirs, d)) {
        CoversJoin(Path(dirs, q), Path(dirs, q), m);
        CoversTransitive(Path(dirs, q), target, Path(dirs, d));
        RootIsItsPath(dirs, q, d);
      }
    } else {
      var p, n := dirs[d].parent, dirs[d].name;
      NothingBelowVacant(dirs, q, m, p);
      CoversJoin(target, Path(dirs, p), n);
      if target == Path(dirs, d) {
        JoinInjective(Path(dirs, q), m, Path(dirs, p), n);
        PathInjective(dirs, q, p);
      }
    }
  }

  lemma RenameTree(dirs: Dirs, i: Ino, q: Ino, m: string)
    requires Tree(dirs) && CanRename(dirs, i, q, m)
    ensures Tree(dirs[i := Child(q, m)])
  {
    var dirs' := dirs[i := Child(q, m)];
    var rank := Rank(dirs);
    var rank' := map x | x in dirs :: if Below(dirs, i, x) then rank[x] + rank[q] + 1 else rank[x];
    forall x | x in dirs' && dirs'[x].Child?
      ensures dirs'[x].parent in dirs' && rank'[dirs'[x].parent] < rank'[x]
    {
      if x != i && Below(dirs, i, x) {
        assert Below(dirs, i, dirs[x].parent);
      }
    }
    assert IsRank(dirs', rank');
  }

  /** A rename rebases the path of every directory in the moved subtree, and of no
      other; the subtree becomes monitored or not with its new parent. */
  lemma {:induction false} RenamePaths(dirs: Dirs, i: Ino, q: Ino, m: string, x: Ino)
    requires Tree(dirs) && CanRename(dirs, i, q, m) && x in dirs && Tree(dirs[i := Child(q, m)])
    ensures var dirs' := dirs[i := Child(q, m)];
            if Below(dirs, i, x) then
              && |Path(dirs, i)| <= |Path(dirs, x)|
              && Path(dirs', x) == Rebase(Path(dirs, x), Path(dirs, i), Join(Path(dirs, q), m))
              && Monitored(dirs', x) == Monitored(dirs, q)
              && Monitored(dirs, x) == Monitored(dirs, i)
            else
              Path(dirs', x) == Path(dirs, x) && Monitored(dirs', x) == Monitored(dirs, x)
    decreases Rank(dirs)[x] + (if Below(dirs, i, x) then Rank(dirs)[q] + 1 else 0)
  {
    var dirs' := dirs[i := Child(q, m)];
    if x == i {
      RenamePaths(dirs, i, q, m, q);
      assert Path(dirs, i)[|Path(dirs, i)|..] == "";
      assert Path(dirs', i) == Join(Path(dirs', q), m);
    } else if dirs[x].Child? {
      var p, n := dirs[x].parent, dirs[x].name;
      RenamePaths(dirs, i, q, m, p);
      if Below(dirs, i, x) {
        RebaseJoin(Path(dirs, p), n, Path(dirs, i), Join(Path(dirs, q), m));
      }
    }
  }
}
