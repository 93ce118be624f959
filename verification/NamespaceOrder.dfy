/** The order of the display: parents before children, and siblings with all that is below
    them in the order in which they were recorded. */
module NamespaceOrder {
  import opened Options
  import opened NamespaceForest
  import opened NamespaceDisplay

  /** The a-th child of `at` is at or above x, and the b-th at or above y. */
  ghost predicate Apart(k: Kernel, s: Info, at: NamespaceId, a: nat, b: nat, x: NamespaceId, y: NamespaceId)
    requires k.WellFounded()
  {
    && at in s.nsList && a < b < |s.nsList[at].children|
    && OnChain(k, s.nsList[at].children[a], x) && OnChain(k, s.nsList[at].children[b], y)
  }

  /** x has to be shown before y: it lies above it, or they are at or below two children of
      one entry, in this order. */
  ghost predicate Earlier(k: Kernel, s: Info, x: NamespaceId, y: NamespaceId)
    requires k.WellFounded()
  {
    || (x != y && OnChain(k, x, y))
    || (exists at, a, b :: Apart(k, s, at, a, b, x, y))
  }

  // ----- there is one order -----

  lemma {:induction false} OnChainTransitive(k: Kernel, a: NamespaceId, b: NamespaceId, x: NamespaceId)
    requires k.WellFounded() && OnChain(k, a, b) && OnChain(k, b, x)
    ensures OnChain(k, a, x)
    decreases k.Rank(x)
  {
    if b != x { OnChainTransitive(k, a, b, k.Up(x).value); }
  }

  lemma CountedTwice(cs: seq<NamespaceId>, a: nat, b: nat)
    requires a < b < |cs| && cs[a] == cs[b]
    ensures multiset(cs)[cs[a]] >= 2
  {
    assert cs == cs[..b] + [cs[b]] + cs[b + 1..];
    assert multiset(cs) == multiset(cs[..b]) + multiset{cs[b]} + multiset(cs[b + 1..]);
    assert cs[..b][a] == cs[b];
    assert cs[b] in multiset(cs[..b]);
  }

  /** An entry has no child twice. */
  lemma ChildrenDistinct(k: Kernel, s: Info, at: NamespaceId, a: nat, b: nat)
    requires Forest(k, s) && at in s.nsList && a < b < |s.nsList[at].children|
    ensures s.nsList[at].children[a] != s.nsList[at].children[b]
  {
    var cs := s.nsList[at].children;
    assert Counted(k, s, {}, at, cs[a]);
    if cs[a] == cs[b] { CountedTwice(cs, a, b); }
  }

  /** Only one child of an entry is at or above a namespace. */
  lemma OneChildAbove(k: Kernel, s: Info, at: NamespaceId, a: nat, b: nat, x: NamespaceId)
    requires k.WellFounded() && Forest(k, s) && at in s.nsList
    requires a < |s.nsList[at].children| && b < |s.nsList[at].children|
    requires OnChain(k, s.nsList[at].children[a], x) && OnChain(k, s.nsList[at].children[b], x)
    ensures a == b
  {
    ChildrenListed(k, s, at, a);
    ChildrenListed(k, s, at, b);
    OneWayUp(k, s.nsList[at].children[a], s.nsList[at].children[b], x);
    if a < b { ChildrenDistinct(k, s, at, a, b); }
    if b < a { ChildrenDistinct(k, s, at, b, a); }
  }

  lemma AboveOrApart(k: Kernel, s: Info, at: NamespaceId, a: nat, b: nat, x: NamespaceId, y: NamespaceId)
    requires k.WellFounded() && Forest(k, s) && Apart(k, s, at, a, b, x, y)
    ensures !OnChain(k, x, y) && !OnChain(k, y, x)
  {
    var cs := s.nsList[at].children;
    if OnChain(k, x, y) {
      OnChainTransitive(k, cs[a], x, y);
      OneChildAbove(k, s, at, a, b, y);
    }
    if OnChain(k, y, x) {
      OnChainTransitive(k, cs[b], y, x);
      OneChildAbove(k, s, at, a, b, x);
    }
  }

  /** Namespaces that part at an entry are not both below another entry further down. */
  lemma PartsNoLower(k: Kernel, s: Info, at: NamespaceId, a: nat, b: nat, low: NamespaceId, x: NamespaceId,
                     y: NamespaceId)
    requires k.WellFounded() && Forest(k, s) && Apart(k, s, at, a, b, x, y)
    requires low in s.nsList && low != at && OnChain(k, at, low)
    ensures !(OnChain(k, low, x) && OnChain(k, low, y))
  {
    var cs := s.nsList[at].children;
    var d := WayUp(k, s, at, low);
    assert Counted(k, s, {}, at, d);
    assert d in multiset(cs);
    var m :| 0 <= m < |cs| && cs[m] == d;
    if OnChain(k, low, x) {
      OnChainTransitive(k, d, low, x);
      OneChildAbove(k, s, at, a, m, x);
    }
    if OnChain(k, low, y) {
      OnChainTransitive(k, d, low, y);
      OneChildAbove(k, s, at, b, m, y);
    }
  }

  lemma ChildBelow(k: Kernel, s: Info, at: NamespaceId, a: nat, x: NamespaceId)
    requires k.WellFounded() && Forest(k, s) && at in s.nsList && a < |s.nsList[at].children|
    requires OnChain(k, s.nsList[at].children[a], x)
    ensures OnChain(k, at, x)
  {
    ChildrenListed(k, s, at, a);
    ChildOnChain(k, s.nsList[at].children[a], x);
  }

  lemma PartOnce(k: Kernel, s: Info, at: NamespaceId, a: nat, b: nat, at': NamespaceId, a': nat, b': nat,
                 x: NamespaceId, y: NamespaceId)
    requires k.WellFounded() && Forest(k, s) && Apart(k, s, at, a, b, x, y)
    ensures !Apart(k, s, at', a', b', y, x)
  {
    ChildBelow(k, s, at, a, x);
    ChildBelow(k, s, at, b, y);
    if Apart(k, s, at', a', b', y, x) {
      ChildBelow(k, s, at', a', y);
      ChildBelow(k, s, at', b', x);
      if at == at' {
        OneChildAbove(k, s, at, a, b', x);
        OneChildAbove(k, s, at, b, a', y);
      } else {
        ChainIsLinear(k, at, at', x);
        if OnChain(k, at, at') {
          PartsNoLower(k, s, at, a, b, at', x, y);
        } else {
          PartsNoLower(k, s, at', a', b', at, y, x);
        }
      }
    }
  }

  lemma NotBothEarlier(k: Kernel, s: Info, x: NamespaceId, y: NamespaceId)
    requires k.WellFounded() && Forest(k, s) && Earlier(k, s, x, y)
    ensures !Earlier(k, s, y, x)
  {
    if Earlier(k, s, y, x) {
      if at, a, b :| Apart(k, s, at, a, b, x, y) {
        AboveOrApart(k, s, at, a, b, x, y);
        forall at', a', b' ensures !Apart(k, s, at', a', b', y, x) {
          PartOnce(k, s, at, a, b, at', a', b', x, y);
        }
      } else {
        OnChainRank(k, x, y);
        if at, a, b :| Apart(k, s, at, a, b, y, x) {
          AboveOrApart(k, s, at, a, b, y, x);
        } else {
          OnChainRank(k, y, x);
        }
      }
    }
  }

  // ----- the walk keeps to it -----

  /** Where the walk of the m-th child begins. */
  ghost function Offset(k: Kernel, s: Info, bound: nat, cs: seq<NamespaceId>, rank: int, level: nat, m: nat): nat
    requires Walkable(k, s, bound) && Above(k, s, cs, rank) && rank < bound && m <= |cs|
  {
    |WalkAll(k, s, bound, cs[..m], rank, level)|
  }

  lemma OffsetNext(k: Kernel, s: Info, bound: nat, cs: seq<NamespaceId>, rank: int, level: nat, m: nat)
    requires Walkable(k, s, bound) && Above(k, s, cs, rank) && rank < bound && m < |cs|
    ensures Offset(k, s, bound, cs, rank, level, m + 1)
         == Offset(k, s, bound, cs, rank, level, m) + |Walk(k, s, bound, cs[m], level)|
  {
    assert cs[..m + 1][..m] == cs[..m];
  }

  lemma {:induction false} OffsetsGrow(k: Kernel, s: Info, bound: nat, cs: seq<NamespaceId>, rank: int, level: nat,
                                       m: nat, n: nat)
    requires Walkable(k, s, bound) && Above(k, s, cs, rank) && rank < bound && m <= n <= |cs|
    ensures Offset(k, s, bound, cs, rank, level, m) <= Offset(k, s, bound, cs, rank, level, n)
    decreases n
  {
    if m < n {
      OffsetsGrow(k, s, bound, cs, rank, level, m, n - 1);
      OffsetNext(k, s, bound, cs, rank, level, n - 1);
    }
  }

  /** Each position belongs to the walk of one child. */
  lemma {:induction false} Segment(k: Kernel, s: Info, bound: nat, cs: seq<NamespaceId>, rank: int, level: nat, i: nat)
    returns (m: nat)
    requires Walkable(k, s, bound) && Above(k, s, cs, rank) && rank < bound
    requires i < |WalkAll(k, s, bound, cs, rank, level)|
    ensures m < |cs| && Offset(k, s, bound, cs, rank, level, m) <= i
    ensures i - Offset(k, s, bound, cs, rank, level, m) < |Walk(k, s, bound, cs[m], level)|
    ensures WalkAll(k, s, bound, cs, rank, level)[i]
         == Walk(k, s, bound, cs[m], level)[i - Offset(k, s, bound, cs, rank, level, m)]
    decreases |cs|
  {
    var n := |cs| - 1;
    if i < Offset(k, s, bound, cs, rank, level, n) {
      m := Segment(k, s, bound, cs[..n], rank, level, i);
      assert cs[..n][..m] == cs[..m];
    } else {
      m := n;
    }
  }

  lemma {:induction false} WalkInOrder(k: Kernel, s: Info, bound: nat, ns: NamespaceId, level: nat, i: nat, j: nat)
    requires Walkable(k, s, bound) && ns in s.nsList && i < j < |Walk(k, s, bound, ns, level)|
    ensures Earlier(k, s, Walk(k, s, bound, ns, level)[i].ns, Walk(k, s, bound, ns, level)[j].ns)
    decreases bound - k.Rank(ns)
  {
    var cs := s.nsList[ns].children;
    ChildrenAbove(k, s, ns);
    var y := Walk(k, s, bound, ns, level)[j].ns;
    var n := Segment(k, s, bound, cs, k.Rank(ns), level + 1, j - 1);
    var offN := Offset(k, s, bound, cs, k.Rank(ns), level + 1, n);
    WalkLevels(k, s, bound, cs[n], level + 1, j - 1 - offN);
    if i == 0 {
      ChildBelow(k, s, ns, n, y);
      OnChainRank(k, cs[n], y);
    } else {
      var x := Walk(k, s, bound, ns, level)[i].ns;
      var m := Segment(k, s, bound, cs, k.Rank(ns), level + 1, i - 1);
      var offM := Offset(k, s, bound, cs, k.Rank(ns), level + 1, m);
      if m == n {
        WalkInOrder(k, s, bound, cs[m], level + 1, i - 1 - offM, j - 1 - offM);
      } else {
        WalkLevels(k, s, bound, cs[m], level + 1, i - 1 - offM);
        if n < m {
          OffsetNext(k, s, bound, cs, k.Rank(ns), level + 1, n);
          OffsetsGrow(k, s, bound, cs, k.Rank(ns), level + 1, n + 1, m);
        }
        assert Apart(k, s, ns, m, n, x, y);
      }
    }
  }

  /** In the display of a subtree one namespace comes before another if and only if it lies
      above it, or they are at or below two children of one entry that are listed in that
      order. */
  lemma WalkOrder(k: Kernel, s: Info, bound: nat, ns: NamespaceId, level: nat, i: nat, j: nat)
    requires Walkable(k, s, bound) && ns in s.nsList
    requires i < |Walk(k, s, bound, ns, level)| && j < |Walk(k, s, bound, ns, level)|
    ensures i < j <==> Earlier(k, s, Walk(k, s, bound, ns, level)[i].ns, Walk(k, s, bound, ns, level)[j].ns)
  {
    var x, y := Walk(k, s, bound, ns, level)[i].ns, Walk(k, s, bound, ns, level)[j].ns;
    if i < j {
      WalkInOrder(k, s, bound, ns, level, i, j);
    } else if Earlier(k, s, x, y) {
      NotBothEarlier(k, s, x, y);
      if j < i { WalkInOrder(k, s, bound, ns, level, j, i); }
    }
  }

  /** So every namespace but the first comes after the entry it is listed under. */
  lemma ParentsFirst(k: Kernel, s: Info, bound: nat, ns: NamespaceId, level: nat, i: nat) returns (j: nat)
    requires Walkable(k, s, bound) && ns in s.nsList && 0 < i < |Walk(k, s, bound, ns, level)|
    ensures j < i && k.Up(Walk(k, s, bound, ns, level)[i].ns) == Some(Walk(k, s, bound, ns, level)[j].ns)
    ensures Walk(k, s, bound, ns, level)[i].level == Walk(k, s, bound, ns, level)[j].level + 1
  {
    var w := Walk(k, s, bound, ns, level);
    var x := w[i].ns;
    WalkLevels(k, s, bound, ns, level, i);
    WalkInOrder(k, s, bound, ns, level, 0, i);
    NotItself(k, s, ns, x);
    var up := k.Up(x).value;
    WalkVisits(k, s, bound, ns, level, up);
    j := VisitedAt(w, up);
    WalkLevels(k, s, bound, ns, level, j);
    OnChainRank(k, up, x);
    WalkOrder(k, s, bound, ns, level, j, i);
    assert OnChain(k, up, up);
  }

  lemma NotItself(k: Kernel, s: Info, x: NamespaceId, y: NamespaceId)
    requires k.WellFounded() && Forest(k, s) && Earlier(k, s, x, y)
    ensures x != y
  {
    NotBothEarlier(k, s, x, y);
  }

  lemma {:induction false} VisitedAt(w: seq<Visit>, x: NamespaceId) returns (j: nat)
    requires Visits(w, x) > 0
    ensures j < |w| && w[j].ns == x
    decreases |w|
  {
    var n := |w| - 1;
    if w[n].ns == x { j := n; } else { j := VisitedAt(w[..n], x); }
  }

  // ----- the whole display -----

  /** The entry at the top of the way up. */
  ghost function Top(k: Kernel, x: NamespaceId): NamespaceId
    requires k.WellFounded()
    decreases k.Rank(x)
  {
    if k.Up(x).None? then x else Top(k, k.Up(x).value)
  }

  lemma {:induction false} TopIs(k: Kernel, t: NamespaceId, x: NamespaceId)
    requires k.WellFounded() && OnChain(k, t, x) && k.Up(t).None?
    ensures Top(k, x) == t
    decreases k.Rank(x)
  {
    if t != x { TopIs(k, t, k.Up(x).value); }
  }

  /** Where in the display the special entry begins. */
  ghost function RootPart(k: Kernel, s: Info, bound: nat): nat
    requires Walkable(k, s, bound) && s.rootNS in s.nsList
  {
    |Walk(k, s, bound, s.rootNS, 0)|
  }

  lemma ShownAt(k: Kernel, s: Info, bound: nat, i: nat)
    requires Walkable(k, s, bound) && s.rootNS in s.nsList && i < |Display(k, s, bound)|
    ensures var v := Display(k, s, bound)[i];
            && Top(k, v.ns) == (if i < RootPart(k, s, bound) then s.rootNS else INVISIBLE)
            && OnChain(k, Top(k, v.ns), v.ns) && v.level == StepsUp(k, Top(k, v.ns), v.ns)
  {
    var n, v := RootPart(k, s, bound), Display(k, s, bound)[i];
    if i < n {
      WalkLevels(k, s, bound, s.rootNS, 0, i);
      TopIs(k, s.rootNS, v.ns);
    } else {
      WalkLevels(k, s, bound, INVISIBLE, 0, i - n);
      TopIs(k, INVISIBLE, v.ns);
    }
  }

  /** Everything is shown at the level of its distance from the top; what is below the root
      comes first, what is below the special entry last, and each part in its order. */
  lemma DisplayOrder(k: Kernel, s: Info, bound: nat, i: nat, j: nat)
    requires Walkable(k, s, bound) && s.rootNS in s.nsList && s.rootNS != INVISIBLE
    requires i < |Display(k, s, bound)| && j < |Display(k, s, bound)|
    ensures var x, y := Display(k, s, bound)[i].ns, Display(k, s, bound)[j].ns;
            && OnChain(k, Top(k, x), x) && Display(k, s, bound)[i].level == StepsUp(k, Top(k, x), x)
            && (Top(k, x) == s.rootNS || Top(k, x) == INVISIBLE)
            && (i < j <==> if Top(k, x) == Top(k, y) then Earlier(k, s, x, y) else Top(k, x) == s.rootNS)
  {
    var n := RootPart(k, s, bound);
    ShownAt(k, s, bound, i);
    ShownAt(k, s, bound, j);
    if i < n && j < n {
      WalkOrder(k, s, bound, s.rootNS, 0, i, j);
    } else if n <= i && n <= j {
      WalkOrder(k, s, bound, INVISIBLE, 0, i - n, j - n);
    }
  }

  /** Without a topmost namespace the same walk is shown twice. */
  lemma ShownTwice(k: Kernel, s: Info, bound: nat)
    requires Walkable(k, s, bound) && s.rootNS in s.nsList && s.rootNS == INVISIBLE
    ensures var n := RootPart(k, s, bound);
            |Display(k, s, bound)| == 2 * n && Display(k, s, bound)[..n] == Display(k, s, bound)[n..]
  {
  }

  // ----- the order of the children -----

  function ChildrenOf(s: Info, at: NamespaceId): seq<NamespaceId> {
    if at in s.nsList then s.nsList[at].children else []
  }

  /** The children of an entry are as before, or there is one more, recorded only now. */
  ghost predicate OneMoreChild(s: Info, r: Info, at: NamespaceId) {
    || ChildrenOf(r, at) == ChildrenOf(s, at)
    || exists c :: ChildAdded(s, r, at, c)
  }

  predicate ChildAdded(s: Info, r: Info, at: NamespaceId, c: NamespaceId) {
    ChildrenOf(r, at) == ChildrenOf(s, at) + [c] && c !in s.nsList
  }

  /** An insertion adds at most one child to an entry, at the end, and none to the entries
      that are not above what is inserted. */
  lemma {:induction false} AddAppends(k: Kernel, s: Info, ns: NamespaceId, pid: int, at: NamespaceId)
    requires k.WellFounded() && ns != INVISIBLE
    ensures OneMoreChild(s, Add(k, s, ns, pid), at)
    ensures k.Rank(at) >= k.Rank(ns) ==> ChildrenOf(Add(k, s, ns, pid), at) == ChildrenOf(s, at)
    decreases k.depth(ns), 1
  {
    if ns !in s.nsList {
      AddToListAppends(k, s, ns, at);
      if c :| ChildAdded(s, AddToList(k, s, ns), at, c) {
        assert pid > 0 ==> ChildAdded(s, Add(k, s, ns, pid), at, c);
      }
    }
  }

  lemma {:induction false} AddToListAppends(k: Kernel, s: Info, ns: NamespaceId, at: NamespaceId)
    requires k.WellFounded() && ns != INVISIBLE && ns !in s.nsList
    ensures OneMoreChild(s, AddToList(k, s, ns), at)
    ensures k.Rank(at) >= k.Rank(ns) ==> ChildrenOf(AddToList(k, s, ns), at) == ChildrenOf(s, at)
    decreases k.depth(ns), 0
  {
    var s1, r := WithEntry(s, ns, k.nsType(ns)), AddToList(k, s, ns);
    assert ChildrenOf(s1, at) == ChildrenOf(s, at);
    match k.parent(ns)
    case None =>
      assert at == INVISIBLE && !k.Topmost(ns) ==> ChildAdded(s, r, at, ns);
    case Some(p) =>
      AddAppends(k, s1, p, -1, at);
      if at == p {
        assert ChildAdded(s, r, at, ns);
      } else if c :| ChildAdded(s1, Add(k, s1, p, -1), at, c) {
        assert ChildAdded(s, r, at, c);
      }
  }

  /** A request among the first n has led to the one, and none of them to the other. */
  ghost predicate AskedFirst(k: Kernel, requests: seq<Request>, n: nat, c: NamespaceId, d: NamespaceId)
    requires k.WellFounded() && n <= |requests|
  {
    Asked(k, requests[..n], c) && !Asked(k, requests[..n], d)
  }

  /** The children of every entry are listed in the order in which they were first come to. */
  lemma {:induction false} ChildrenInOrder(k: Kernel, requests: seq<Request>, at: NamespaceId, a: nat, b: nat)
    returns (n: nat)
    requires k.WellFounded() && Real(requests) && a < b < |ChildrenOf(AddAll(k, requests), at)|
    ensures n <= |requests|
    ensures AskedFirst(k, requests, n, ChildrenOf(AddAll(k, requests), at)[a], ChildrenOf(AddAll(k, requests), at)[b])
    decreases |requests|
  {
    var m := |requests| - 1;
    var s, r := AddAll(k, requests[..m]), AddAll(k, requests);
    var cs := ChildrenOf(r, at);
    AddAppends(k, s, requests[m].ns, requests[m].pid, at);
    if b < |ChildrenOf(s, at)| {
      n := ChildrenInOrder(k, requests[..m], at, a, b);
      assert requests[..m][..n] == requests[..n];
    } else {
      n := m;
      BuiltForest(k, requests[..m]);
      ChildrenListed(k, s, at, a);
      BuiltContents(k, requests[..m], cs[a]);
      BuiltContents(k, requests[..m], cs[b]);
    }
  }
}
