/** The display recursion of namespaces_of.go. It keeps no set of visited nodes, so
    that it ends and repeats nothing rests on the forest the insertions build. */
module NamespaceDisplay {
  import opened Options
  import opened NamespaceForest

  datatype Visit = Visit(ns: NamespaceId, level: nat)

  /** `bound` exceeds the rank of everything recorded: children rank above their
      parent, so the recursion is bounded by it. */
  ghost predicate Walkable(k: Kernel, s: Info, bound: nat) {
    && k.WellFounded()
    && Forest(k, s)
    && (forall x :: x in s.nsList ==> k.Rank(x) < bound)
  }

  lemma {:induction false} BoundExists(k: Kernel, xs: set<NamespaceId>) returns (bound: nat)
    ensures forall x :: x in xs ==> k.Rank(x) < bound
    decreases xs
  {
    if xs == {} {
      bound := 0;
    } else {
      var x :| x in xs;
      bound := BoundExists(k, xs - {x});
      bound := if k.Rank(x) < bound then bound else k.Rank(x) + 1;
    }
  }

  /** What the forest says of the children of an entry. */
  lemma ChildrenListed(k: Kernel, s: Info, at: NamespaceId, i: nat)
    requires Forest(k, s) && at in s.nsList && i < |s.nsList[at].children|
    ensures Under(k, s, s.nsList[at].children[i], at)
  {
    var c := s.nsList[at].children[i];
    assert Counted(k, s, {}, at, c);
    assert c in multiset(s.nsList[at].children);
  }

  /** All of `cs` are recorded and rank above `rank`. */
  ghost predicate Above(k: Kernel, s: Info, cs: seq<NamespaceId>, rank: int) {
    forall i :: 0 <= i < |cs| ==> cs[i] in s.nsList && rank < k.Rank(cs[i])
  }

  lemma ChildrenAbove(k: Kernel, s: Info, at: NamespaceId)
    requires k.WellFounded() && Forest(k, s) && at in s.nsList
    ensures Above(k, s, s.nsList[at].children, k.Rank(at))
  {
    var cs := s.nsList[at].children;
    forall i | 0 <= i < |cs| ensures cs[i] in s.nsList && k.Rank(at) < k.Rank(cs[i]) {
      ChildrenListed(k, s, at, i);
    }
  }

  /** The order of the display: a node, then the subtrees of its children. */
  ghost function Walk(k: Kernel, s: Info, bound: nat, ns: NamespaceId, level: nat): seq<Visit>
    requires Walkable(k, s, bound) && ns in s.nsList
    decreases bound - k.Rank(ns), 1, 0
  {
    ChildrenAbove(k, s, ns);
    [Visit(ns, level)] + WalkAll(k, s, bound, s.nsList[ns].children, k.Rank(ns), level + 1)
  }

  ghost function WalkAll(k: Kernel, s: Info, bound: nat, cs: seq<NamespaceId>, rank: int, level: nat): seq<Visit>
    requires Walkable(k, s, bound) && Above(k, s, cs, rank) && rank < bound
    decreases bound - rank, 0, |cs|
  {
    if cs == [] then []
    else
      var n := |cs| - 1;
      WalkAll(k, s, bound, cs[..n], rank, level) + Walk(k, s, bound, cs[n], level)
  }

  // ----- how often a namespace is visited -----

  function Visits(w: seq<Visit>, x: NamespaceId): nat {
    if w == [] then 0 else Visits(w[..|w| - 1], x) + if w[|w| - 1].ns == x then 1 else 0
  }

  lemma {:induction false} VisitsAppend(a: seq<Visit>, b: seq<Visit>, x: NamespaceId)
    ensures Visits(a + b, x) == Visits(a, x) + Visits(b, x)
    decreases |b|
  {
    if b == [] {
      assert a + b == a;
    } else {
      var n := |b| - 1;
      assert (a + b)[..|a + b| - 1] == a + b[..n];
      VisitsAppend(a, b[..n], x);
    }
  }

  /** `a` is x itself or lies on the way up from x. */
  ghost predicate OnChain(k: Kernel, a: NamespaceId, x: NamespaceId)
    requires k.WellFounded()
    decreases k.Rank(x)
  {
    a == x || (k.Up(x).Some? && OnChain(k, a, k.Up(x).value))
  }

  lemma {:induction false} OnChainRank(k: Kernel, a: NamespaceId, x: NamespaceId)
    requires k.WellFounded() && OnChain(k, a, x)
    ensures a == x || k.Rank(a) < k.Rank(x)
    decreases k.Rank(x)
  {
    if a != x {
      OnChainRank(k, a, k.Up(x).value);
    }
  }

  /** Of two namespaces on the way up from x, one is on the way up from the other. */
  lemma {:induction false} ChainIsLinear(k: Kernel, a: NamespaceId, b: NamespaceId, x: NamespaceId)
    requires k.WellFounded() && OnChain(k, a, x) && OnChain(k, b, x)
    ensures OnChain(k, a, b) || OnChain(k, b, a)
    decreases k.Rank(x)
  {
    if a != x && b != x {
      ChainIsLinear(k, a, b, k.Up(x).value);
    }
  }

  /** At most one child of an entry is on the way up from x. */
  lemma OneWayUp(k: Kernel, c: NamespaceId, d: NamespaceId, x: NamespaceId)
    requires k.WellFounded() && OnChain(k, c, x) && OnChain(k, d, x)
    requires k.Up(c).Some? && k.Up(c) == k.Up(d)
    ensures c == d
  {
    ChainIsLinear(k, c, d, x);
    if c != d {
      if OnChain(k, c, d) {
        OnChainRank(k, c, k.Up(d).value);
      } else {
        OnChainRank(k, d, k.Up(c).value);
      }
    }
  }

  /** Below a proper ancestor there is a child of it on the way up from x. */
  lemma {:induction false} WayUp(k: Kernel, s: Info, a: NamespaceId, x: NamespaceId) returns (c: NamespaceId)
    requires k.WellFounded() && Forest(k, s) && x in s.nsList && OnChain(k, a, x) && a != x
    ensures OnChain(k, c, x) && Under(k, s, c, a)
    decreases k.Rank(x)
  {
    if k.Up(x).value == a {
      c := x;
    } else {
      c := WayUp(k, s, a, k.Up(x).value);
    }
  }

  /** How many of `cs` are on the way up from x. */
  ghost function WaysUp(k: Kernel, cs: seq<NamespaceId>, x: NamespaceId): nat
    requires k.WellFounded()
  {
    if cs == [] then 0
    else WaysUp(k, cs[..|cs| - 1], x) + if OnChain(k, cs[|cs| - 1], x) then 1 else 0
  }

  lemma {:induction false} WaysUpIsCount(k: Kernel, cs: seq<NamespaceId>, x: NamespaceId, c: NamespaceId)
    requires k.WellFounded()
    requires forall i :: 0 <= i < |cs| ==> (OnChain(k, cs[i], x) <==> cs[i] == c)
    ensures WaysUp(k, cs, x) == multiset(cs)[c]
    decreases |cs|
  {
    if cs != [] {
      var n := |cs| - 1;
      WaysUpIsCount(k, cs[..n], x, c);
      assert cs == cs[..n] + [cs[n]];
      assert multiset(cs) == multiset(cs[..n]) + multiset{cs[n]};
    }
  }

  lemma {:induction false} NoWaysUp(k: Kernel, cs: seq<NamespaceId>, x: NamespaceId)
    requires k.WellFounded()
    requires forall i :: 0 <= i < |cs| ==> !OnChain(k, cs[i], x)
    ensures WaysUp(k, cs, x) == 0
    decreases |cs|
  {
    if cs != [] {
      NoWaysUp(k, cs[..|cs| - 1], x);
    }
  }

  lemma WaysUpFromChildren(k: Kernel, s: Info, at: NamespaceId, x: NamespaceId)
    requires k.WellFounded() && Forest(k, s) && at in s.nsList && x in s.nsList
    ensures WaysUp(k, s.nsList[at].children, x) == if OnChain(k, at, x) && at != x then 1 else 0
  {
    var cs := s.nsList[at].children;
    if OnChain(k, at, x) && at != x {
      var c := WayUp(k, s, at, x);
      forall i | 0 <= i < |cs| ensures OnChain(k, cs[i], x) <==> cs[i] == c {
        ChildrenListed(k, s, at, i);
        if OnChain(k, cs[i], x) { OneWayUp(k, cs[i], c, x); }
      }
      WaysUpIsCount(k, cs, x, c);
      assert Counted(k, s, {}, at, c);
    } else {
      forall i | 0 <= i < |cs| ensures !OnChain(k, cs[i], x) {
        ChildrenListed(k, s, at, i);
        if OnChain(k, cs[i], x) {
          ChildOnChain(k, cs[i], x);
          if at == x { OnChainRank(k, cs[i], x); }
        }
      }
      NoWaysUp(k, cs, x);
    }
  }

  lemma {:induction false} ChildOnChain(k: Kernel, c: NamespaceId, x: NamespaceId)
    requires k.WellFounded() && OnChain(k, c, x) && k.Up(c).Some?
    ensures OnChain(k, k.Up(c).value, x)
    decreases k.Rank(x)
  {
    if c != x {
      ChildOnChain(k, c, k.Up(x).value);
    } else {
      assert OnChain(k, k.Up(c).value, k.Up(c).value);
    }
  }

  /** The walk from an entry visits exactly the recorded namespaces at or below it,
      each exactly once. */
  lemma {:induction false} WalkVisits(k: Kernel, s: Info, bound: nat, ns: NamespaceId, level: nat, x: NamespaceId)
    requires Walkable(k, s, bound) && ns in s.nsList && x in s.nsList
    ensures Visits(Walk(k, s, bound, ns, level), x) == if OnChain(k, ns, x) then 1 else 0
    decreases bound - k.Rank(ns), 1, 0
  {
    var cs := s.nsList[ns].children;
    ChildrenAbove(k, s, ns);
    var first, rest := [Visit(ns, level)], WalkAll(k, s, bound, cs, k.Rank(ns), level + 1);
    VisitsAppend(first, rest, x);
    assert first[..0] == [];
    WalkAllVisits(k, s, bound, cs, k.Rank(ns), level + 1, x);
    WaysUpFromChildren(k, s, ns, x);
  }

  lemma {:induction false} WalkAllVisits(k: Kernel, s: Info, bound: nat, cs: seq<NamespaceId>, rank: int,
                                         level: nat, x: NamespaceId)
    requires Walkable(k, s, bound) && Above(k, s, cs, rank) && rank < bound && x in s.nsList
    ensures Visits(WalkAll(k, s, bound, cs, rank, level), x) == WaysUp(k, cs, x)
    decreases bound - rank, 0, |cs|
  {
    if cs != [] {
      var n := |cs| - 1;
      WalkAllVisits(k, s, bound, cs[..n], rank, level, x);
      WalkVisits(k, s, bound, cs[n], level, x);
      VisitsAppend(WalkAll(k, s, bound, cs[..n], rank, level), Walk(k, s, bound, cs[n], level), x);
    }
  }

  // ----- the whole display -----

  /** displayNamespaceHierarchies() without --subtree. It reads the entry of `rootNS`,
      which exists whenever anything has been recorded. */
  ghost function Display(k: Kernel, s: Info, bound: nat): seq<Visit>
    requires Walkable(k, s, bound) && s.rootNS in s.nsList
  {
    Walk(k, s, bound, s.rootNS, 0) +
    if INVISIBLE in s.nsList then Walk(k, s, bound, INVISIBLE, 0) else []
  }

  /** Every way up ends at a topmost namespace or at the special entry. */
  lemma {:induction false} TopOf(k: Kernel, s: Info, x: NamespaceId) returns (t: NamespaceId)
    requires k.WellFounded() && Forest(k, s) && x in s.nsList
    ensures t in s.nsList && OnChain(k, t, x) && (k.Topmost(t) || t == INVISIBLE)
    decreases k.Rank(x)
  {
    if k.Up(x).None? {
      t := x;
    } else {
      t := TopOf(k, s, k.Up(x).value);
    }
  }

  lemma TopsAreExclusive(k: Kernel, t: NamespaceId, u: NamespaceId, x: NamespaceId)
    requires k.WellFounded() && OnChain(k, t, x) && OnChain(k, u, x)
    requires k.Up(t).None? && k.Up(u).None?
    ensures t == u
  {
    ChainIsLinear(k, t, u, x);
  }

  lemma RootRecorded(k: Kernel, s: Info)
    requires k.WellFounded() && Forest(k, s) && s.nsList != map[]
    ensures s.rootNS in s.nsList
  {
    var x :| x in s.nsList;
    var t := TopOf(k, s, x);
  }

  /** The recorded topmost namespaces. */
  ghost predicate OneTopmost(k: Kernel, s: Info) {
    exists t :: OnlyTopmost(k, s, t)
  }

  ghost predicate OnlyTopmost(k: Kernel, s: Info, t: NamespaceId) {
    t in s.nsList && k.Topmost(t) && forall u :: u in s.nsList && k.Topmost(u) ==> u == t
  }

  lemma DisplayVisits(k: Kernel, s: Info, bound: nat, x: NamespaceId)
    requires Walkable(k, s, bound) && s.rootNS in s.nsList && x in s.nsList
    ensures Visits(Display(k, s, bound), x)
         == (if OnChain(k, s.rootNS, x) then 1 else 0)
          + (if INVISIBLE in s.nsList && OnChain(k, INVISIBLE, x) then 1 else 0)
  {
    var a := Walk(k, s, bound, s.rootNS, 0);
    var b := if INVISIBLE in s.nsList then Walk(k, s, bound, INVISIBLE, 0) else [];
    VisitsAppend(a, b, x);
    WalkVisits(k, s, bound, s.rootNS, 0, x);
    if INVISIBLE in s.nsList { WalkVisits(k, s, bound, INVISIBLE, 0, x); }
  }

  lemma OneTopmostShowsOnce(k: Kernel, s: Info, bound: nat, x: NamespaceId)
    requires Walkable(k, s, bound) && s.rootNS in s.nsList && x in s.nsList && OneTopmost(k, s)
    ensures Visits(Display(k, s, bound), x) == 1
  {
    DisplayVisits(k, s, bound, x);
    var t := TopOf(k, s, x);
    if OnChain(k, s.rootNS, x) { TopsAreExclusive(k, t, s.rootNS, x); }
    if OnChain(k, INVISIBLE, x) { TopsAreExclusive(k, t, INVISIBLE, x); }
  }

  /** A topmost namespace is shown exactly if the list calls it the root, so all others
      are missing. */
  lemma OtherTopmostMissing(k: Kernel, s: Info, bound: nat, u: NamespaceId)
    requires Walkable(k, s, bound) && s.rootNS in s.nsList && u in s.nsList && k.Topmost(u)
    ensures Visits(Display(k, s, bound), u) == if u == s.rootNS then 1 else 0
  {
    DisplayVisits(k, s, bound, u);
  }

  ghost predicate NoTopmost(k: Kernel, s: Info) {
    forall u :: u in s.nsList ==> !k.Topmost(u)
  }

  /** Without a topmost namespace, everything is shown twice. */
  lemma NoTopmostShowsTwice(k: Kernel, s: Info, bound: nat, x: NamespaceId)
    requires Walkable(k, s, bound) && s.rootNS in s.nsList && x in s.nsList && NoTopmost(k, s)
    ensures Visits(Display(k, s, bound), x) == 2
  {
    DisplayVisits(k, s, bound, x);
    var t := TopOf(k, s, x);
    assert s.rootNS == INVISIBLE;
  }

  lemma OtherwiseSomethingIsOff(k: Kernel, s: Info, bound: nat) returns (x: NamespaceId)
    requires Walkable(k, s, bound) && s.rootNS in s.nsList && !OneTopmost(k, s)
    ensures x in s.nsList && Visits(Display(k, s, bound), x) != 1
  {
    if NoTopmost(k, s) {
      x := s.rootNS;
      NoTopmostShowsTwice(k, s, bound, x);
    } else {
      x := AnotherTopmost(k, s);
      OtherTopmostMissing(k, s, bound, x);
    }
  }

  lemma AnotherTopmost(k: Kernel, s: Info) returns (u: NamespaceId)
    requires !NoTopmost(k, s) && !OneTopmost(k, s)
    ensures u in s.nsList && k.Topmost(u) && u != s.rootNS
  {
    var t :| t in s.nsList && k.Topmost(t);
    assert !OnlyTopmost(k, s, t);
    u :| u in s.nsList && k.Topmost(u) && u != t;
    if u == s.rootNS { u := t; }
  }

  /** On any list the insertions build, the display visits every recorded namespace
      exactly once if and only if exactly one topmost namespace was recorded. With none
      it shows everything twice; with more, all topmost ones but one are missing. */
  lemma DisplayIsExact(k: Kernel, s: Info, bound: nat)
    requires Walkable(k, s, bound) && s.nsList != map[]
    ensures s.rootNS in s.nsList
    ensures (forall x :: x in s.nsList ==> Visits(Display(k, s, bound), x) == 1) <==> OneTopmost(k, s)
    ensures NoTopmost(k, s) ==> forall x :: x in s.nsList ==> Visits(Display(k, s, bound), x) == 2
    ensures forall u :: u in s.nsList && k.Topmost(u) ==>
              Visits(Display(k, s, bound), u) == if u == s.rootNS then 1 else 0
  {
    RootRecorded(k, s);
    if OneTopmost(k, s) {
      forall x | x in s.nsList ensures Visits(Display(k, s, bound), x) == 1 {
        OneTopmostShowsOnce(k, s, bound, x);
      }
    } else {
      var x := OtherwiseSomethingIsOff(k, s, bound);
    }
    if NoTopmost(k, s) {
      forall x | x in s.nsList ensures Visits(Display(k, s, bound), x) == 2 {
        NoTopmostShowsTwice(k, s, bound, x);
      }
    }
    forall u | u in s.nsList && k.Topmost(u)
      ensures Visits(Display(k, s, bound), u) == if u == s.rootNS then 1 else 0
    {
      OtherTopmostMissing(k, s, bound, u);
    }
  }

  /** From the insertions to the screen: whatever processes were scanned, the display
      ends, and it is exact precisely when they led to one topmost namespace. */
  lemma BuiltDisplay(k: Kernel, requests: seq<Request>) returns (bound: nat)
    requires k.WellFounded() && Real(requests) && requests != []
    ensures var s := AddAll(k, requests);
            && Walkable(k, s, bound)
            && s.rootNS in s.nsList
            && ((forall x :: x in s.nsList ==> Visits(Display(k, s, bound), x) == 1) <==> OneTopmost(k, s))
  {
    var s := AddAll(k, requests);
    BuiltForest(k, requests);
    bound := BoundExists(k, s.nsList.Keys);
    assert requests[|requests| - 1].ns in s.nsList;
    DisplayIsExact(k, s, bound);
  }

  /** Both cases come about. Two processes in unrelated PID namespaces: the one that was
      recorded first is not shown. */
  lemma FirstOfTwoIsMissing(k: Kernel, a: NamespaceId, b: NamespaceId, p: int, q: int) returns (bound: nat)
    requires k.WellFounded() && k.Topmost(a) && k.Topmost(b) && a != b
    ensures var s := AddAll(k, [Request(a, p), Request(b, q)]);
            Walkable(k, s, bound) && a in s.nsList && s.rootNS in s.nsList && Visits(Display(k, s, bound), a) == 0
  {
    var requests := [Request(a, p), Request(b, q)];
    var s := AddAll(k, requests);
    bound := BuiltDisplay(k, requests);
    TwoAdded(k, a, b, p, q);
    OtherTopmostMissing(k, s, bound, a);
  }

  lemma AddTopmost(k: Kernel, s: Info, a: NamespaceId, p: int)
    requires k.WellFounded() && k.Topmost(a) && a !in s.nsList
    ensures Add(k, s, a, p).rootNS == a && Add(k, s, a, p).nsList.Keys == s.nsList.Keys + {a}
  {
    assert AddToList(k, s, a) == WithEntry(s, a, k.nsType(a)).(rootNS := a);
  }

  lemma AddOutOfSight(k: Kernel, a: NamespaceId, p: int)
    requires k.WellFounded() && a != INVISIBLE && k.parent(a).None? && !k.Topmost(a)
    ensures a in Add(k, EMPTY, a, p).nsList && NoTopmost(k, Add(k, EMPTY, a, p))
  {
    var s := WithEntry(WithEntry(EMPTY, a, k.nsType(a)), INVISIBLE, CLONE_NEWUSER);
    assert AddToList(k, EMPTY, a) == AppendChild(s, INVISIBLE, a);
    assert Add(k, EMPTY, a, p).nsList.Keys == {a, INVISIBLE};
  }

  lemma AddAllOne(k: Kernel, r: Request)
    requires k.WellFounded()
    ensures AddAll(k, [r]) == Add(k, EMPTY, r.ns, r.pid)
  {
    assert [r][..0] == [];
  }

  lemma TwoAdded(k: Kernel, a: NamespaceId, b: NamespaceId, p: int, q: int)
    requires k.WellFounded() && k.Topmost(a) && k.Topmost(b) && a != b
    ensures var s := AddAll(k, [Request(a, p), Request(b, q)]); a in s.nsList && s.rootNS == b
  {
    var one := Request(a, p);
    assert [one, Request(b, q)][..1] == [one];
    AddAllOne(k, one);
    AddTopmost(k, EMPTY, a, p);
    AddTopmost(k, Add(k, EMPTY, a, p), b, q);
  }

  /** A process in a namespace whose owner is out of sight: it is shown twice. */
  lemma OwnerOutOfSightShowsTwice(k: Kernel, a: NamespaceId, p: int) returns (bound: nat)
    requires k.WellFounded() && a != INVISIBLE && k.parent(a).None? && !k.Topmost(a)
    ensures var s := AddAll(k, [Request(a, p)]);
            Walkable(k, s, bound) && a in s.nsList && s.rootNS in s.nsList && Visits(Display(k, s, bound), a) == 2
  {
    AddAllOne(k, Request(a, p));
    AddOutOfSight(k, a, p);
    bound := BuiltDisplay(k, [Request(a, p)]);
    NoTopmostShowsTwice(k, AddAll(k, [Request(a, p)]), bound, a);
  }

  /** Such kernels exist. */
  lemma BothKernelsExist(a: NamespaceId, b: NamespaceId) returns (k: Kernel, l: Kernel)
    requires a != INVISIBLE && b != INVISIBLE
    ensures k.WellFounded() && k.Topmost(a) && k.Topmost(b)
    ensures l.WellFounded() && l.parent(a).None? && !l.Topmost(a)
  {
    k := Kernel(true, _ => 0, _ => None, _ => 0);
    l := Kernel(false, _ => 0, _ => None, _ => 0);
  }

  // ----- indentation -----

  ghost function StepsUp(k: Kernel, a: NamespaceId, x: NamespaceId): nat
    requires k.WellFounded() && OnChain(k, a, x)
    decreases k.Rank(x)
  {
    if a == x then 0 else 1 + StepsUp(k, a, k.Up(x).value)
  }

  /** Each namespace is shown at the level of its distance below the starting entry,
      and only recorded namespaces below that entry are shown. */
  lemma {:induction false} WalkLevels(k: Kernel, s: Info, bound: nat, ns: NamespaceId, level: nat, i: nat)
    requires Walkable(k, s, bound) && ns in s.nsList && i < |Walk(k, s, bound, ns, level)|
    ensures var v := Walk(k, s, bound, ns, level)[i];
            v.ns in s.nsList && OnChain(k, ns, v.ns) && v.level == level + StepsUp(k, ns, v.ns)
    decreases bound - k.Rank(ns), 1, 0
  {
    if i > 0 {
      ChildrenAbove(k, s, ns);
      var cs := s.nsList[ns].children;
      var j := WalkAllLevels(k, s, bound, cs, k.Rank(ns), level + 1, i - 1);
      ChildrenListed(k, s, ns, j);
      OneMoreStep(k, cs[j], Walk(k, s, bound, ns, level)[i].ns);
    }
  }

  lemma {:induction false} WalkAllLevels(k: Kernel, s: Info, bound: nat, cs: seq<NamespaceId>, rank: int,
                                         level: nat, i: nat) returns (j: nat)
    requires Walkable(k, s, bound) && Above(k, s, cs, rank) && rank < bound
    requires i < |WalkAll(k, s, bound, cs, rank, level)|
    ensures var v := WalkAll(k, s, bound, cs, rank, level)[i];
            j < |cs| && v.ns in s.nsList && OnChain(k, cs[j], v.ns) && v.level == level + StepsUp(k, cs[j], v.ns)
    decreases bound - rank, 0, |cs|
  {
    var n := |cs| - 1;
    var earlier := WalkAll(k, s, bound, cs[..n], rank, level);
    if i < |earlier| {
      j := WalkAllLevels(k, s, bound, cs[..n], rank, level, i);
    } else {
      j := n;
      WalkLevels(k, s, bound, cs[n], level, i - |earlier|);
    }
  }

  lemma {:induction false} OneMoreStep(k: Kernel, c: NamespaceId, x: NamespaceId)
    requires k.WellFounded() && OnChain(k, c, x) && k.Up(c).Some?
    ensures OnChain(k, k.Up(c).value, x)
    ensures StepsUp(k, k.Up(c).value, x) == StepsUp(k, c, x) + 1
    decreases k.Rank(x)
  {
    ChildOnChain(k, c, x);
    var a := k.Up(c).value;
    if c == x {
      assert StepsUp(k, a, a) == 0;
    } else {
      OnChainRank(k, c, k.Up(x).value);
      OneMoreStep(k, c, k.Up(x).value);
      assert a != x by { OnChainRank(k, c, x); }
    }
  }

  // ----- the recursive method -----

  /** displayNamespaceTree(), returning what it visits in order. */
  method DisplayTree(info: NamespaceInfo, ns: NamespaceId, level: nat, ghost k: Kernel, ghost bound: nat)
    returns (out: seq<Visit>)
    requires Walkable(k, info.State(), bound) && ns in info.nsList
    ensures out == Walk(k, info.State(), bound, ns, level)
    decreases bound - k.Rank(ns)
  {
    out := [Visit(ns, level)];
    var cs := info.nsList[ns].children;
    ghost var s := info.State();
    ChildrenAbove(k, s, ns);
    for i := 0 to |cs|
      invariant out == [Visit(ns, level)] + WalkAll(k, s, bound, cs[..i], k.Rank(ns), level + 1)
    {
      var sub := DisplayTree(info, cs[i], level + 1, k, bound);
      assert cs[..i + 1][..i] == cs[..i];
      out := out + sub;
    }
    assert cs[..|cs|] == cs;
  }
}
