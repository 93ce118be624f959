/** How namespaces_of.go builds its forest of namespaces: addNamespace() inserts a
    namespace after inserting its parent or owner, asking the kernel for one parent
    at a time. */
module NamespaceForest {
  import opened Options

  datatype NamespaceId = NamespaceId(device: nat, inode: nat)

  /** The key of the special entry that collects namespaces with an invisible owner;
      no namespace file has it. It is also the zero value of `rootNS`. */
  const INVISIBLE := NamespaceId(0, 0)

  const CLONE_NEWUSER := 0x10000000

  datatype Attribs = Attribs(nsType: int, pids: seq<int>, children: seq<NamespaceId>)

  datatype Info = Info(nsList: map<NamespaceId, Attribs>, rootNS: NamespaceId)

  const EMPTY := Info(map[], INVISIBLE)

  /** What the ioctl()s answer, for the option `pidns` in use: the type of a
      namespace, and its parent or owner, or None for EPERM. `depth` only witnesses
      that following parents ends. */
  datatype Kernel = Kernel(
    pidns: bool,
    nsType: NamespaceId -> int,
    parent: NamespaceId -> Option<NamespaceId>,
    depth: NamespaceId -> nat)
  {
    ghost predicate WellFounded() {
      forall ns :: parent(ns).Some? ==>
        depth(parent(ns).value) < depth(ns) && parent(ns).value != INVISIBLE
    }

    /** EPERM here means the topmost visible namespace. */
    predicate Topmost(ns: NamespaceId) {
      ns != INVISIBLE && parent(ns).None? && (nsType(ns) == CLONE_NEWUSER || pidns)
    }

    /** The entry under which a namespace is to be listed. */
    function Up(ns: NamespaceId): Option<NamespaceId> {
      if ns == INVISIBLE || Topmost(ns) then None
      else if parent(ns).Some? then parent(ns)
      else Some(INVISIBLE)
    }

    function Rank(ns: NamespaceId): nat {
      if ns == INVISIBLE then 0 else depth(ns) + 1
    }
  }

  // ----- the insertion, as a function of the recorded state -----

  function AppendChild(s: Info, at: NamespaceId, child: NamespaceId): Info
    requires at in s.nsList
  {
    var a := s.nsList[at];
    s.(nsList := s.nsList[at := a.(children := a.children + [child])])
  }

  function AppendPid(s: Info, at: NamespaceId, pid: int): Info
    requires at in s.nsList
  {
    var a := s.nsList[at];
    s.(nsList := s.nsList[at := a.(pids := a.pids + [pid])])
  }

  function WithEntry(s: Info, ns: NamespaceId, nsType: int): Info {
    s.(nsList := s.nsList[ns := Attribs(nsType, [], [])])
  }

  function Add(k: Kernel, s: Info, ns: NamespaceId, pid: int): (r: Info)
    requires k.WellFounded()
    ensures ns in r.nsList && s.nsList.Keys <= r.nsList.Keys
    decreases k.depth(ns), 1
  {
    var s1 := if ns in s.nsList then s else AddToList(k, s, ns);
    if pid > 0 then AppendPid(s1, ns, pid) else s1
  }

  function AddToList(k: Kernel, s: Info, ns: NamespaceId): (r: Info)
    requires k.WellFounded()
    ensures ns in r.nsList && s.nsList.Keys <= r.nsList.Keys
    decreases k.depth(ns), 0
  {
    var s1 := WithEntry(s, ns, k.nsType(ns));
    match k.parent(ns)
    case None =>
      if k.nsType(ns) == CLONE_NEWUSER || k.pidns then
        s1.(rootNS := ns)
      else
        var s2 := if INVISIBLE in s1.nsList then s1 else WithEntry(s1, INVISIBLE, CLONE_NEWUSER);
        AppendChild(s2, INVISIBLE, ns)
    case Some(p) =>
      AppendChild(Add(k, s1, p, -1), p, ns)
  }

  /** One call per process and namespace file: the namespace and the process's PID. */
  datatype Request = Request(ns: NamespaceId, pid: int)

  function AddAll(k: Kernel, requests: seq<Request>): Info
    requires k.WellFounded()
  {
    if requests == [] then EMPTY
    else
      var last := requests[|requests| - 1];
      Add(k, AddAll(k, requests[..|requests| - 1]), last.ns, last.pid)
  }

  predicate Real(requests: seq<Request>) {
    forall i :: 0 <= i < |requests| ==> requests[i].ns != INVISIBLE
  }

  // ----- what the list means -----

  /** `x` is listed under `at`: both are recorded and `at` is x's parent or owner. */
  predicate Under(k: Kernel, s: Info, x: NamespaceId, at: NamespaceId) {
    x in s.nsList && k.Up(x) == Some(at)
  }

  /** `x` occurs once among the children of `at` if it is listed there, else never. */
  predicate Counted(k: Kernel, s: Info, open: set<NamespaceId>, at: NamespaceId, x: NamespaceId)
    requires at in s.nsList
  {
    multiset(s.nsList[at].children)[x] == if Under(k, s, x, at) && x !in open then 1 else 0
  }

  ghost predicate ClosedBut(k: Kernel, s: Info, open: set<NamespaceId>) {
    forall x :: x in s.nsList && x !in open && k.Up(x).Some? ==> k.Up(x).value in s.nsList
  }

  /** The links, except that the namespaces in `open` have their entry but are not
      linked to their parent yet, as happens while their parents are being added. */
  ghost predicate LinkedBut(k: Kernel, s: Info, open: set<NamespaceId>) {
    && ClosedBut(k, s, open)
    && (forall at, x :: at in s.nsList ==> Counted(k, s, open, at, x))
  }

  /** `rootNS` is a recorded topmost namespace, if there is one; the special entry
      passes for a user namespace, every other has the type the kernel reports. */
  ghost predicate RootKnown(k: Kernel, s: Info) {
    && (if s.rootNS == INVISIBLE then forall x :: x in s.nsList ==> !k.Topmost(x)
        else s.rootNS in s.nsList && k.Topmost(s.rootNS))
    && (forall x :: x in s.nsList ==>
          s.nsList[x].nsType == if x == INVISIBLE then CLONE_NEWUSER else k.nsType(x))
  }

  /** Closed under parents, and every recorded namespace that has a parent or owner
      occurs exactly once, in the children of that entry and of no other. */
  ghost predicate Forest(k: Kernel, s: Info) {
    LinkedBut(k, s, {}) && RootKnown(k, s)
  }

  /** Open namespaces lie strictly below the one being added. */
  ghost predicate AllDeeper(k: Kernel, open: set<NamespaceId>, ns: NamespaceId) {
    forall x :: x in open ==> k.depth(ns) < k.depth(x)
  }

  lemma AppendPidKeeps(k: Kernel, s: Info, ns: NamespaceId, pid: int, open: set<NamespaceId>)
    requires LinkedBut(k, s, open) && ns in s.nsList
    ensures LinkedBut(k, AppendPid(s, ns, pid), open)
  {
    var r := AppendPid(s, ns, pid);
    forall at, x | at in r.nsList ensures Counted(k, r, open, at, x) {
      assert Counted(k, s, open, at, x);
    }
  }

  /** A new entry is open: nothing linked can have it as parent already. */
  lemma WithEntryKeeps(k: Kernel, s: Info, ns: NamespaceId, t: int, open: set<NamespaceId>)
    requires LinkedBut(k, s, open) && ns !in s.nsList
    ensures LinkedBut(k, WithEntry(s, ns, t), open + {ns})
  {
    var r := WithEntry(s, ns, t);
    forall at, x | at in r.nsList ensures Counted(k, r, open + {ns}, at, x) {
      if at == ns {
        assert r.nsList[at].children == [];
        assert x in s.nsList && x !in open ==> k.Up(x) != Some(ns);
      } else {
        assert Counted(k, s, open, at, x);
      }
    }
  }

  /** Being open means nothing for an entry that is listed under no other. */
  lemma CloseTop(k: Kernel, s: Info, ns: NamespaceId, open: set<NamespaceId>)
    requires LinkedBut(k, s, open + {ns}) && k.Up(ns).None?
    ensures LinkedBut(k, s, open)
  {
    forall at, x | at in s.nsList ensures Counted(k, s, open, at, x) {
      assert Counted(k, s, open + {ns}, at, x);
    }
  }

  /** Linking an open namespace under its parent closes it. */
  lemma AppendChildKeeps(k: Kernel, s: Info, at: NamespaceId, ns: NamespaceId, open: set<NamespaceId>)
    requires LinkedBut(k, s, open + {ns}) && ns !in open && Under(k, s, ns, at) && at in s.nsList
    ensures LinkedBut(k, AppendChild(s, at, ns), open)
  {
    var r := AppendChild(s, at, ns);
    forall at', x | at' in r.nsList ensures Counted(k, r, open, at', x) {
      assert Counted(k, s, open + {ns}, at', x);
    }
  }

  lemma OwnerlessKeeps(k: Kernel, s: Info, ns: NamespaceId, open: set<NamespaceId>)
    requires LinkedBut(k, s, open + {ns}) && ns !in open && ns in s.nsList && k.Up(ns) == Some(INVISIBLE)
    ensures var s2 := if INVISIBLE in s.nsList then s else WithEntry(s, INVISIBLE, CLONE_NEWUSER);
            LinkedBut(k, AppendChild(s2, INVISIBLE, ns), open)
  {
    var s2 := s;
    if INVISIBLE !in s.nsList {
      s2 := WithEntry(s, INVISIBLE, CLONE_NEWUSER);
      WithEntryKeeps(k, s, INVISIBLE, CLONE_NEWUSER, open + {ns});
      CloseTop(k, s2, INVISIBLE, open + {ns});
    }
    AppendChildKeeps(k, s2, INVISIBLE, ns, open);
  }

  lemma TopBecomesRoot(k: Kernel, s: Info, ns: NamespaceId, open: set<NamespaceId>)
    requires LinkedBut(k, s, open) && ns in s.nsList && k.Topmost(ns)
    requires forall x :: x in s.nsList ==>
               s.nsList[x].nsType == if x == INVISIBLE then CLONE_NEWUSER else k.nsType(x)
    ensures LinkedBut(k, s.(rootNS := ns), open) && RootKnown(k, s.(rootNS := ns))
  {
    forall at, x | at in s.nsList ensures Counted(k, s.(rootNS := ns), open, at, x) {
      assert Counted(k, s, open, at, x);
    }
  }

  /** The recursive insertion keeps the forest, although every namespace on the way
      up is recorded before it is linked. */
  lemma {:induction false} AddKeeps(k: Kernel, s: Info, ns: NamespaceId, pid: int, open: set<NamespaceId>)
    requires k.WellFounded() && ns != INVISIBLE
    requires LinkedBut(k, s, open) && RootKnown(k, s) && AllDeeper(k, open, ns)
    ensures LinkedBut(k, Add(k, s, ns, pid), open) && RootKnown(k, Add(k, s, ns, pid))
    decreases k.depth(ns), 1
  {
    var s1 := if ns in s.nsList then s else AddToList(k, s, ns);
    if ns !in s.nsList {
      AddToListKeeps(k, s, ns, open);
    }
    if pid > 0 {
      AppendPidKeeps(k, s1, ns, pid, open);
    }
  }

  lemma {:induction false} AddToListKeeps(k: Kernel, s: Info, ns: NamespaceId, open: set<NamespaceId>)
    requires k.WellFounded() && ns != INVISIBLE && ns !in s.nsList
    requires LinkedBut(k, s, open) && RootKnown(k, s) && AllDeeper(k, open, ns)
    ensures LinkedBut(k, AddToList(k, s, ns), open) && RootKnown(k, AddToList(k, s, ns))
    decreases k.depth(ns), 0
  {
    var s1 := WithEntry(s, ns, k.nsType(ns));
    WithEntryKeeps(k, s, ns, k.nsType(ns), open);
    match k.parent(ns)
    case None =>
      if k.Topmost(ns) {
        CloseTop(k, s1, ns, open);
        TopBecomesRoot(k, s1, ns, open);
      } else {
        OwnerlessKeeps(k, s1, ns, open);
      }
    case Some(p) =>
      AddKeeps(k, s1, p, -1, open + {ns});
      AppendChildKeeps(k, Add(k, s1, p, -1), p, ns, open);
  }

  // ----- what is recorded -----

  /** A namespace and everything above it. */
  ghost function Chain(k: Kernel, ns: NamespaceId): set<NamespaceId>
    requires k.WellFounded()
    decreases k.Rank(ns)
  {
    {ns} + if k.Up(ns).Some? then Chain(k, k.Up(ns).value) else {}
  }

  lemma {:induction false} ChainRecorded(k: Kernel, s: Info, ns: NamespaceId, open: set<NamespaceId>)
    requires k.WellFounded() && ClosedBut(k, s, open)
    requires ns in s.nsList && (ns == INVISIBLE || AllDeeper(k, open, ns))
    ensures Chain(k, ns) <= s.nsList.Keys
    decreases k.Rank(ns)
  {
    if k.Up(ns).Some? {
      ChainRecorded(k, s, k.Up(ns).value, open);
    }
  }

  /** An insertion records exactly the namespace and everything above it, and books
      the PID with that namespace only. */
  lemma {:induction false} AddRecords(k: Kernel, s: Info, ns: NamespaceId, pid: int, open: set<NamespaceId>)
    requires k.WellFounded() && ns != INVISIBLE
    requires ClosedBut(k, s, open) && AllDeeper(k, open, ns)
    ensures Add(k, s, ns, pid).nsList.Keys == s.nsList.Keys + Chain(k, ns)
    ensures forall x :: PidsOf(Add(k, s, ns, pid), x) == PidsOf(s, x) + if x == ns && pid > 0 then [pid] else []
    ensures ClosedBut(k, Add(k, s, ns, pid), open)
    decreases k.depth(ns), 1
  {
    if ns in s.nsList {
      ChainRecorded(k, s, ns, open);
    } else {
      AddToListRecords(k, s, ns, open);
    }
  }

  lemma {:induction false} AddToListRecords(k: Kernel, s: Info, ns: NamespaceId, open: set<NamespaceId>)
    requires k.WellFounded() && ns != INVISIBLE && ns !in s.nsList
    requires ClosedBut(k, s, open) && AllDeeper(k, open, ns)
    ensures AddToList(k, s, ns).nsList.Keys == s.nsList.Keys + Chain(k, ns)
    ensures forall x :: PidsOf(AddToList(k, s, ns), x) == PidsOf(s, x)
    ensures ClosedBut(k, AddToList(k, s, ns), open)
    decreases k.depth(ns), 0
  {
    var s1 := WithEntry(s, ns, k.nsType(ns));
    if k.parent(ns).Some? {
      var p := k.parent(ns).value;
      AddRecords(k, s1, p, -1, open + {ns});
      forall x ensures PidsOf(AddToList(k, s, ns), x) == PidsOf(s, x) {
        assert PidsOf(Add(k, s1, p, -1), x) == PidsOf(s1, x) == PidsOf(s, x);
      }
    }
  }

  function PidsOf(s: Info, ns: NamespaceId): seq<int> {
    if ns in s.nsList then s.nsList[ns].pids else []
  }

  /** The PIDs that the requests name for a namespace, in order. */
  function RequestedPids(requests: seq<Request>, ns: NamespaceId): seq<int> {
    if requests == [] then []
    else
      var last := requests[|requests| - 1];
      RequestedPids(requests[..|requests| - 1], ns) + if last.ns == ns && last.pid > 0 then [last.pid] else []
  }

  /** After any sequence of process insertions the list is a forest closed under
      parents, in which every namespace with a parent or owner occurs exactly once. */
  lemma {:induction false} BuiltForest(k: Kernel, requests: seq<Request>)
    requires k.WellFounded() && Real(requests)
    ensures Forest(k, AddAll(k, requests))
    decreases |requests|
  {
    if requests != [] {
      var n := |requests| - 1;
      BuiltForest(k, requests[..n]);
      AddKeeps(k, AddAll(k, requests[..n]), requests[n].ns, requests[n].pid, {});
    }
  }

  ghost predicate Asked(k: Kernel, requests: seq<Request>, x: NamespaceId)
    requires k.WellFounded()
  {
    exists i :: 0 <= i < |requests| && x in Chain(k, requests[i].ns)
  }

  lemma AskedSplit(k: Kernel, requests: seq<Request>, x: NamespaceId)
    requires k.WellFounded() && requests != []
    ensures var n := |requests| - 1;
            Asked(k, requests, x) <==> Asked(k, requests[..n], x) || x in Chain(k, requests[n].ns)
  {
    var n := |requests| - 1;
    if Asked(k, requests[..n], x) {
      var i :| 0 <= i < n && x in Chain(k, requests[..n][i].ns);
      assert x in Chain(k, requests[i].ns);
    }
    if Asked(k, requests, x) {
      var i :| 0 <= i < |requests| && x in Chain(k, requests[i].ns);
      if i < n { assert x in Chain(k, requests[..n][i].ns); }
    }
  }

  /** It records exactly the requested namespaces and everything above them, and each
      entry holds exactly the PIDs requested for it, in order. */
  lemma {:induction false} BuiltContents(k: Kernel, requests: seq<Request>, x: NamespaceId)
    requires k.WellFounded() && Real(requests)
    ensures x in AddAll(k, requests).nsList <==> Asked(k, requests, x)
    ensures PidsOf(AddAll(k, requests), x) == RequestedPids(requests, x)
    decreases |requests|
  {
    if requests != [] {
      var n := |requests| - 1;
      BuiltForest(k, requests[..n]);
      BuiltContents(k, requests[..n], x);
      AddRecords(k, AddAll(k, requests[..n]), requests[n].ns, requests[n].pid, {});
      AskedSplit(k, requests, x);
    }
  }

  // ----- the object that is updated -----

  /** The NamespaceInfo structure, whose map is changed entry by entry. */
  class NamespaceInfo {
    var nsList: map<NamespaceId, Attribs>
    var rootNS: NamespaceId

    ghost function State(): Info
      reads this
    {
      Info(nsList, rootNS)
    }

    constructor ()
      ensures State() == EMPTY
    {
      nsList, rootNS := map[], INVISIBLE;
    }

    method AddNamespace(k: Kernel, ns: NamespaceId, pid: int)
      requires k.WellFounded()
      modifies this
      ensures State() == Add(k, old(State()), ns, pid)
      decreases k.depth(ns), 1
    {
      if ns !in nsList {
        AddNamespaceToList(k, ns);
      }
      if pid > 0 {
        nsList := nsList[ns := nsList[ns].(pids := nsList[ns].pids + [pid])];
      }
    }

    method AddNamespaceToList(k: Kernel, ns: NamespaceId)
      requires k.WellFounded()
      modifies this
      ensures State() == AddToList(k, old(State()), ns)
      decreases k.depth(ns), 0
    {
      nsList := nsList[ns := Attribs(k.nsType(ns), [], [])];
      match k.parent(ns)
      case None =>
        if k.nsType(ns) == CLONE_NEWUSER || k.pidns {
          rootNS := ns;
        } else {
          if INVISIBLE !in nsList {
            nsList := nsList[INVISIBLE := Attribs(CLONE_NEWUSER, [], [])];
          }
          nsList := nsList[INVISIBLE := nsList[INVISIBLE].(children := nsList[INVISIBLE].children + [ns])];
        }
      case Some(p) =>
        AddNamespace(k, p, -1);
        nsList := nsList[p := nsList[p].(children := nsList[p].children + [ns])];
    }
  }
}
