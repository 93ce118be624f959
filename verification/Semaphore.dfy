/** The start-up and locking protocol of semdemo.c: any number of processes race
    through initsem() and then lock and unlock one System V semaphore. Each system
    call is one step, steps of different processes interleave freely, and a process
    may be killed between any two of its calls. */
module Semaphore {
  import opened Options

  type Pid = nat

  const MAX_RETRIES := 10

  /** `operated` is `sem_otime != 0`: some semop() has succeeded on it. */
  datatype Sem = Sem(id: nat, value: nat, operated: bool)

  datatype Process =
    | Started
    | Created(id: nat)               // got it first; the freeing semop() comes next
    | FreeingFailed(id: nat)         // that semop() failed; IPC_RMID comes next
    | Exists                         // someone else got it first
    | Polling(id: nat, tries: nat)   // waiting for sem_otime to be set
    | Ready(id: nat)                 // initsem() has returned; the lock comes next
    | Holding(id: nat)
    | Unlocked(id: nat)
    | Gone                           // exited, for whatever reason

  /** Whether SEM_UNDO is passed with the freeing operation of initsem(), and with
      the lock and unlock operations of main(), which share one sembuf. */
  datatype Flags = Flags(undoFreeing: bool, undoLocking: bool)

  const SOURCE := Flags(false, true)

  /** The system calls of a process, and its exit or death. */
  datatype Action = Create | Free | FreeFails | Remove | Open | Poll | Lock | Unlock | Exit

  /** One process with its undo value, and the semaphore bound to the key. */
  datatype View = View(sem: Option<Sem>, nextId: nat, proc: Process, adjust: int) {
    predicate Bound(id: nat) {
      sem.Some? && sem.value.id == id
    }

    /** A successful semop(): the value and sem_otime change, and SEM_UNDO books the
        opposite of the operation for the process's exit. */
    function Operate(op: int, undo: bool, next: Process): View
      requires sem.Some? && sem.value.value + op >= 0
    {
      View(Some(Sem(sem.value.id, sem.value.value + op, true)), nextId, next,
           if undo then adjust - op else adjust)
    }

    /** Process exit: the kernel applies the undo value, never going below zero. */
    function Leave(id: nat): View {
      if Bound(id) then
        var v := sem.value.value + adjust;
        View(Some(sem.value.(value := if v < 0 then 0 else v)), nextId, Gone, 0)
      else
        View(sem, nextId, Gone, 0)
    }
  }

  /** One system call; None when it cannot happen now (in particular, a lock blocks). */
  function Act(flags: Flags, v: View, action: Action): Option<View> {
    var q := v.proc;
    match action
    case Create =>
      if !q.Started? then None
      else if v.sem.None? then Some(View(Some(Sem(v.nextId, 0, false)), v.nextId + 1, Created(v.nextId), v.adjust))
      else Some(v.(proc := Exists))
    case Free =>
      if q.Created? && v.Bound(q.id) then Some(v.Operate(1, flags.undoFreeing, Ready(q.id))) else None
    case FreeFails =>
      if q.Created? then Some(v.(proc := FreeingFailed(q.id))) else None
    case Remove =>
      if !q.FreeingFailed? then None
      else if v.Bound(q.id) then Some(v.(sem := None, proc := Gone))
      else Some(v.(proc := Gone))
    case Open =>
      if q.Exists? then Some(v.(proc := if v.sem.Some? then Polling(v.sem.value.id, 0) else Gone)) else None
    case Poll =>
      if !q.Polling? then None
      else if !v.Bound(q.id) then Some(v.Leave(q.id))
      else if v.sem.value.operated then Some(v.(proc := Ready(q.id)))
      else if q.tries + 1 < MAX_RETRIES then Some(v.(proc := Polling(q.id, q.tries + 1)))
      else Some(v.Leave(q.id))
    case Lock =>
      if !q.Ready? then None
      else if !v.Bound(q.id) then Some(v.Leave(q.id))
      else if v.sem.value.value == 0 then None
      else Some(v.Operate(-1, flags.undoLocking, Holding(q.id)))
    case Unlock =>
      if !q.Holding? then None
      else if !v.Bound(q.id) then Some(v.Leave(q.id))
      else Some(v.Operate(1, flags.undoLocking, Unlocked(q.id)))
    case Exit =>
      if q.Gone? then None
      else if q.Started? || q.Exists? then Some(v.(proc := Gone))
      else Some(v.Leave(q.id))
  }

  datatype State = State(sem: Option<Sem>, nextId: nat, procs: map<Pid, Process>, adjust: map<Pid, int>)

  const INIT := State(None, 0, map[], map[])

  datatype Event = Spawn(p: Pid) | Call(p: Pid, action: Action)

  function ViewOf(s: State, p: Pid): View
    requires p in s.procs && p in s.adjust
  {
    View(s.sem, s.nextId, s.procs[p], s.adjust[p])
  }

  function Next(flags: Flags, s: State, e: Event): Option<State> {
    match e
    case Spawn(p) =>
      if p in s.procs then None
      else Some(s.(procs := s.procs[p := Started], adjust := s.adjust[p := 0]))
    case Call(p, action) =>
      if p !in s.procs || p !in s.adjust then None
      else
        match Act(flags, ViewOf(s, p), action)
        case None => None
        case Some(v) => Some(State(v.sem, v.nextId, s.procs[p := v.proc], s.adjust[p := v.adjust]))
  }

  function Run(flags: Flags, events: seq<Event>): Option<State> {
    if events == [] then Some(INIT)
    else
      match Run(flags, events[..|events| - 1])
      case None => None
      case Some(s) => Next(flags, s, events[|events| - 1])
  }

  ghost predicate Reachable(flags: Flags, s: State) {
    exists events :: Run(flags, events) == Some(s)
  }

  ghost function Holders(s: State): set<Pid> {
    set p | p in s.procs && s.procs[p].Holding?
  }

  /** What the source relies on: before the semaphore is freed its value is 0 and
      nobody holds it; from then on its value and its holders add up to one. */
  ghost predicate Conserved(s: State) {
    s.sem.Some? ==>
      s.sem.value.value + |Holders(s)| == (if s.sem.value.operated then 1 else 0)
  }

  // ----- the start-up gate -----

  predicate PastGate(q: Process) {
    q.Ready? || q.Holding? || q.Unlocked?
  }

  predicate Starting(q: Process) {
    q.Created? || q.FreeingFailed?
  }

  predicate SemInv(sem: Option<Sem>, nextId: nat) {
    sem.Some? ==> sem.value.id < nextId && (!sem.value.operated ==> sem.value.value == 0)
  }

  /** What one process's position says about the semaphore: while it is being freed
      it is unused, and past the gate it has been used. */
  predicate ProcessInv(sem: Option<Sem>, q: Process, adjust: int) {
    && (Starting(q) ==> sem.Some? && sem.value.id == q.id && !sem.value.operated)
    && (PastGate(q) ==> sem.Some? && sem.value.id == q.id && sem.value.operated)
    && (adjust != 0 ==> PastGate(q))
    && (q.Polling? ==> q.tries < MAX_RETRIES)
  }

  lemma ActKeepsOwn(flags: Flags, v: View, action: Action)
    requires SemInv(v.sem, v.nextId) && ProcessInv(v.sem, v.proc, v.adjust) && Act(flags, v, action).Some?
    ensures var v' := Act(flags, v, action).value;
            SemInv(v'.sem, v'.nextId) && ProcessInv(v'.sem, v'.proc, v'.adjust)
  {
  }

  lemma ActKeepsOther(flags: Flags, v: View, action: Action, q: Process, adjust: int)
    requires ProcessInv(v.sem, v.proc, v.adjust) && ProcessInv(v.sem, q, adjust)
    requires !(Starting(v.proc) && Starting(q))
    requires Act(flags, v, action).Some?
    ensures var v' := Act(flags, v, action).value;
            ProcessInv(v'.sem, q, adjust) && !(Starting(v'.proc) && Starting(q))
  {
  }

  ghost predicate OneStarter(s: State) {
    forall p, q :: p in s.procs && q in s.procs && p != q ==> !(Starting(s.procs[p]) && Starting(s.procs[q]))
  }

  /** Start-up facts that hold in every run, whatever the flags. */
  ghost predicate GateInv(s: State) {
    && s.adjust.Keys == s.procs.Keys
    && SemInv(s.sem, s.nextId)
    && OneStarter(s)
    && (forall p :: p in s.procs ==> ProcessInv(s.sem, s.procs[p], s.adjust[p]))
  }

  lemma GateInvStep(flags: Flags, s: State, e: Event)
    requires GateInv(s) && Next(flags, s, e).Some?
    ensures GateInv(Next(flags, s, e).value)
  {
    var s' := Next(flags, s, e).value;
    if e.Call? {
      var v := ViewOf(s, e.p);
      ActKeepsOwn(flags, v, e.action);
      forall r | r in s.procs && r != e.p
        ensures ProcessInv(s'.sem, s.procs[r], s.adjust[r]) && !(Starting(s'.procs[e.p]) && Starting(s.procs[r]))
      {
        ActKeepsOther(flags, v, e.action, s.procs[r], s.adjust[r]);
      }
    }
  }

  // ----- mutual exclusion -----

  function Held(q: Process): nat {
    if q.Holding? then 1 else 0
  }

  /** Tokens in the semaphore and in the hands of `holders` processes. */
  function Tokens(sem: Option<Sem>, holders: nat): nat {
    (if sem.Some? then sem.value.value else 0) + holders
  }

  /** What a process may get undone at its exit: never more than it holds. */
  function MostOwed(flags: Flags, q: Process): nat {
    if flags.undoLocking then Held(q) else 0
  }

  ghost predicate LockInv(flags: Flags, s: State) {
    && GateInv(s)
    && (forall p :: p in s.procs ==> s.adjust[p] <= MostOwed(flags, s.procs[p]))
    && Tokens(s.sem, |Holders(s)|) <= 1
  }

  /** A call keeps a bound of one on the tokens; `others` hold it elsewhere. */
  lemma ActKeepsBound(flags: Flags, v: View, action: Action, others: nat)
    requires SemInv(v.sem, v.nextId) && ProcessInv(v.sem, v.proc, v.adjust)
    requires v.adjust <= MostOwed(flags, v.proc) && Tokens(v.sem, others + Held(v.proc)) <= 1
    requires v.sem.None? || !v.sem.value.operated ==> others == 0
    requires Act(flags, v, action).Some?
    ensures var v' := Act(flags, v, action).value;
            v'.adjust <= MostOwed(flags, v'.proc) && Tokens(v'.sem, others + Held(v'.proc)) <= 1
  {
  }

  /** How moving one process changes the number of holders. */
  lemma HoldersMove(s: State, s': State, p: Pid)
    requires p in s'.procs && s'.procs == s.procs[p := s'.procs[p]]
    ensures |Holders(s) - {p}| == |Holders(s)| - (if p in s.procs then Held(s.procs[p]) else 0)
    ensures |Holders(s')| == |Holders(s) - {p}| + Held(s'.procs[p])
  {
    assert Holders(s') == (Holders(s) - {p}) + if s'.procs[p].Holding? then {p} else {};
  }

  /** Someone other than p holding the lock shows that the semaphore is in use. */
  lemma OthersNeedUse(s: State, p: Pid)
    requires GateInv(s) && Holders(s) - {p} != {}
    ensures s.sem.Some? && s.sem.value.operated
  {
    var r :| r in Holders(s) - {p};
    assert ProcessInv(s.sem, s.procs[r], s.adjust[r]);
  }

  lemma LockInvStep(flags: Flags, s: State, e: Event)
    requires LockInv(flags, s) && Next(flags, s, e).Some?
    ensures LockInv(flags, Next(flags, s, e).value)
  {
    GateInvStep(flags, s, e);
    HoldersMove(s, Next(flags, s, e).value, e.p);
    if e.Call? {
      if Holders(s) - {e.p} != {} { OthersNeedUse(s, e.p); }
      ActKeepsBound(flags, ViewOf(s, e.p), e.action, |Holders(s) - {e.p}|);
    }
  }

  lemma {:induction false} LockInvAlways(flags: Flags, events: seq<Event>)
    requires Run(flags, events).Some?
    ensures LockInv(flags, Run(flags, events).value)
    decreases |events|
  {
    if events == [] {
      assert Holders(INIT) == {};
    } else {
      LockInvAlways(flags, events[..|events| - 1]);
      LockInvStep(flags, Run(flags, events[..|events| - 1]).value, events[|events| - 1]);
    }
  }

  /** In every run, with any flags, at most one process holds the lock. */
  lemma MutualExclusion(flags: Flags, s: State, p: Pid, q: Pid)
    requires Reachable(flags, s)
    requires p in Holders(s) && q in Holders(s)
    ensures p == q
  {
    var events :| Run(flags, events) == Some(s);
    LockInvAlways(flags, events);
    var rest := Holders(s) - {p};
    assert |rest| == 0;
    assert q !in rest;
  }

  // ----- conservation -----

  /** With the flags of the source, a process owes the semaphore exactly what it holds. */
  ghost predicate ConservationInv(s: State) {
    && LockInv(SOURCE, s)
    && Conserved(s)
    && (forall p :: p in s.procs ==> s.adjust[p] == Held(s.procs[p]))
  }

  function Target(sem: Option<Sem>): nat {
    if sem.Some? && sem.value.operated then 1 else 0
  }

  lemma ActConserves(v: View, action: Action, others: nat)
    requires SemInv(v.sem, v.nextId) && ProcessInv(v.sem, v.proc, v.adjust)
    requires v.adjust == Held(v.proc)
    requires v.sem.Some? ==> Tokens(v.sem, others + Held(v.proc)) == Target(v.sem)
    requires v.sem.None? || !v.sem.value.operated ==> others == 0
    requires Act(SOURCE, v, action).Some?
    ensures var v' := Act(SOURCE, v, action).value;
            && v'.adjust == Held(v'.proc)
            && (v'.sem.Some? ==> Tokens(v'.sem, others + Held(v'.proc)) == Target(v'.sem))
  {
  }

  lemma ConservedStep(s: State, e: Event)
    requires ConservationInv(s) && Next(SOURCE, s, e).Some?
    ensures Conserved(Next(SOURCE, s, e).value)
    ensures e.p in Next(SOURCE, s, e).value.procs && e.p in Next(SOURCE, s, e).value.adjust
    ensures Next(SOURCE, s, e).value.adjust[e.p] == Held(Next(SOURCE, s, e).value.procs[e.p])
  {
    HoldersMove(s, Next(SOURCE, s, e).value, e.p);
    if e.Call? {
      if Holders(s) - {e.p} != {} { OthersNeedUse(s, e.p); }
      ActConserves(ViewOf(s, e.p), e.action, |Holders(s) - {e.p}|);
    }
  }

  lemma ConservationStep(s: State, e: Event)
    requires ConservationInv(s) && Next(SOURCE, s, e).Some?
    ensures ConservationInv(Next(SOURCE, s, e).value)
  {
    LockInvStep(SOURCE, s, e);
    ConservedStep(s, e);
  }

  lemma {:induction false} ConservationAlways(events: seq<Event>)
    requires Run(SOURCE, events).Some?
    ensures ConservationInv(Run(SOURCE, events).value)
    decreases |events|
  {
    if events == [] {
      assert Holders(INIT) == {};
    } else {
      ConservationAlways(events[..|events| - 1]);
      ConservationStep(Run(SOURCE, events[..|events| - 1]).value, events[|events| - 1]);
    }
  }

  /** Process 0 on its own. */
  function Solo(v: View): State {
    State(v.sem, v.nextId, map[0 := v.proc], map[0 := v.adjust])
  }

  lemma SoloStep(flags: Flags, s: View, action: Action)
    requires Reachable(flags, Solo(s)) && Act(flags, s, action).Some?
    ensures Reachable(flags, Solo(Act(flags, s, action).value))
  {
    var events :| Run(flags, events) == Some(Solo(s));
    var v := Act(flags, s, action).value;
    var longer := events + [Call(0, action)];
    assert longer[..|events|] == events;
    assert Solo(s).procs[0 := v.proc] == Solo(v).procs && Solo(s).adjust[0 := v.adjust] == Solo(v).adjust;
    assert Run(flags, longer) == Some(Solo(v));
  }

  lemma SoloFrees(flags: Flags) returns (v: View)
    ensures Reachable(flags, Solo(v))
    ensures v == View(Some(Sem(0, 1, true)), 1, Ready(0), if flags.undoFreeing then -1 else 0)
  {
    var v1 := View(None, 0, Started, 0);
    assert [Spawn(0)][..0] == [];
    assert Run(flags, [Spawn(0)]) == Some(Solo(v1));
    SoloStep(flags, v1, Create);
    var v2 := View(Some(Sem(0, 0, false)), 1, Created(0), 0);
    SoloStep(flags, v2, Free);
    v := Act(flags, v2, Free).value;
  }

  /** A freed semaphore can lose its only token: the creator exits and takes it back,
      or a holder dies without giving it back. */
  lemma TokenCanBeLost(flags: Flags) returns (s: State)
    requires flags != SOURCE
    ensures Reachable(flags, s) && !Conserved(s)
  {
    var v := SoloFrees(flags);
    if !flags.undoFreeing {
      SoloStep(flags, v, Lock);
      v := Act(flags, v, Lock).value;
    }
    SoloStep(flags, v, Exit);
    s := Solo(Act(flags, v, Exit).value);
    assert Holders(s) == {};
  }

  /** Value plus holders is conserved in every run exactly for the flags the source
      chose: none when freeing, SEM_UNDO when locking and unlocking. */
  lemma ConservedIffSourceFlags(flags: Flags)
    ensures (forall s :: Reachable(flags, s) ==> Conserved(s)) <==> flags == SOURCE
  {
    if flags == SOURCE {
      forall s | Reachable(flags, s) ensures Conserved(s) {
        var events :| Run(flags, events) == Some(s);
        ConservationAlways(events);
      }
    } else {
      var s := TokenCanBeLost(flags);
    }
  }

  /** So a process at the lock is blocked only while some process really holds it. */
  lemma BlockedOnlyByHolder(s: State, p: Pid)
    requires Reachable(SOURCE, s) && p in s.procs && s.procs[p].Ready?
    ensures Next(SOURCE, s, Call(p, Lock)).None? <==> Holders(s) != {}
  {
    var events :| Run(SOURCE, events) == Some(s);
    ConservationAlways(events);
    assert ProcessInv(s.sem, s.procs[p], s.adjust[p]);
  }

  /** Once every process has gone, however it went, a freed semaphore is free again. */
  lemma AllGoneLeavesItFree(s: State)
    requires Reachable(SOURCE, s) && s.sem.Some? && s.sem.value.operated
    requires forall p :: p in s.procs ==> s.procs[p].Gone?
    ensures s.sem.value.value == 1
  {
    var events :| Run(SOURCE, events) == Some(s);
    ConservationAlways(events);
    assert Holders(s) == {};
  }

  // ----- nobody passes initsem() early -----

  /** Event k of the run is the creator of semaphore `id` freeing it. */
  ghost predicate FreedAt(flags: Flags, events: seq<Event>, k: nat, id: nat) {
    && k < |events| && events[k].Call? && events[k].action.Free?
    && var before := Run(flags, events[..k]);
       before.Some? && events[k].p in before.value.procs && before.value.procs[events[k].p] == Created(id)
  }

  /** A call other than Free neither binds another semaphore to the key nor is the
      first to operate on it. */
  lemma OnlyFreeStartsUse(flags: Flags, v: View, action: Action)
    requires ProcessInv(v.sem, v.proc, v.adjust) && Act(flags, v, action).Some?
    requires var v' := Act(flags, v, action).value; v'.sem.Some? && v'.sem.value.operated
    ensures var id := Act(flags, v, action).value.sem.value.id;
            || (action.Free? && v.proc == Created(id))
            || (v.sem.Some? && v.sem.value.operated && v.sem.value.id == id)
  {
  }

  /** A semaphore that has been operated on was freed by its creator first. */
  lemma {:induction false} OperatedWasFreed(flags: Flags, events: seq<Event>) returns (k: nat)
    requires Run(flags, events).Some?
    requires var s := Run(flags, events).value; s.sem.Some? && s.sem.value.operated
    ensures FreedAt(flags, events, k, Run(flags, events).value.sem.value.id)
    decreases |events|
  {
    var n := |events| - 1;
    var before := Run(flags, events[..n]).value;
    var e := events[n];
    LockInvAlways(flags, events[..n]);
    if e.Call? { OnlyFreeStartsUse(flags, ViewOf(before, e.p), e.action); }
    if e.Call? && e.action.Free? && before.procs[e.p].Created? {
      k := n;
    } else {
      k := OperatedWasFreed(flags, events[..n]);
      assert events[..n][..k] == events[..k];
    }
  }

  /** In every run, a process that got past initsem() did so after the creator's
      increment of that very semaphore. */
  lemma GateOpensAfterFreeing(flags: Flags, events: seq<Event>, p: Pid) returns (k: nat)
    requires Run(flags, events).Some?
    requires var s := Run(flags, events).value; p in s.procs && PastGate(s.procs[p])
    ensures FreedAt(flags, events, k, Run(flags, events).value.procs[p].id)
  {
    LockInvAlways(flags, events);
    var s := Run(flags, events).value;
    assert ProcessInv(s.sem, s.procs[p], s.adjust[p]);
    k := OperatedWasFreed(flags, events);
  }
}
