/** What the start-up protocol of semdemo.c lets happen: who gets past initsem() and to the
    lock, when a waiting process gives up, and when nobody can get in any more. */
module SemaphoreProgress {
  import opened Options
  import opened Semaphore

  /** Process p alone goes on. */
  function Calls(flags: Flags, s: State, p: Pid, actions: seq<Action>): Option<State>
    decreases |actions|
  {
    if actions == [] then Some(s)
    else
      match Next(flags, s, Call(p, actions[0]))
      case None => None
      case Some(s') => Calls(flags, s', p, actions[1..])
  }

  predicate Freed(s: State) {
    s.sem.Some? && s.sem.value.operated
  }

  predicate At(s: State, p: Pid, q: Process) {
    p in s.procs && s.procs[p] == q
  }

  /** With calls of its own, and without being killed, p comes to q. */
  ghost predicate ComesTo(flags: Flags, s: State, p: Pid, q: Process) {
    exists actions :: Leads(flags, s, p, actions, q)
  }

  ghost predicate Leads(flags: Flags, s: State, p: Pid, actions: seq<Action>, q: Process) {
    && Exit !in actions
    && Calls(flags, s, p, actions).Some? && At(Calls(flags, s, p, actions).value, p, q)
  }

  lemma {:induction false} CallsAppend(flags: Flags, s: State, p: Pid, a: seq<Action>, b: seq<Action>)
    requires Calls(flags, s, p, a).Some?
    ensures Calls(flags, s, p, a + b) == Calls(flags, Calls(flags, s, p, a).value, p, b)
    decreases |a|
  {
    if a == [] {
      assert a + b == b;
    } else {
      assert (a + b)[1..] == a[1..] + b;
      CallsAppend(flags, Next(flags, s, Call(p, a[0])).value, p, a[1..], b);
    }
  }

  lemma OneCall(flags: Flags, s: State, p: Pid, action: Action)
    requires Next(flags, s, Call(p, action)).Some?
    ensures Calls(flags, s, p, [action]) == Next(flags, s, Call(p, action))
  {
    assert [action][1..] == [];
  }

  lemma {:induction false} CallsReach(flags: Flags, s: State, p: Pid, actions: seq<Action>)
    requires Reachable(flags, s) && Calls(flags, s, p, actions).Some?
    ensures Reachable(flags, Calls(flags, s, p, actions).value)
    decreases |actions|
  {
    if actions != [] {
      StepReaches(flags, s, Call(p, actions[0]));
      CallsReach(flags, Next(flags, s, Call(p, actions[0])).value, p, actions[1..]);
    }
  }

  lemma StepReaches(flags: Flags, s: State, e: Event)
    requires Reachable(flags, s) && Next(flags, s, e).Some?
    ensures Reachable(flags, Next(flags, s, e).value)
  {
    var events :| Run(flags, events) == Some(s);
    assert (events + [e])[..|events|] == events;
    assert Run(flags, events + [e]) == Next(flags, s, e);
  }

  lemma ReachableInv(flags: Flags, s: State)
    requires Reachable(flags, s)
    ensures LockInv(flags, s) && (flags == SOURCE ==> ConservationInv(s))
  {
    var events :| Run(flags, events) == Some(s);
    LockInvAlways(flags, events);
    if flags == SOURCE { ConservationAlways(events); }
  }

  // ----- getting in -----

  predicate Waiting(q: Process) {
    q.Started? || q.Exists? || q.Polling?
  }

  /** It waits for a semaphore that is there no more. */
  predicate Outdated(s: State, q: Process) {
    q.Polling? && !(s.sem.Some? && s.sem.value.id == q.id)
  }

  /** The calls that a waiting process has still to make in initsem(). */
  function Remaining(q: Process): seq<Action> {
    match q
    case Started => [Create, Open, Poll]
    case Exists => [Open, Poll]
    case _ => [Poll]
  }

  /** The state in which p is elsewhere and nothing else has changed. */
  function Moved(s: State, p: Pid, q: Process): State {
    s.(procs := s.procs[p := q])
  }

  function AfterNext(s: State, q: Process): Process
    requires Freed(s)
  {
    if q.Started? then Exists else if q.Exists? then Polling(s.sem.value.id, 0) else Ready(s.sem.value.id)
  }

  lemma NextInInitsem(s: State, p: Pid)
    requires Freed(s) && p in s.procs && p in s.adjust && Waiting(s.procs[p]) && !Outdated(s, s.procs[p])
    ensures Next(SOURCE, s, Call(p, Remaining(s.procs[p])[0])) == Some(Moved(s, p, AfterNext(s, s.procs[p])))
  {
    assert s.adjust[p := s.adjust[p]] == s.adjust;
  }

  lemma {:induction false} GetsIn(s: State, p: Pid)
    requires Freed(s) && p in s.procs && p in s.adjust && Waiting(s.procs[p]) && !Outdated(s, s.procs[p])
    ensures Calls(SOURCE, s, p, Remaining(s.procs[p])) == Some(Moved(s, p, Ready(s.sem.value.id)))
    decreases |Remaining(s.procs[p])|
  {
    var q, next := s.procs[p], AfterNext(s, s.procs[p]);
    NextInInitsem(s, p);
    if q.Polling? {
      OneCall(SOURCE, s, p, Poll);
    } else {
      GetsIn(Moved(s, p, next), p);
      assert Remaining(q)[1..] == Remaining(next);
      assert Moved(Moved(s, p, next), p, Ready(s.sem.value.id)) == Moved(s, p, Ready(s.sem.value.id));
    }
  }

  lemma {:induction false} OutdatedNeverGetsIn(s: State, p: Pid, actions: seq<Action>, id: nat)
    requires p in s.procs && Outdated(s, s.procs[p])
    ensures !Leads(SOURCE, s, p, actions, Ready(id))
  {
    if actions != [] && Calls(SOURCE, s, p, actions).Some? && Exit !in actions {
      assert actions[0] in actions;
      var s' := Next(SOURCE, s, Call(p, actions[0])).value;
      assert At(s', p, Gone);
      GoneStaysGone(s', p, actions[1..]);
    }
  }

  lemma GoneStaysGone(s: State, p: Pid, actions: seq<Action>)
    requires At(s, p, Gone) && Calls(SOURCE, s, p, actions).Some?
    ensures Calls(SOURCE, s, p, actions).value == s
  {
  }

  /** With a freed semaphore, a process that has not come past initsem() gets past it by its
      own calls, to that very semaphore, if and only if it does not wait for an earlier one. */
  lemma GetsInIff(s: State, p: Pid)
    requires Reachable(SOURCE, s) && Freed(s) && p in s.procs && Waiting(s.procs[p])
    ensures ComesTo(SOURCE, s, p, Ready(s.sem.value.id)) <==> !Outdated(s, s.procs[p])
  {
    var id := s.sem.value.id;
    if Outdated(s, s.procs[p]) {
      forall actions ensures !Leads(SOURCE, s, p, actions, Ready(id)) {
        OutdatedNeverGetsIn(s, p, actions, id);
      }
    } else {
      ReachableInv(SOURCE, s);
      GetsIn(s, p);
      assert Leads(SOURCE, s, p, Remaining(s.procs[p]), Ready(id));
    }
  }

  /** This can happen: process 1 waits for the semaphore that 0 has made; freeing it fails, so
      that 0 takes it away, and 2 makes and frees another. */
  lemma OutdatedHappens() returns (s: State)
    ensures Reachable(SOURCE, s) && Freed(s) && 1 in s.procs && Outdated(s, s.procs[1])
  {
    s := WaitingAlone();
    s := After(s, Spawn(2));
    s := After(s, Call(2, Create));
    s := After(s, Call(2, Free));
  }

  lemma WaitingAlone() returns (s: State)
    ensures Reachable(SOURCE, s) && s.sem.None? && s.nextId == 1 && At(s, 1, Polling(0, 0)) && 2 !in s.procs
  {
    assert Run(SOURCE, []) == Some(INIT);
    s := After(INIT, Spawn(0));
    s := After(s, Call(0, Create));
    s := After(s, Spawn(1));
    s := After(s, Call(1, Create));
    s := After(s, Call(1, Open));
    s := After(s, Call(0, FreeFails));
    s := After(s, Call(0, Remove));
  }

  lemma After(s: State, e: Event) returns (s': State)
    requires Reachable(SOURCE, s) && Next(SOURCE, s, e).Some?
    ensures s' == Next(SOURCE, s, e).value && Reachable(SOURCE, s')
  {
    s' := Next(SOURCE, s, e).value;
    StepReaches(SOURCE, s, e);
  }

  /** A process that finds the semaphore gone, at its second semget() or while it waits, gives
      up at that call and changes nothing. */
  lemma GivesUpWithout(flags: Flags, s: State, p: Pid)
    requires Reachable(flags, s) && p in s.procs
    requires (s.procs[p].Exists? && s.sem.None?) || Outdated(s, s.procs[p])
    ensures var call := if s.procs[p].Exists? then Open else Poll;
            Next(flags, s, Call(p, call)) == Some(Moved(s, p, Gone))
  {
    ReachableInv(flags, s);
    assert ProcessInv(s.sem, s.procs[p], s.adjust[p]);
    assert s.adjust[p := 0] == s.adjust;
  }

  /** A process at a free lock gets it, gives it back, and leaves all as it was. */
  ghost predicate LockIsOpen(s: State, p: Pid, id: nat) {
    && Next(SOURCE, s, Call(p, Lock)).Some?
    && var held := Next(SOURCE, s, Call(p, Lock)).value;
       && At(held, p, Holding(id)) && held.sem == Some(Sem(id, 0, true))
       && Next(SOURCE, held, Call(p, Unlock)) == Some(Moved(s, p, Unlocked(id)))
       && Next(SOURCE, Moved(s, p, Unlocked(id)), Call(p, Exit)) == Some(Moved(s, p, Gone))
  }

  lemma FreeLockIsOpen(s: State, p: Pid, id: nat)
    requires s.sem == Some(Sem(id, 1, true)) && At(s, p, Ready(id)) && p in s.adjust && s.adjust[p] == 0
    ensures LockIsOpen(s, p, id)
  {
    assert s.adjust[p := 0] == s.adjust;
    var held := Next(SOURCE, s, Call(p, Lock)).value;
    assert held.procs[p := Unlocked(id)] == s.procs[p := Unlocked(id)];
    assert held.adjust[p := 0] == s.adjust;
    assert Moved(s, p, Unlocked(id)).procs[p := Gone] == Moved(s, p, Gone).procs;
  }

  /** So is the lock of a freed semaphore if nobody holds it. */
  lemma LocksAndUnlocks(s: State, p: Pid)
    requires Reachable(SOURCE, s) && Freed(s) && Holders(s) == {} && At(s, p, Ready(s.sem.value.id))
    ensures s.sem.value.value == 1 && LockIsOpen(s, p, s.sem.value.id)
  {
    ReachableInv(SOURCE, s);
    FreeLockIsOpen(s, p, s.sem.value.id);
  }

  /** So every such process can go all the way. */
  lemma GoesAllTheWay(s: State, p: Pid) returns (actions: seq<Action>)
    requires Reachable(SOURCE, s) && Freed(s) && Holders(s) == {} && p in s.procs
    requires Waiting(s.procs[p]) && !Outdated(s, s.procs[p])
    ensures Leads(SOURCE, s, p, actions + [Lock], Holding(s.sem.value.id))
    ensures Leads(SOURCE, s, p, actions + [Lock] + [Unlock], Unlocked(s.sem.value.id))
  {
    var id := s.sem.value.id;
    actions := Remaining(s.procs[p]);
    ReachableInv(SOURCE, s);
    GetsIn(s, p);
    CallsReach(SOURCE, s, p, actions);
    var ready := Moved(s, p, Ready(id));
    assert Holders(ready) == {};
    LocksAndUnlocks(ready, p);
    var held := Next(SOURCE, ready, Call(p, Lock)).value;
    OneCall(SOURCE, ready, p, Lock);
    OneCall(SOURCE, held, p, Unlock);
    CallsAppend(SOURCE, s, p, actions, [Lock]);
    CallsAppend(SOURCE, s, p, actions + [Lock], [Unlock]);
  }

  /** Where there is no semaphore, a process makes one and is past initsem() two calls later;
      if freeing it fails, it takes the semaphore away again. */
  lemma CreatorGetsIn(s: State, p: Pid)
    requires Reachable(SOURCE, s) && s.sem.None? && At(s, p, Started)
    ensures var made := Next(SOURCE, s, Call(p, Create));
            && made
            == Some(Moved(s, p, Created(s.nextId)).(sem := Some(Sem(s.nextId, 0, false)), nextId := s.nextId + 1))
            && Next(SOURCE, made.value, Call(p, Free))
            == Some(Moved(s, p, Ready(s.nextId)).(sem := Some(Sem(s.nextId, 1, true)), nextId := s.nextId + 1))
            && Calls(SOURCE, made.value, p, [FreeFails, Remove]) == Some(Moved(s, p, Gone).(nextId := s.nextId + 1))
  {
    ReachableInv(SOURCE, s);
    assert s.adjust[p] == 0 && s.adjust[p := 0] == s.adjust;
    var made := Next(SOURCE, s, Call(p, Create)).value;
    var failed := Next(SOURCE, made, Call(p, FreeFails)).value;
    OneCall(SOURCE, made, p, FreeFails);
    OneCall(SOURCE, failed, p, Remove);
    CallsAppend(SOURCE, made, p, [FreeFails], [Remove]);
    assert [FreeFails] + [Remove] == [FreeFails, Remove];
    assert made.procs[p := Ready(s.nextId)] == s.procs[p := Ready(s.nextId)];
    assert failed.procs[p := Gone] == s.procs[p := Gone];
  }

  // ----- giving up -----

  /** How often p has asked whether the semaphore is free. */
  function Polls(events: seq<Event>, p: Pid): nat {
    if events == [] then 0
    else
      var n := |events| - 1;
      Polls(events[..n], p) + if events[n] == Call(p, Poll) then 1 else 0
  }

  /** Every time it has found it there and not operated on. */
  ghost predicate FoundUnused(flags: Flags, events: seq<Event>, p: Pid, id: nat) {
    forall k :: 0 <= k < |events| && events[k] == Call(p, Poll) ==> UnusedAt(flags, events, k, id)
  }

  ghost predicate UnusedAt(flags: Flags, events: seq<Event>, k: nat, id: nat)
    requires k < |events|
  {
    var s := Run(flags, events[..k]);
    s.Some? && s.value.sem.Some? && s.value.sem.value.id == id && !s.value.sem.value.operated
  }

  lemma FoundUnusedMore(flags: Flags, events: seq<Event>, e: Event, p: Pid, id: nat)
    ensures FoundUnused(flags, events + [e], p, id)
       <==> FoundUnused(flags, events, p, id) && (e == Call(p, Poll) ==> UnusedAt(flags, events + [e], |events|, id))
  {
    var all := events + [e];
    forall k: nat | k < |events| ensures UnusedAt(flags, all, k, id) == UnusedAt(flags, events, k, id) {
      assert all[..k] == events[..k];
    }
    if FoundUnused(flags, all, p, id) {
      forall k | 0 <= k < |events| && events[k] == Call(p, Poll) ensures UnusedAt(flags, events, k, id) {
        assert all[k] == events[k];
      }
    }
  }

  lemma {:induction false} PollsCounted(flags: Flags, events: seq<Event>, p: Pid)
    requires Run(flags, events).Some?
    ensures var s := Run(flags, events).value;
            && (p !in s.procs || s.procs[p].Started? || s.procs[p].Exists? || Starting(s.procs[p]) ==>
                  Polls(events, p) == 0)
            && (p in s.procs && s.procs[p].Polling? ==>
                  s.procs[p].tries == Polls(events, p) && FoundUnused(flags, events, p, s.procs[p].id))
    decreases |events|
  {
    if events != [] {
      var n := |events| - 1;
      var before, e, s := Run(flags, events[..n]).value, events[n], Run(flags, events).value;
      PollsCounted(flags, events[..n], p);
      assert events[..n] + [e] == events;
      if p in s.procs && s.procs[p].Polling? {
        var id := s.procs[p].id;
        FoundUnusedMore(flags, events[..n], e, p, id);
        if !before.procs[p].Polling? { NeverPolled(flags, events[..n], p, id); }
      }
    }
  }

  lemma {:induction false} NeverPolled(flags: Flags, events: seq<Event>, p: Pid, id: nat)
    requires Polls(events, p) == 0
    ensures FoundUnused(flags, events, p, id)
    decreases |events|
  {
    if events != [] {
      var n := |events| - 1;
      NeverPolled(flags, events[..n], p, id);
      assert events[..n] + [events[n]] == events;
      FoundUnusedMore(flags, events[..n], events[n], p, id);
    }
  }

  /** A process that asks about a semaphore that is still there gives up exactly when it has
      now asked MAX_RETRIES times and has found it unused every time; it goes on exactly when
      the semaphore has been operated on. */
  lemma GivesUpIff(flags: Flags, events: seq<Event>, p: Pid, id: nat)
    requires Run(flags, events).Some?
    requires var s := Run(flags, events).value;
             p in s.procs && s.procs[p].Polling? && s.procs[p].id == id && s.sem.Some? && s.sem.value.id == id
    ensures var all := events + [Call(p, Poll)];
            && Run(flags, all).Some? && p in Run(flags, all).value.procs
            && var q := Run(flags, all).value.procs[p];
               && (q == Gone <==> Polls(all, p) == MAX_RETRIES && FoundUnused(flags, all, p, id))
               && (q == Ready(id) <==> Freed(Run(flags, events).value))
               && (q == Gone || q == Ready(id) || q == Polling(id, Polls(all, p)))
  {
    var s, all := Run(flags, events).value, events + [Call(p, Poll)];
    assert all[..|events|] == events;
    LockInvAlways(flags, events);
    assert ProcessInv(s.sem, s.procs[p], s.adjust[p]);
    PollsCounted(flags, events, p);
    FoundUnusedMore(flags, events, Call(p, Poll), p, id);
  }

  // ----- when nobody gets in -----

  function RunFrom(flags: Flags, s: State, events: seq<Event>): Option<State> {
    if events == [] then Some(s)
    else
      match RunFrom(flags, s, events[..|events| - 1])
      case None => None
      case Some(s') => Next(flags, s', events[|events| - 1])
  }

  /** The semaphore is there, unused, and nobody is about to free it or take it away. */
  ghost predicate Abandoned(s: State, sem: Sem) {
    s.sem == Some(sem) && !sem.operated && forall p :: p in s.procs ==> !Starting(s.procs[p])
  }

  lemma AbandonedStep(flags: Flags, s: State, sem: Sem, e: Event)
    requires GateInv(s) && Abandoned(s, sem) && Next(flags, s, e).Some?
    ensures Abandoned(Next(flags, s, e).value, sem)
  {
    if e.Call? {
      assert ProcessInv(s.sem, s.procs[e.p], s.adjust[e.p]);
      AbandonedAct(flags, ViewOf(s, e.p), e.action);
    }
  }

  lemma AbandonedAct(flags: Flags, v: View, action: Action)
    requires v.sem.Some? && !v.sem.value.operated && !Starting(v.proc)
    requires ProcessInv(v.sem, v.proc, v.adjust) && Act(flags, v, action).Some?
    ensures var v' := Act(flags, v, action).value; v'.sem == v.sem && !Starting(v'.proc)
  {
  }

  lemma {:induction false} AbandonedForever(flags: Flags, s: State, sem: Sem, events: seq<Event>)
    requires GateInv(s) && Abandoned(s, sem) && RunFrom(flags, s, events).Some?
    ensures GateInv(RunFrom(flags, s, events).value) && Abandoned(RunFrom(flags, s, events).value, sem)
    decreases |events|
  {
    if events != [] {
      var n := |events| - 1;
      AbandonedForever(flags, s, sem, events[..n]);
      var before := RunFrom(flags, s, events[..n]).value;
      AbandonedStep(flags, before, sem, events[n]);
      GateInvStep(flags, before, events[n]);
    }
  }

  /** Some continuation gets a process past initsem(). */
  ghost predicate SomeoneGetsIn(flags: Flags, s: State, events: seq<Event>) {
    && RunFrom(flags, s, events).Some?
    && exists p :: p in RunFrom(flags, s, events).value.procs && PastGate(RunFrom(flags, s, events).value.procs[p])
  }

  lemma {:induction false} FreshPid(ps: set<Pid>) returns (q: Pid)
    ensures forall p :: p in ps ==> p < q
    decreases ps
  {
    if ps == {} {
      q := 0;
    } else {
      var p :| p in ps;
      var below := FreshPid(ps - {p});
      q := if p < below then below else p + 1;
      forall x | x in ps ensures x < q {
        assert x != p ==> x in ps - {p};
      }
    }
  }

  lemma RunFromMore(flags: Flags, s: State, events: seq<Event>, e: Event)
    requires RunFrom(flags, s, events).Some?
    ensures RunFrom(flags, s, events + [e]) == Next(flags, RunFrom(flags, s, events).value, e)
  {
    assert (events + [e])[..|events|] == events;
  }

  /** Where there is no semaphore, a new process can make one. */
  lemma NewcomerGetsIn(flags: Flags, s: State, before: seq<Event>, r: State, q: Pid)
    requires RunFrom(flags, s, before) == Some(r) && r.sem.None? && q !in r.procs
    ensures SomeoneGetsIn(flags, s, before + [Spawn(q)] + [Call(q, Create)] + [Call(q, Free)])
  {
    var r1 := Next(flags, r, Spawn(q)).value;
    var r2 := Next(flags, r1, Call(q, Create)).value;
    RunFromMore(flags, s, before, Spawn(q));
    RunFromMore(flags, s, before + [Spawn(q)], Call(q, Create));
    RunFromMore(flags, s, before + [Spawn(q)] + [Call(q, Create)], Call(q, Free));
    assert Next(flags, r2, Call(q, Free)).value.procs[q] == Ready(r.nextId);
  }

  /** Its maker frees it, or takes it away, and then a new process can make another. */
  lemma StarterOpensTheGate(flags: Flags, s: State, p: Pid) returns (events: seq<Event>)
    requires GateInv(s) && p in s.procs && Starting(s.procs[p])
    ensures SomeoneGetsIn(flags, s, events)
  {
    assert ProcessInv(s.sem, s.procs[p], s.adjust[p]);
    if s.procs[p].Created? {
      events := [] + [Call(p, Free)];
      RunFromMore(flags, s, [], Call(p, Free));
      assert PastGate(RunFrom(flags, s, events).value.procs[p]);
    } else {
      var q := FreshPid(s.procs.Keys);
      var r := Next(flags, s, Call(p, Remove)).value;
      RunFromMore(flags, s, [], Call(p, Remove));
      NewcomerGetsIn(flags, s, [] + [Call(p, Remove)], r, q);
      events := [] + [Call(p, Remove)] + [Spawn(q)] + [Call(q, Create)] + [Call(q, Free)];
    }
  }

  /** While the semaphore is there but not freed, somebody can get past initsem() if and only
      if the process that made it is still in there: killed between its two calls, it locks
      everybody out for good. */
  lemma LockedOutIff(flags: Flags, s: State)
    requires Reachable(flags, s) && s.sem.Some? && !s.sem.value.operated
    ensures (exists events :: SomeoneGetsIn(flags, s, events)) <==> exists p :: p in s.procs && Starting(s.procs[p])
  {
    ReachableInv(flags, s);
    if p :| p in s.procs && Starting(s.procs[p]) {
      var events := StarterOpensTheGate(flags, s, p);
    } else {
      forall events ensures !SomeoneGetsIn(flags, s, events) {
        if RunFrom(flags, s, events).Some? {
          AbandonedForever(flags, s, s.sem.value, events);
          var r := RunFrom(flags, s, events).value;
          forall p | p in r.procs ensures !PastGate(r.procs[p]) {
            assert ProcessInv(r.sem, r.procs[p], r.adjust[p]);
          }
        }
      }
    }
  }
}
