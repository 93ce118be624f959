/** What processInotifyEvents() of inotify_dtree.c does, seen without the bytes: reads
    hand over a stream of events piece by piece, a "moved from" event that is the last
    in view is put off until one more read, and the handler does the rest. */
module EventLoop {
  import opened EventHandler
  import opened WatchCache

  /** The program between two events. It stops running when the last root goes. */
  datatype Program = Program(slots: seq<Slot>, roots: set<string>, running: bool)

  /** What the program does about the first of the events in view. */
  datatype Turn = Turn(verdict: Verdict, program: Program)

  /** The turn for a position in the stream of all events, the program, the events in
      view from there on, and whether this is the first try. */
  type Handler = (nat, Program, seq<Event>, bool) -> Turn

  // ----- the handler -----

  /** A directory met by nftw(): what inotify_add_watch() returns for it, -1 if it has
      gone by then. */
  datatype Visit = Visit(wd: Wd, path: string)
  type Wd = w: int | w >= -1

  /** What the kernel answers while the event at a position is handled: inotify_rm_watch()
      accepts the descriptors in `live`, and a scan or a rebuild makes the `visits`. */
  datatype Kernel = Kernel(live: nat -> set<int>, visits: nat -> seq<Visit>)

  /** The cache after nftw() has called traverseTree() for each visit. */
  function Visited(slots: seq<Slot>, visits: seq<Visit>): seq<Slot> {
    if visits == [] then slots
    else
      var n := |visits| - 1;
      var before, v := Visited(slots, visits[..n]), visits[n];
      if v.wd == -1 || FindWatch(before, v.wd) >= 0 then before else AddWatch(before, v.wd, v.path)
  }

  /** The program once the scan or the rebuild that an outcome asks for is done. */
  function After(k: Kernel, c: nat, o: Outcome): Program {
    var scans := o.verdict == Rebuild || o.scan.Some?;
    Program(if scans then Visited(o.slots, k.visits(c)) else o.slots, o.roots, o.verdict != Quit)
  }

  /** processNextInotifyEvent() with these answers. */
  function HandlerOf(k: Kernel): Handler {
    (c: nat, s: Program, es: seq<Event>, firstTry: bool) =>
      if es == [] then Turn(Consumed(0), s)
      else
        var o := HandleFirst(s.slots, s.roots, es, firstTry, k.live(c));
        Turn(o.verdict, After(k, c, o))
  }

  /** All that the loop relies on: what the verdict can be, that the view beyond the
      event or the pair does not matter, also where the event should have been put off,
      that the program runs until it quits, and that putting off changes nothing. */
  ghost predicate Obeys(h: Handler, c: nat, s: Program, es: seq<Event>, firstTry: bool)
    requires es != []
  {
    var t := h(c, s, es, firstTry);
    && (t.verdict == Expected(es, firstTry) || t.verdict == Rebuild || t.verdict == Quit)
    && (t.verdict != Deferred ==> t == h(c, s, Unit(es), false))
    && (t.verdict != Deferred == Expected(es, firstTry) ==> forall next :: h(c, s, [es[0], next], false) == t)
    && t.program.running == (t.verdict != Quit)
    && (t.verdict == Deferred && s.running ==> t.program == s)
  }

  ghost predicate Lawful(h: Handler) {
    forall c: nat, s, es: seq<Event>, firstTry :: es != [] ==> Obeys(h, c, s, es, firstTry)
  }

  lemma HandlerIsLawful(k: Kernel)
    ensures Lawful(HandlerOf(k))
  {
    var h := HandlerOf(k);
    forall c: nat, s, es: seq<Event>, firstTry | es != [] ensures Obeys(h, c, s, es, firstTry) {
      HandlerVerdict(s.slots, s.roots, es, firstTry, k.live(c));
      ViewIrrelevant(s.slots, s.roots, es, firstTry, k.live(c));
    }
  }

  // ----- the loop -----

  /** How the reads cut the stream: when that many events have been read, the next
      read() returns `first` events, and one with the alarm set `second` events, or none
      if the alarm rings. */
  datatype Cuts = Cuts(first: nat -> nat, second: nat -> nat)

  /** At least one event, for read() waits, and no more than there are. */
  function FirstRead(cuts: Cuts, stream: seq<Event>, done: nat): (n: nat)
    requires done < |stream|
    ensures 0 < n <= |stream| - done
  {
    Clip(1, cuts.first(done), |stream| - done)
  }

  function SecondRead(cuts: Cuts, stream: seq<Event>, taken: nat): (n: nat)
    requires taken <= |stream|
    ensures n <= |stream| - taken
  {
    Clip(0, cuts.second(taken), |stream| - taken)
  }

  function Clip(low: nat, n: nat, high: nat): nat {
    if n < low then low else if n > high then high else n
  }

  /** What was done with some events: one was handled alone, a pair was handled
      together, the buffer was dropped for a rebuild, or the program ended. */
  datatype Action = One(e: Event) | Two(e: Event, next: Event) | Rebuilt(es: seq<Event>) | Ended(es: seq<Event>)

  /** The loop: the program, the position of the next event, the number of events read,
      whether this is its first try, what was done with the events before it, and the
      positions of those that were put off. */
  datatype Loop = Loop(program: Program, c: nat, taken: nat, firstTry: bool, log: seq<Action>, deferred: seq<nat>)

  ghost predicate InRange(stream: seq<Event>, st: Loop) {
    st.c <= st.taken <= |stream|
  }

  function InView(stream: seq<Event>, st: Loop): seq<Event>
    requires InRange(stream, st)
  {
    stream[st.c..st.taken]
  }

  /** One turn of the loop. */
  ghost function Next(h: Handler, cuts: Cuts, stream: seq<Event>, st: Loop): (st': Loop)
    requires Lawful(h) && InRange(stream, st) && st.c < st.taken
    ensures InRange(stream, st') && st.taken <= st'.taken
    ensures st'.c > st.c || (st'.c == st.c && st.firstTry && !st'.firstTry)
  {
    var es := InView(stream, st);
    assert Obeys(h, st.c, st.program, es, st.firstTry);
    var t := h(st.c, st.program, es, st.firstTry);
    Moved(st, es, t.verdict, t.program, SecondRead(cuts, stream, st.taken))
  }

  /** The loop's bookkeeping, `n` being the size of a second read. */
  function Moved(st: Loop, es: seq<Event>, v: Verdict, p: Program, n: nat): Loop
    requires es != []
  {
    if v == Deferred then st.(taken := st.taken + n, firstTry := false, deferred := st.deferred + [st.c])
    else
      var a := Acted(es, v);
      Loop(p, st.c + |EventsOf(a)|, st.taken, true, st.log + [a], st.deferred)
  }

  /** What is done with the events in view. */
  function Acted(es: seq<Event>, v: Verdict): Action
    requires es != []
  {
    if v == Rebuild then Rebuilt(es) else if v == Quit then Ended(es) else FirstAction(es)
  }

  /** A rename() pair is handled together, any other event alone. */
  function FirstAction(es: seq<Event>): Action
    requires es != []
  {
    if Paired(es) then Two(es[0], es[1]) else One(es[0])
  }

  function EventsOf(a: Action): seq<Event> {
    match a
    case One(e) => [e]
    case Two(e, next) => [e, next]
    case Rebuilt(es) => es
    case Ended(es) => es
  }

  /** The loop until nothing is in view. */
  ghost function Serve(h: Handler, cuts: Cuts, stream: seq<Event>, st: Loop): (r: Loop)
    requires Lawful(h) && InRange(stream, st)
    ensures InRange(stream, r) && r.c == r.taken >= st.taken
    decreases |stream| - st.c, st.firstTry
  {
    if st.c == st.taken then st else Serve(h, cuts, stream, Next(h, cuts, stream, st))
  }

  /** A call begins with a read. */
  function Begin(cuts: Cuts, stream: seq<Event>, st: Loop): (st': Loop)
    requires st.c < |stream|
    ensures InRange(stream, st') && st.c < st'.taken
  {
    st.(taken := st.c + FirstRead(cuts, stream, st.c), firstTry := true)
  }

  /** The program's main loop: call after call until the stream is used up. */
  ghost function Drain(h: Handler, cuts: Cuts, stream: seq<Event>, st: Loop): (r: Loop)
    requires Lawful(h) && st.c == st.taken <= |stream|
    ensures r.c == r.taken <= |stream| && (r.program.running ==> r.c == |stream|)
    decreases |stream| - st.c
  {
    if st.c == |stream| || !st.program.running then st
    else Drain(h, cuts, stream, Serve(h, cuts, stream, Begin(cuts, stream, st)))
  }

  // ----- no event is lost, none is put off twice -----

  function Flat(log: seq<Action>): seq<Event> {
    if log == [] then [] else Flat(log[..|log| - 1]) + EventsOf(log[|log| - 1])
  }

  lemma FlatAppend(log: seq<Action>, a: Action)
    ensures Flat(log + [a]) == Flat(log) + EventsOf(a)
  {
    assert (log + [a])[..|log|] == log;
  }

  /** The log holds the events before c, in order, each once. */
  ghost predicate Logged(stream: seq<Event>, st: Loop) {
    InRange(stream, st) && Flat(st.log) == stream[..st.c]
  }

  /** The events that were put off are "moved from" events, in order. The last one is
      next if it has to be tried again, and then the second read has taken place. */
  ghost predicate Postponed(cuts: Cuts, stream: seq<Event>, st: Loop) {
    && InRange(stream, st)
    && Ascending(st.deferred)
    && (forall d :: d in st.deferred ==> PutOff(stream, d) && d < if st.firstTry then st.c else st.c + 1)
    && (!st.firstTry ==> st.c in st.deferred && st.taken == st.c + 1 + SecondRead(cuts, stream, st.c + 1))
  }

  predicate PutOff(stream: seq<Event>, d: nat) {
    d < |stream| && Waits(stream[d])
  }

  predicate Ascending(ns: seq<nat>) {
    forall i, j :: 0 <= i < j < |ns| ==> ns[i] < ns[j]
  }

  lemma FlatExtends(stream: seq<Event>, c: nat, d: nat, log: seq<Action>, a: Action)
    requires c <= d <= |stream| && Flat(log) == stream[..c] && EventsOf(a) == stream[c..d]
    ensures Flat(log + [a]) == stream[..d]
  {
    assert stream[..c] + stream[c..d] == stream[..d];
    FlatAppend(log, a);
  }

  lemma ActedIsPrefix(stream: seq<Event>, st: Loop, v: Verdict)
    requires InRange(stream, st) && st.c < st.taken
    ensures var n := |EventsOf(Acted(InView(stream, st), v))|;
            0 < n <= st.taken - st.c && EventsOf(Acted(InView(stream, st), v)) == stream[st.c..st.c + n]
  {
  }

  lemma NextLogged(h: Handler, cuts: Cuts, stream: seq<Event>, st: Loop)
    requires Lawful(h) && Logged(stream, st) && st.c < st.taken
    ensures Logged(stream, Next(h, cuts, stream, st))
  {
    var es := InView(stream, st);
    var v := h(st.c, st.program, es, st.firstTry).verdict;
    var st' := Next(h, cuts, stream, st);
    if v != Deferred {
      ActedIsPrefix(stream, st, v);
      FlatExtends(stream, st.c, st'.c, st.log, Acted(es, v));
    }
  }

  lemma NextPostponed(h: Handler, cuts: Cuts, stream: seq<Event>, st: Loop)
    requires Lawful(h) && Postponed(cuts, stream, st) && st.c < st.taken
    ensures Postponed(cuts, stream, Next(h, cuts, stream, st))
  {
    var es := InView(stream, st);
    assert Obeys(h, st.c, st.program, es, st.firstTry);
    if h(st.c, st.program, es, st.firstTry).verdict == Deferred {
      assert es[0] == stream[st.c];
      assert st.taken == st.c + 1;
      assert forall i :: 0 <= i < |st.deferred| ==> st.deferred[i] in st.deferred;
      assert (st.deferred + [st.c])[|st.deferred|] == st.c;
    }
  }

  // ----- the state of the program follows from the log -----

  /** Handling the logged events one action after the other, each with no more in view
      than it needs. */
  ghost function Replay(h: Handler, s: Program, log: seq<Action>): Program {
    if log == [] then s
    else
      var n := |log| - 1;
      h(|Flat(log[..n])|, Replay(h, s, log[..n]), Needed(log[n]), false).program
  }

  function Needed(a: Action): seq<Event> {
    if EventsOf(a) == [] then [] else Unit(EventsOf(a))
  }

  ghost predicate Replayed(h: Handler, s: Program, st: Loop) {
    && st.program == Replay(h, s, st.log)
    && (st.program.running || (st.log != [] && st.log[|st.log| - 1].Ended?))
  }

  lemma ReplayAppend(h: Handler, s: Program, log: seq<Action>, c: nat, a: Action)
    requires |Flat(log)| == c
    ensures Replay(h, s, log + [a]) == h(c, Replay(h, s, log), Needed(a), false).program
  {
    assert (log + [a])[..|log|] == log;
  }

  lemma UnitNeeded(es: seq<Event>, v: Verdict)
    requires es != []
    ensures Needed(Acted(es, v)) == Unit(es)
  {
  }

  lemma NextReplayed(h: Handler, cuts: Cuts, stream: seq<Event>, s: Program, st: Loop)
    requires Lawful(h) && Logged(stream, st) && Replayed(h, s, st) && st.c < st.taken
    ensures Replayed(h, s, Next(h, cuts, stream, st))
  {
    var es := InView(stream, st);
    assert Obeys(h, st.c, st.program, es, st.firstTry);
    var v := h(st.c, st.program, es, st.firstTry).verdict;
    assert |Flat(st.log)| == st.c;
    if v != Deferred {
      UnitNeeded(es, v);
      ReplayAppend(h, s, st.log, st.c, Acted(es, v));
    }
  }

  // ----- how the reads cut the stream makes no difference -----

  /** How a stream would be handled with all of it in view. */
  function PairUp(stream: seq<Event>): seq<Action> {
    if stream == [] then []
    else [FirstAction(stream)] + PairUp(stream[|EventsOf(FirstAction(stream))|..])
  }

  /** The alarm rings although the other half of the pair is the next event. */
  predicate Split(cuts: Cuts, stream: seq<Event>, d: nat) {
    d + 1 < |stream| && Matches(stream[d], stream[d + 1]) && cuts.second(d + 1) == 0
  }

  /** No rebuild, no end, and no pair was split so far. */
  ghost predicate Calm(cuts: Cuts, stream: seq<Event>, st: Loop) {
    && AllPlain(st.log)
    && (forall d :: d in st.deferred && d < st.c ==> !Split(cuts, stream, d))
  }

  predicate AllPlain(log: seq<Action>) {
    forall i :: 0 <= i < |log| ==> Plain(log[i])
  }

  predicate Plain(a: Action) {
    a.One? || a.Two?
  }

  lemma PairUpUnfolds(rest: seq<Event>)
    requires rest != []
    ensures PairUp(rest) != [] && PairUp(rest)[0] == FirstAction(rest)
    ensures PairUp(rest)[1..] == PairUp(rest[|EventsOf(FirstAction(rest))|..])
  {
  }

  lemma DropOne(all: seq<Action>, n: nat, rest: seq<Action>)
    requires n < |all| && all[n..] == rest
    ensures all[n] == rest[0] && all[n + 1..] == rest[1..]
  {
  }

  lemma FlatLast(log: seq<Action>, stream: seq<Event>, c: nat)
    requires log != [] && c <= |stream| && Flat(log) == stream[..c]
    ensures var n := |log| - 1; var b := |Flat(log[..n])|;
            b + |EventsOf(log[n])| == c && Flat(log[..n]) == stream[..b]
  {
    var f := Flat(log[..|log| - 1]);
    assert stream[..c][..|f|] == stream[..|f|];
  }

  /** What follows a prefix of the ideal log is the ideal log of what follows. */
  lemma {:induction false} RestOfPairUp(stream: seq<Event>, log: seq<Action>, c: nat)
    requires c <= |stream| && Flat(log) == stream[..c] && log <= PairUp(stream)
    ensures PairUp(stream)[|log|..] == PairUp(stream[c..])
    decreases |log|
  {
    if log == [] {
      assert stream[0..] == stream;
    } else {
      var n := |log| - 1;
      var b := |Flat(log[..n])|;
      FlatLast(log, stream, c);
      RestOfPairUp(stream, log[..n], b);
      DropOne(PairUp(stream), n, PairUp(stream[b..]));
      PairUpUnfolds(stream[b..]);
      assert stream[b..][c - b..] == stream[c..];
    }
  }

  /** One more action agrees with the ideal iff it is the first one of what follows. */
  lemma OneMore(stream: seq<Event>, log: seq<Action>, c: nat, a: Action)
    requires c < |stream| && Flat(log) == stream[..c]
    ensures log + [a] <= PairUp(stream) <==> log <= PairUp(stream) && a == FirstAction(stream[c..])
  {
    if log <= PairUp(stream) {
      RestOfPairUp(stream, log, c);
      assert PairUp(stream)[|log|] == PairUp(stream)[|log|..][0] == FirstAction(stream[c..]);
    }
    if log + [a] <= PairUp(stream) {
      assert log == (log + [a])[..|log|];
    }
  }

  ghost predicate CalmIff(cuts: Cuts, stream: seq<Event>, st: Loop) {
    st.log <= PairUp(stream) <==> Calm(cuts, stream, st)
  }

  /** Taking a pair, or an event that is not the first half of one in view, is what the
      ideal does, unless the view was too short. */
  lemma TakenAsIdeal(cuts: Cuts, stream: seq<Event>, st: Loop)
    requires Postponed(cuts, stream, st) && st.c < st.taken && Expected(InView(stream, st), st.firstTry).Consumed?
    ensures FirstAction(InView(stream, st)) == FirstAction(stream[st.c..])
       <==> !(st.c in st.deferred && Split(cuts, stream, st.c))
  {
    var es, rest := InView(stream, st), stream[st.c..];
    assert es[0] == rest[0] == stream[st.c];
    if |es| > 1 { assert es[1] == rest[1] == stream[st.c + 1]; }
    if |rest| > 1 { assert rest[1] == stream[st.c + 1]; }
  }

  lemma NextCalm(h: Handler, cuts: Cuts, stream: seq<Event>, st: Loop)
    requires Lawful(h) && Logged(stream, st) && Postponed(cuts, stream, st) && st.c < st.taken
    requires CalmIff(cuts, stream, st)
    ensures CalmIff(cuts, stream, Next(h, cuts, stream, st))
  {
    var es := InView(stream, st);
    assert Obeys(h, st.c, st.program, es, st.firstTry);
    var st' := Next(h, cuts, stream, st);
    var v := h(st.c, st.program, es, st.firstTry).verdict;
    if v == Deferred {
      CalmDeferred(cuts, stream, st, st');
    } else {
      OneMore(stream, st.log, st.c, Acted(es, v));
      if v.Consumed? {
        TakenAsIdeal(cuts, stream, st);
        CalmTaken(cuts, stream, st, Acted(es, v), st');
      } else {
        assert !Plain(st'.log[|st.log|]);
      }
    }
  }

  lemma CalmDeferred(cuts: Cuts, stream: seq<Event>, st: Loop, st': Loop)
    requires st'.log == st.log && st'.c == st.c && st'.deferred == st.deferred + [st.c]
    ensures Calm(cuts, stream, st') <==> Calm(cuts, stream, st)
  {
    if Calm(cuts, stream, st') {
      forall d | d in st.deferred && d < st.c ensures !Split(cuts, stream, d) {
        assert d in st'.deferred;
      }
    }
  }

  lemma CalmTaken(cuts: Cuts, stream: seq<Event>, st: Loop, a: Action, st': Loop)
    requires Postponed(cuts, stream, st) && Plain(a)
    requires st'.log == st.log + [a] && st'.c > st.c && st'.deferred == st.deferred
    ensures Calm(cuts, stream, st')
       <==> Calm(cuts, stream, st) && !(st.c in st.deferred && Split(cuts, stream, st.c))
  {
    if Calm(cuts, stream, st') {
      forall i | 0 <= i < |st.log| ensures Plain(st.log[i]) {
        assert st.log[i] == st'.log[i];
      }
    }
  }

  // ----- whole runs -----

  /** Everything that a run from program `s` on keeps. */
  ghost predicate Inv(h: Handler, cuts: Cuts, stream: seq<Event>, s: Program, st: Loop) {
    Logged(stream, st) && Postponed(cuts, stream, st) && Replayed(h, s, st) && CalmIff(cuts, stream, st)
  }

  lemma NextInv(h: Handler, cuts: Cuts, stream: seq<Event>, s: Program, st: Loop)
    requires Lawful(h) && Inv(h, cuts, stream, s, st) && st.c < st.taken
    ensures Inv(h, cuts, stream, s, Next(h, cuts, stream, st))
  {
    NextLogged(h, cuts, stream, st);
    NextPostponed(h, cuts, stream, st);
    NextReplayed(h, cuts, stream, s, st);
    NextCalm(h, cuts, stream, st);
  }

  lemma {:induction false} ServeInv(h: Handler, cuts: Cuts, stream: seq<Event>, s: Program, st: Loop)
    requires Lawful(h) && Inv(h, cuts, stream, s, st)
    ensures Inv(h, cuts, stream, s, Serve(h, cuts, stream, st))
    decreases |stream| - st.c, st.firstTry
  {
    if st.c < st.taken {
      NextInv(h, cuts, stream, s, st);
      ServeInv(h, cuts, stream, s, Next(h, cuts, stream, st));
    }
  }

  lemma {:induction false} DrainInv(h: Handler, cuts: Cuts, stream: seq<Event>, s: Program, st: Loop)
    requires Lawful(h) && Inv(h, cuts, stream, s, st) && st.c == st.taken && st.firstTry
    ensures Inv(h, cuts, stream, s, Drain(h, cuts, stream, st))
    decreases |stream| - st.c
  {
    if st.c < |stream| && st.program.running {
      var st' := Begin(cuts, stream, st);
      ServeInv(h, cuts, stream, s, st');
      ServeEndsFirst(h, cuts, stream, st');
      DrainInv(h, cuts, stream, s, Serve(h, cuts, stream, st'));
    }
  }

  /** Nothing is left waiting at the end of a call. */
  lemma {:induction false} ServeEndsFirst(h: Handler, cuts: Cuts, stream: seq<Event>, st: Loop)
    requires Lawful(h) && InRange(stream, st) && (!st.firstTry ==> st.c < st.taken)
    ensures Serve(h, cuts, stream, st).firstTry
    decreases |stream| - st.c, st.firstTry
  {
    if st.c < st.taken { ServeEndsFirst(h, cuts, stream, Next(h, cuts, stream, st)); }
  }

  function Start(s: Program): Loop {
    Loop(s, 0, 0, true, [], [])
  }

  /** The whole run on a stream. */
  ghost function Run(h: Handler, cuts: Cuts, stream: seq<Event>, s: Program): Loop
    requires Lawful(h)
  {
    Drain(h, cuts, stream, Start(s))
  }

  /** However the reads cut the stream: every event that was read is in the log exactly
      once and in order; all are read unless the program ended; no event is put off
      twice, and only "moved from" events are put off; and the state of the program is
      that of handling the logged actions one by one. */
  lemma EveryRun(h: Handler, cuts: Cuts, stream: seq<Event>, s: Program)
    requires Lawful(h) && s.running
    ensures var r := Run(h, cuts, stream, s);
            && Flat(r.log) == stream[..r.c]
            && (r.c == |stream| || (r.log != [] && r.log[|r.log| - 1].Ended?))
            && Ascending(r.deferred) && (forall d :: d in r.deferred ==> PutOff(stream, d))
            && r.program == Replay(h, s, r.log)
  {
    DrainInv(h, cuts, stream, s, Start(s));
  }

  /** The run is as if all of the stream had been in view exactly when there was no
      rebuild, no end, and no alarm in the middle of a pair. */
  lemma AsIfAllInView(h: Handler, cuts: Cuts, stream: seq<Event>, s: Program)
    requires Lawful(h) && s.running
    ensures var r := Run(h, cuts, stream, s);
            r.log == PairUp(stream) <==> Calm(cuts, stream, r)
  {
    var r := Run(h, cuts, stream, s);
    DrainInv(h, cuts, stream, s, Start(s));
    if Calm(cuts, stream, r) {
      assert r.log != [] ==> Plain(r.log[|r.log| - 1]);
      RestOfPairUp(stream, r.log, r.c);
      assert stream[|stream|..] == [];
    }
  }

  // ----- exactly which streams can be cut anywhere -----

  /** With all of the stream in view there is no rebuild and no end. */
  ghost predicate Smooth(h: Handler, s: Program, log: seq<Action>) {
    forall n :: 0 <= n < |log| ==> TakesNth(h, s, log, n)
  }

  ghost predicate TakesNth(h: Handler, s: Program, log: seq<Action>, n: nat)
    requires n < |log|
  {
    h(|Flat(log[..n])|, Replay(h, s, log[..n]), Needed(log[n]), false).verdict.Consumed?
  }

  /** The other half of every rename() pair comes before the alarm rings. */
  ghost predicate PairsArrive(second: nat -> nat, stream: seq<Event>) {
    forall d: nat :: d + 1 < |stream| && Paired(stream[d..]) ==> second(d + 1) > 0
  }

  /** The ideal takes the next event, or pair. */
  lemma IdealTakes(h: Handler, stream: seq<Event>, s: Program, log: seq<Action>, c: nat)
    requires c < |stream| && Flat(log) == stream[..c] && log <= PairUp(stream) && Smooth(h, s, PairUp(stream))
    ensures h(c, Replay(h, s, log), Unit(stream[c..]), false).verdict.Consumed?
  {
    var n, rest := |log|, stream[c..];
    RestOfPairUp(stream, log, c);
    assert PairUp(stream)[n] == PairUp(stream)[n..][0] == FirstAction(rest);
    assert PairUp(stream)[..n] == log;
    assert TakesNth(h, s, PairUp(stream), n);
    UnitNeeded(rest, Consumed(1));
  }

  /** A shorter view shows the same unit, unless a pair is cut. */
  lemma UnitInView(cuts: Cuts, stream: seq<Event>, st: Loop)
    requires Postponed(cuts, stream, st) && st.c < st.taken && PairsArrive(cuts.second, stream)
    ensures var es, rest := InView(stream, st), stream[st.c..];
            || Unit(es) == Unit(rest)
            || (Expected(es, st.firstTry) == Deferred && |rest| > 1 && Unit(rest) == [es[0], rest[1]])
  {
    var es, rest := InView(stream, st), stream[st.c..];
    assert es[0] == rest[0];
    if |es| > 1 {
      assert es[1] == rest[1];
    }
  }

  /** So in such a run the handler takes what is in view. */
  lemma NextTakes(h: Handler, cuts: Cuts, stream: seq<Event>, s: Program, st: Loop)
    requires Lawful(h) && Inv(h, cuts, stream, s, st) && Calm(cuts, stream, st) && st.c < st.taken
    requires Smooth(h, s, PairUp(stream)) && PairsArrive(cuts.second, stream)
    ensures var v := h(st.c, st.program, InView(stream, st), st.firstTry).verdict; v != Rebuild && v != Quit
  {
    IdealTakes(h, stream, s, st.log, st.c);
    UnitInView(cuts, stream, st);
    assert Obeys(h, st.c, st.program, InView(stream, st), st.firstTry);
  }

  lemma NextStaysCalm(h: Handler, cuts: Cuts, stream: seq<Event>, s: Program, st: Loop)
    requires Lawful(h) && Inv(h, cuts, stream, s, st) && Calm(cuts, stream, st) && st.c < st.taken
    requires Smooth(h, s, PairUp(stream)) && PairsArrive(cuts.second, stream)
    ensures Calm(cuts, stream, Next(h, cuts, stream, st))
  {
    var es := InView(stream, st);
    NextTakes(h, cuts, stream, s, st);
    assert Obeys(h, st.c, st.program, es, st.firstTry);
    var st' := Next(h, cuts, stream, st);
    var v := h(st.c, st.program, es, st.firstTry).verdict;
    if v == Deferred {
      CalmDeferred(cuts, stream, st, st');
    } else {
      assert st.c in st.deferred && Split(cuts, stream, st.c) ==> Paired(stream[st.c..]);
      CalmTaken(cuts, stream, st, Acted(es, v), st');
    }
  }

  lemma {:induction false} ServeStaysCalm(h: Handler, cuts: Cuts, stream: seq<Event>, s: Program, st: Loop)
    requires Lawful(h) && Inv(h, cuts, stream, s, st) && Calm(cuts, stream, st)
    requires Smooth(h, s, PairUp(stream)) && PairsArrive(cuts.second, stream)
    ensures Calm(cuts, stream, Serve(h, cuts, stream, st))
    decreases |stream| - st.c, st.firstTry
  {
    if st.c < st.taken {
      NextInv(h, cuts, stream, s, st);
      NextStaysCalm(h, cuts, stream, s, st);
      ServeStaysCalm(h, cuts, stream, s, Next(h, cuts, stream, st));
    }
  }

  lemma {:induction false} DrainStaysCalm(h: Handler, cuts: Cuts, stream: seq<Event>, s: Program, st: Loop)
    requires Lawful(h) && Inv(h, cuts, stream, s, st) && st.c == st.taken && st.firstTry && Calm(cuts, stream, st)
    requires Smooth(h, s, PairUp(stream)) && PairsArrive(cuts.second, stream)
    ensures Calm(cuts, stream, Drain(h, cuts, stream, st))
    decreases |stream| - st.c
  {
    if st.c < |stream| && st.program.running {
      var st' := Begin(cuts, stream, st);
      ServeInv(h, cuts, stream, s, st');
      ServeEndsFirst(h, cuts, stream, st');
      ServeStaysCalm(h, cuts, stream, s, st');
      DrainStaysCalm(h, cuts, stream, s, Serve(h, cuts, stream, st'));
    }
  }

  /** A stream that would be handled without a rebuild, and whose pairs arrive in time,
      is handled as if all of it had been in view, and leaves the same program. */
  lemma CutsMakeNoDifference(h: Handler, cuts: Cuts, stream: seq<Event>, s: Program)
    requires Lawful(h) && s.running && Smooth(h, s, PairUp(stream)) && PairsArrive(cuts.second, stream)
    ensures var r := Run(h, cuts, stream, s);
            r.log == PairUp(stream) && r.c == |stream| && r.program == Replay(h, s, PairUp(stream))
  {
    DrainStaysCalm(h, cuts, stream, s, Start(s));
    AsIfAllInView(h, cuts, stream, s);
    EveryRun(h, cuts, stream, s);
    var r := Run(h, cuts, stream, s);
    assert r.log != [] ==> Plain(r.log[|r.log| - 1]);
  }

  // ----- the converse -----

  /** A run only adds to what it has done. */
  ghost predicate Extends(st: Loop, st': Loop) {
    st.log <= st'.log && st.deferred <= st'.deferred
  }

  lemma {:induction false} ServeExtends(h: Handler, cuts: Cuts, stream: seq<Event>, st: Loop)
    requires Lawful(h) && InRange(stream, st)
    ensures Extends(st, Serve(h, cuts, stream, st))
    decreases |stream| - st.c, st.firstTry
  {
    if st.c < st.taken {
      NextExtends(h, cuts, stream, st);
      ServeExtends(h, cuts, stream, Next(h, cuts, stream, st));
    }
  }

  lemma NextExtends(h: Handler, cuts: Cuts, stream: seq<Event>, st: Loop)
    requires Lawful(h) && InRange(stream, st) && st.c < st.taken
    ensures Extends(st, Next(h, cuts, stream, st))
  {
  }

  lemma {:induction false} DrainExtends(h: Handler, cuts: Cuts, stream: seq<Event>, st: Loop)
    requires Lawful(h) && st.c == st.taken <= |stream|
    ensures Extends(st, Drain(h, cuts, stream, st))
    decreases |stream| - st.c
  {
    if st.c < |stream| && st.program.running {
      var st' := Begin(cuts, stream, st);
      ServeExtends(h, cuts, stream, st');
      DrainExtends(h, cuts, stream, Serve(h, cuts, stream, st'));
    }
  }

  lemma PrefixPlain(log: seq<Action>, all: seq<Action>)
    requires log <= all && AllPlain(all)
    ensures AllPlain(log)
  {
    forall i | 0 <= i < |log| ensures Plain(log[i]) { assert log[i] == all[i]; }
  }

  /** A "moved from" event is no second half of a pair. */
  lemma NotPassedOver(es: seq<Event>, n: nat)
    requires 0 < n < |es| && Waits(es[n])
    ensures |EventsOf(FirstAction(es))| <= n
  {
  }

  /** A "moved from" event that is the last in view is put off, unless the cache is
      rebuilt or the program ends before. */
  lemma {:induction false} LastIsPutOff(h: Handler, cuts: Cuts, stream: seq<Event>, st: Loop, d: nat)
    requires Lawful(h) && InRange(stream, st) && st.c <= d && st.taken == d + 1 && st.firstTry
    requires Waits(stream[d])
    requires AllPlain(Serve(h, cuts, stream, st).log)
    ensures d in Serve(h, cuts, stream, st).deferred
    decreases d - st.c
  {
    var es := InView(stream, st);
    assert es[d - st.c] == stream[d];
    assert Obeys(h, st.c, st.program, es, st.firstTry);
    var v := h(st.c, st.program, es, st.firstTry).verdict;
    var st' := Next(h, cuts, stream, st);
    ServeExtends(h, cuts, stream, st');
    PrefixPlain(st'.log, Serve(h, cuts, stream, st).log);
    if v == Deferred {
      assert st'.deferred[|st.deferred|] == d;
    } else {
      assert Plain(st'.log[|st.log|]);
      assert st.c < d;
      NotPassedOver(es, d - st.c);
      LastIsPutOff(h, cuts, stream, st', d);
    }
  }

  /** In a run that reads the first d + 1 events at once, one at d that waits is put off. */
  lemma PutOffAtCut(h: Handler, cuts: Cuts, stream: seq<Event>, s: Program, d: nat)
    requires Lawful(h) && s.running && d < |stream| && Waits(stream[d]) && cuts.first(0) == d + 1
    requires AllPlain(Run(h, cuts, stream, s).log)
    ensures d in Run(h, cuts, stream, s).deferred
  {
    var st := Begin(cuts, stream, Start(s));
    var r := Serve(h, cuts, stream, st);
    DrainExtends(h, cuts, stream, r);
    PrefixPlain(r.log, Run(h, cuts, stream, s).log);
    LastIsPutOff(h, cuts, stream, st, d);
  }

  /** If the alarm can ring within some pair, a read that ends there splits it. */
  lemma SplitShows(h: Handler, cuts: Cuts, stream: seq<Event>, s: Program, d: nat)
    requires Lawful(h) && s.running && cuts.first(0) == d + 1
    requires d + 1 < |stream| && Paired(stream[d..]) && cuts.second(d + 1) == 0
    ensures Run(h, cuts, stream, s).log != PairUp(stream)
  {
    assert Waits(stream[d]) && Split(cuts, stream, d);
    AsIfAllInView(h, cuts, stream, s);
    EveryRun(h, cuts, stream, s);
    if AllPlain(Run(h, cuts, stream, s).log) {
      PutOffAtCut(h, cuts, stream, s, d);
    }
  }

  /** For a stream that would be handled without a rebuild: it is handled so however the
      reads cut it, if and only if every pair arrives before the alarm rings. */
  lemma CutAnywhereIffPairsArrive(h: Handler, second: nat -> nat, stream: seq<Event>, s: Program)
    requires Lawful(h) && s.running && Smooth(h, s, PairUp(stream))
    ensures (forall first: nat -> nat :: Run(h, Cuts(first, second), stream, s).log == PairUp(stream))
       <==> PairsArrive(second, stream)
  {
    if PairsArrive(second, stream) {
      forall first: nat -> nat ensures Run(h, Cuts(first, second), stream, s).log == PairUp(stream) {
        CutsMakeNoDifference(h, Cuts(first, second), stream, s);
      }
    } else {
      var d: nat :| d + 1 < |stream| && Paired(stream[d..]) && second(d + 1) == 0;
      SplitShows(h, Cuts((_: nat) => d + 1, second), stream, s, d);
    }
  }
}
