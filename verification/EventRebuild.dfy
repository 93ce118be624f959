/** Rebuilds in the event loop of inotify_dtree.c: what the cache is after one, that an
    overflow always leads to one, and how the loop goes on from there. */
module EventRebuild {
  import opened WatchCache
  import opened RawEvents
  import opened EventHandler
  import opened EventLoop
  import opened EventBuffer

  // ----- the cache after a rebuild -----

  /** The first visit of a directory that is still there. */
  predicate FirstVisit(visits: seq<Visit>, i: nat)
    requires i < |visits|
  {
    visits[i].wd != -1 && forall h :: 0 <= h < i ==> visits[h].wd != visits[i].wd
  }

  predicate Met(visits: seq<Visit>, w: int) {
    w != -1 && exists i :: 0 <= i < |visits| && visits[i].wd == w
  }

  /** The descriptors are those that the kernel gave out, each with the path of the first
      visit that it was given out for. */
  ghost predicate IsScan(cached: map<int, string>, visits: seq<Visit>) {
    && (forall w :: w in cached <==> Met(visits, w))
    && (forall i :: 0 <= i < |visits| && FirstVisit(visits, i) ==> CachedFor(cached, visits[i]))
  }

  predicate CachedFor(cached: map<int, string>, v: Visit) {
    v.wd in cached && cached[v.wd] == v.path
  }

  lemma {:induction false} MetMore(visits: seq<Visit>, v: Visit, w: int)
    ensures Met(visits + [v], w) <==> Met(visits, w) || (w == v.wd && w != -1)
  {
    var all := visits + [v];
    if Met(visits, w) {
      var i :| 0 <= i < |visits| && visits[i].wd == w;
      assert all[i].wd == w;
    }
    assert all[|visits|] == v;
  }

  lemma {:induction false} ScanMore(cached: map<int, string>, visits: seq<Visit>, v: Visit)
    requires IsScan(cached, visits)
    ensures IsScan(if v.wd == -1 || v.wd in cached then cached else cached[v.wd := v.path], visits + [v])
  {
    var all, n := visits + [v], |visits|;
    var cached' := if v.wd == -1 || v.wd in cached then cached else cached[v.wd := v.path];
    forall w ensures w in cached' <==> Met(all, w) { MetMore(visits, v, w); }
    forall i | 0 <= i < |all| && FirstVisit(all, i) ensures CachedFor(cached', all[i]) {
      if i < n {
        assert forall h :: 0 <= h <= i ==> all[h] == visits[h];
        assert FirstVisit(visits, i);
        assert CachedFor(cached, visits[i]);
      } else {
        assert forall h :: 0 <= h < n ==> all[h] == visits[h];
        assert !Met(visits, v.wd);
      }
    }
  }

  lemma {:induction false} VisitAdds(slots: seq<Slot>, visits: seq<Visit>, n: nat)
    requires |visits| == n + 1 && Valid(Visited(slots, visits[..n]))
    ensures var before, v := Contents(Visited(slots, visits[..n])), visits[n];
            && Valid(Visited(slots, visits))
            && Contents(Visited(slots, visits))
            == if v.wd == -1 || v.wd in before then before else before[v.wd := v.path]
  {
    var before, v := Visited(slots, visits[..n]), visits[n];
    if v.wd != -1 {
      FoundInContents(before, v.wd);
      if FindWatch(before, v.wd) < 0 { AddWatchContents(before, v.wd, v.path); }
    }
  }

  /** A scan from nothing caches exactly what it has met. */
  lemma {:induction false} VisitedExactly(visits: seq<Visit>)
    ensures Valid(Visited([], visits)) && IsScan(Contents(Visited([], visits)), visits)
    decreases |visits|
  {
    if visits == [] {
      assert Contents(Visited([], [])) == map[];
    } else {
      var n := |visits| - 1;
      VisitedExactly(visits[..n]);
      VisitAdds([], visits, n);
      assert visits[..n] + [visits[n]] == visits by { SplitLast(visits, n); }
      ScanMore(Contents(Visited([], visits[..n])), visits[..n], visits[n]);
    }
  }

  lemma {:induction false} SplitLast(visits: seq<Visit>, n: nat)
    requires |visits| == n + 1
    ensures visits[..n] + [visits[n]] == visits
  {
  }

  /** A turn that ends in a rebuild drops everything in view, keeps the roots that are still
      there, and caches exactly what the scan of them meets. */
  lemma {:induction false} RebuildTurn(k: Kernel, cuts: Cuts, stream: seq<Event>, st: Loop)
    requires Lawful(HandlerOf(k)) && InRange(stream, st) && st.c < st.taken && Valid(st.program.slots)
    requires HandlerOf(k)(st.c, st.program, InView(stream, st), st.firstTry).verdict == Rebuild
    ensures var st' := Next(HandlerOf(k), cuts, stream, st);
            && st'.c == st'.taken == st.taken && st'.firstTry && st'.program.running
            && st'.log == st.log + [Rebuilt(InView(stream, st))]
            && st'.program.roots == st.program.roots - RootsGone(st.program.slots, st.program.roots, stream[st.c])
            && Valid(st'.program.slots) && IsScan(Contents(st'.program.slots), k.visits(st.c))
  {
    var es := InView(stream, st);
    assert es[0] == stream[st.c];
    RootsAfter(st.program.slots, st.program.roots, es, st.firstTry, k.live(st.c));
    ContentsAfter(st.program.slots, st.program.roots, es, st.firstTry, k.live(st.c));
    VisitedExactly(k.visits(st.c));
  }

  // ----- every run -----

  /** The event with which the kernel says that it has lost some. */
  predicate IsOverflow(e: Event) {
    e.wd == -1 && e.flags == {Overflow}
  }

  predicate NoneTaken(log: seq<Action>) {
    forall n :: 0 <= n < |log| && Plain(log[n]) ==> NoOverflowIn(log[n])
  }

  predicate NoOverflowIn(a: Action) {
    forall e :: e in EventsOf(a) ==> !IsOverflow(e)
  }

  /** The last thing done was a rebuild. */
  predicate JustRebuilt(st: Loop) {
    st.log != [] && st.log[|st.log| - 1].Rebuilt?
  }

  /** The position of the event that led to it. */
  function RebuiltAt(st: Loop): nat
    requires JustRebuilt(st)
  {
    |Flat(st.log[..|st.log| - 1])|
  }

  /** Right after a rebuild the cache is the scan's; nothing comes after the end. */
  ghost predicate Fresh(k: Kernel, st: Loop) {
    && (JustRebuilt(st) ==> st.program.running && st.program.slots == Visited([], k.visits(RebuiltAt(st))))
    && (st.log != [] && st.log[|st.log| - 1].Ended? ==> !st.program.running)
  }

  lemma {:induction false} OverflowVerdict(k: Kernel, c: nat, s: Program, es: seq<Event>, firstTry: bool)
    requires es != [] && IsOverflow(es[0])
    ensures HandlerOf(k)(c, s, es, firstTry).verdict == Rebuild
  {
    assert Overflow in es[0].flags;
    assert HandleFirst(s.slots, s.roots, es, firstTry, k.live(c)).verdict == Rebuild;
  }

  lemma {:induction false} FirstActionTakes(es: seq<Event>)
    requires es != [] && !IsOverflow(es[0])
    ensures NoOverflowIn(FirstAction(es))
  {
    if Paired(es) { assert MovedTo in es[1].flags; }
  }

  lemma {:induction false} MovedFresh(k: Kernel, st: Loop, es: seq<Event>, v: Verdict, p: Program, n: nat)
    requires es != [] && v != Deferred && |Flat(st.log)| == st.c && NoneTaken(st.log)
    requires v.Consumed? ==> !IsOverflow(es[0])
    requires v == Rebuild ==> p.running && p.slots == Visited([], k.visits(st.c))
    requires v == Quit ==> !p.running
    ensures Fresh(k, Moved(st, es, v, p, n)) && NoneTaken(Moved(st, es, v, p, n).log)
  {
    var a, log := Acted(es, v), Moved(st, es, v, p, n).log;
    assert log[..|st.log|] == st.log && log[|st.log|] == a;
    if v.Consumed? { FirstActionTakes(es); }
    forall i | 0 <= i < |log| && Plain(log[i]) ensures NoOverflowIn(log[i]) {
      if i < |st.log| { assert log[i] == st.log[i]; }
    }
  }

  lemma {:induction false} NextFresh(k: Kernel, cuts: Cuts, stream: seq<Event>, st: Loop)
    requires Lawful(HandlerOf(k)) && Logged(stream, st) && st.c < st.taken && st.program.running
    requires Fresh(k, st) && NoneTaken(st.log)
    ensures var st' := Next(HandlerOf(k), cuts, stream, st);
            Fresh(k, st') && NoneTaken(st'.log) && (st'.program.running || st'.c == st'.taken)
  {
    var h, es := HandlerOf(k), InView(stream, st);
    var t := h(st.c, st.program, es, st.firstTry);
    assert Obeys(h, st.c, st.program, es, st.firstTry);
    assert |Flat(st.log)| == st.c;
    if t.verdict != Deferred {
      if IsOverflow(es[0]) { OverflowVerdict(k, st.c, st.program, es, st.firstTry); }
      if t.verdict == Rebuild { RebuildSlots(k, st.c, st.program, es, st.firstTry); }
      MovedFresh(k, st, es, t.verdict, t.program, SecondRead(cuts, stream, st.taken));
    }
  }

  lemma {:induction false} RebuildSlots(k: Kernel, c: nat, s: Program, es: seq<Event>, firstTry: bool)
    requires es != [] && HandlerOf(k)(c, s, es, firstTry).verdict == Rebuild
    ensures HandlerOf(k)(c, s, es, firstTry).program.slots == Visited([], k.visits(c))
  {
    assert HandleFirst(s.slots, s.roots, es, firstTry, k.live(c)).slots == [];
  }

  lemma {:induction false} ServeFresh(k: Kernel, cuts: Cuts, stream: seq<Event>, st: Loop)
    requires Lawful(HandlerOf(k)) && Logged(stream, st) && (st.program.running || st.c == st.taken)
    requires Fresh(k, st) && NoneTaken(st.log)
    ensures var r := Serve(HandlerOf(k), cuts, stream, st); Logged(stream, r) && Fresh(k, r) && NoneTaken(r.log)
    decreases |stream| - st.c, st.firstTry
  {
    if st.c < st.taken {
      NextFresh(k, cuts, stream, st);
      NextLogged(HandlerOf(k), cuts, stream, st);
      ServeFresh(k, cuts, stream, Next(HandlerOf(k), cuts, stream, st));
    }
  }

  lemma {:induction false} DrainFresh(k: Kernel, cuts: Cuts, stream: seq<Event>, st: Loop)
    requires Lawful(HandlerOf(k)) && Logged(stream, st) && st.c == st.taken
    requires Fresh(k, st) && NoneTaken(st.log)
    ensures var r := Drain(HandlerOf(k), cuts, stream, st); Fresh(k, r) && NoneTaken(r.log)
    decreases |stream| - st.c
  {
    if st.c < |stream| && st.program.running {
      var st' := Begin(cuts, stream, st);
      ServeFresh(k, cuts, stream, st');
      DrainFresh(k, cuts, stream, Serve(HandlerOf(k), cuts, stream, st'));
    }
  }

  /** In every run, whatever the stream and the reads: an overflow event that was read has led
      to a rebuild, or the program had ended; and right after a rebuild the cache holds
      exactly what the scan of the roots has met. */
  lemma {:induction false} EveryOverflowRebuilds(k: Kernel, arrivals: Arrivals, raw: seq<Record>, s: Program)
    requires s.running
    ensures var r := RunEvents(k, arrivals, raw, s);
            NoneTaken(r.log) && Fresh(k, r)
  {
    HandlerIsLawful(k);
    DrainFresh(k, CutsOf(arrivals, raw), Events(raw), Start(s));
  }

  lemma {:induction false} LastOfFlat(log: seq<Action>, e: Event)
    requires Flat(log) != [] && Flat(log)[|Flat(log)| - 1] == e && log != [] && EventsOf(log[|log| - 1]) != []
    ensures e in EventsOf(log[|log| - 1])
  {
    var es := EventsOf(log[|log| - 1]);
    assert Flat(log) == Flat(log[..|log| - 1]) + es;
    assert es[|es| - 1] == e;
  }

  /** A stream that ends with an overflow event leaves the program right after a rebuild,
      unless it has ended. */
  lemma {:induction false} OverflowEndsInRebuild(k: Kernel, arrivals: Arrivals, pre: seq<Record>, s: Program)
    requires s.running && pre != [] && IsOverflow(EventOf(pre[|pre| - 1]))
    requires RunEvents(k, arrivals, pre, s).program.running
    ensures JustRebuilt(RunEvents(k, arrivals, pre, s))
  {
    var r := RunEvents(k, arrivals, pre, s);
    HandlerIsLawful(k);
    EveryRun(HandlerOf(k), CutsOf(arrivals, pre), Events(pre), s);
    EveryOverflowRebuilds(k, arrivals, pre, s);
    assert Flat(r.log) == Events(pre)[..|pre|] == Events(pre);
    var last := r.log[|r.log| - 1];
    assert Plain(last) ==> NoOverflowIn(last);
    if Plain(last) { LastOfFlat(r.log, EventOf(pre[|pre| - 1])); }
  }

  // ----- a stream in two parts -----

  /** The answers from position m on. */
  function Later(k: Kernel, m: nat): Kernel {
    Kernel((c: nat) => k.live(c + m), (c: nat) => k.visits(c + m))
  }

  function LaterArrivals(arrivals: Arrivals, m: nat): Arrivals {
    Arrivals((n: nat) => arrivals.arrived(n + m), (n: nat) => arrivals.late(n + m))
  }

  ghost predicate ShiftedHandler(h: Handler, h': Handler, m: nat) {
    forall c: nat, s, es, firstTry :: h'(c, s, es, firstTry) == h(c + m, s, es, firstTry)
  }

  ghost predicate ShiftedCuts(cuts: Cuts, cuts': Cuts, m: nat) {
    forall n: nat :: ShiftedCut(cuts, cuts', m, n)
  }

  ghost predicate ShiftedCut(cuts: Cuts, cuts': Cuts, m: nat, n: nat) {
    cuts'.first(n) == cuts.first(n + m) && (n > 0 ==> cuts'.second(n) == cuts.second(n + m))
  }

  /** The second loop is the first one, with positions counted from m on. */
  predicate Shifted(st: Loop, st': Loop, m: nat) {
    && st.c == st'.c + m && st.taken == st'.taken + m
    && st.firstTry == st'.firstTry && st.program == st'.program
  }

  lemma {:induction false} NextShifts(h: Handler, h': Handler, cuts: Cuts, cuts': Cuts, stream: seq<Event>, m: nat,
                                      st: Loop, st': Loop)
    requires Lawful(h) && Lawful(h') && ShiftedHandler(h, h', m) && ShiftedCuts(cuts, cuts', m) && m <= |stream|
    requires Shifted(st, st', m) && InRange(stream, st) && st.c < st.taken
    ensures InRange(stream[m..], st') && Shifted(Next(h, cuts, stream, st), Next(h', cuts', stream[m..], st'), m)
  {
    var es := InView(stream, st);
    assert es == InView(stream[m..], st');
    assert h'(st'.c, st'.program, es, st'.firstTry) == h(st.c, st.program, es, st.firstTry);
    assert ShiftedCut(cuts, cuts', m, st'.taken);
  }

  lemma {:induction false} ServeShifts(h: Handler, h': Handler, cuts: Cuts, cuts': Cuts, stream: seq<Event>, m: nat,
                                       st: Loop, st': Loop)
    requires Lawful(h) && Lawful(h') && ShiftedHandler(h, h', m) && ShiftedCuts(cuts, cuts', m) && m <= |stream|
    requires Shifted(st, st', m) && InRange(stream, st)
    ensures InRange(stream[m..], st') && Shifted(Serve(h, cuts, stream, st), Serve(h', cuts', stream[m..], st'), m)
    decreases |stream| - st.c, st.firstTry
  {
    if st.c < st.taken {
      NextShifts(h, h', cuts, cuts', stream, m, st, st');
      ServeShifts(h, h', cuts, cuts', stream, m, Next(h, cuts, stream, st), Next(h', cuts', stream[m..], st'));
    }
  }

  lemma {:induction false} DrainShifts(h: Handler, h': Handler, cuts: Cuts, cuts': Cuts, stream: seq<Event>, m: nat,
                                       st: Loop, st': Loop)
    requires Lawful(h) && Lawful(h') && ShiftedHandler(h, h', m) && ShiftedCuts(cuts, cuts', m) && m <= |stream|
    requires st.c == st'.c + m && st.taken == st'.taken + m && st.program == st'.program && st.c == st.taken <= |stream|
    ensures Drain(h, cuts, stream, st).program == Drain(h', cuts', stream[m..], st').program
    decreases |stream| - st.c
  {
    if st.c < |stream| && st.program.running {
      var b, b' := Begin(cuts, stream, st), Begin(cuts', stream[m..], st');
      assert ShiftedCut(cuts, cuts', m, st'.c);
      ServeShifts(h, h', cuts, cuts', stream, m, b, b');
      DrainShifts(h, h', cuts, cuts', stream, m, Serve(h, cuts, stream, b), Serve(h', cuts', stream[m..], b'));
    }
  }

  /** No read goes beyond the first m events. */
  ghost predicate StaysWithin(cuts: Cuts, cuts': Cuts, m: nat) {
    && (forall n: nat :: n < m ==> cuts'.first(n) == cuts.first(n) <= m - n)
    && (forall n: nat :: 0 < n <= m ==> cuts'.second(n) == cuts.second(n) <= m - n)
  }

  lemma {:induction false} NextWithin(h: Handler, cuts: Cuts, cuts': Cuts, stream: seq<Event>, m: nat, st: Loop)
    requires Lawful(h) && StaysWithin(cuts, cuts', m) && m <= |stream| && InRange(stream[..m], st) && st.c < st.taken
    ensures Next(h, cuts, stream, st) == Next(h, cuts', stream[..m], st)
  {
    assert InView(stream, st) == InView(stream[..m], st);
  }

  lemma {:induction false} ServeWithin(h: Handler, cuts: Cuts, cuts': Cuts, stream: seq<Event>, m: nat, st: Loop)
    requires Lawful(h) && StaysWithin(cuts, cuts', m) && m <= |stream| && InRange(stream[..m], st)
    ensures Serve(h, cuts, stream, st) == Serve(h, cuts', stream[..m], st)
    decreases m - st.c, st.firstTry
  {
    if st.c < st.taken {
      NextWithin(h, cuts, cuts', stream, m, st);
      ServeWithin(h, cuts, cuts', stream, m, Next(h, cuts, stream, st));
    }
  }

  lemma {:induction false} DrainWithin(h: Handler, cuts: Cuts, cuts': Cuts, stream: seq<Event>, m: nat, st: Loop)
    requires Lawful(h) && StaysWithin(cuts, cuts', m) && m <= |stream| && st.c == st.taken <= m
    ensures Drain(h, cuts, stream, st) == Drain(h, cuts, stream, Drain(h, cuts', stream[..m], st))
    decreases m - st.c
  {
    if st.c < m && st.program.running {
      var b := Begin(cuts, stream, st);
      assert b == Begin(cuts', stream[..m], st);
      ServeWithin(h, cuts, cuts', stream, m, b);
      DrainWithin(h, cuts, cuts', stream, m, Serve(h, cuts, stream, b));
    }
  }

  // ----- on bytes -----

  /** The first m events come, and are read, before the others: they are those of an inotify
      instance that is then closed. */
  ghost predicate ReadApart(arrivals: Arrivals, m: nat) {
    && (forall n: nat :: n < m ==> arrivals.arrived(n) <= m - n)
    && (forall n: nat :: 0 < n <= m ==> arrivals.late(n) <= m - n)
  }

  lemma {:induction false} FitWithin(a: seq<Record>, b: seq<Record>, want: nat, room: int)
    requires want <= |a|
    ensures Fit(a + b, want, room) == Fit(a, want, room)
    decreases |a|
  {
    if a == [] {
    } else {
      assert (a + b)[1..] == a[1..] + b;
      if want > 0 && |a[0]| <= room { FitWithin(a[1..], b, want - 1, room - |a[0]|); }
    }
  }

  lemma {:induction false} CutsWithin(arrivals: Arrivals, pre: seq<Record>, post: seq<Record>)
    requires ReadApart(arrivals, |pre|)
    ensures StaysWithin(CutsOf(arrivals, pre + post), CutsOf(arrivals, pre), |pre|)
  {
    var raw, m := pre + post, |pre|;
    forall n: nat | n < m ensures FirstCount(arrivals, pre, n) == FirstCount(arrivals, raw, n) <= m - n {
      assert raw[n..] == pre[n..] + post;
      FitWithin(pre[n..], post, if arrivals.arrived(n) == 0 then 1 else arrivals.arrived(n), READ_BUF_LEN);
    }
    forall n: nat | 0 < n <= m ensures SecondCount(arrivals, pre, n) == SecondCount(arrivals, raw, n) <= m - n {
      assert raw[n..] == pre[n..] + post && raw[n - 1] == pre[n - 1];
      FitWithin(pre[n..], post, arrivals.late(n), READ_BUF_LEN - |raw[n - 1]|);
    }
  }

  lemma {:induction false} FirstShifts(arrivals: Arrivals, pre: seq<Record>, post: seq<Record>, n: nat)
    ensures FirstCount(LaterArrivals(arrivals, |pre|), post, n) == FirstCount(arrivals, pre + post, n + |pre|)
  {
    if n < |post| { assert (pre + post)[n + |pre|..] == post[n..]; }
  }

  lemma {:induction false} SecondShifts(arrivals: Arrivals, pre: seq<Record>, post: seq<Record>, n: nat)
    requires n > 0
    ensures SecondCount(LaterArrivals(arrivals, |pre|), post, n) == SecondCount(arrivals, pre + post, n + |pre|)
  {
    if n <= |post| {
      assert (pre + post)[n + |pre|..] == post[n..];
      assert (pre + post)[n + |pre| - 1] == post[n - 1];
    }
  }

  lemma {:induction false} CutsShift(arrivals: Arrivals, pre: seq<Record>, post: seq<Record>)
    ensures ShiftedCuts(CutsOf(arrivals, pre + post), CutsOf(LaterArrivals(arrivals, |pre|), post), |pre|)
  {
    forall n: nat
      ensures ShiftedCut(CutsOf(arrivals, pre + post), CutsOf(LaterArrivals(arrivals, |pre|), post), |pre|, n)
    {
      CutShifts(arrivals, pre, post, n);
    }
  }

  lemma {:induction false} CutShifts(arrivals: Arrivals, pre: seq<Record>, post: seq<Record>, n: nat)
    ensures ShiftedCut(CutsOf(arrivals, pre + post), CutsOf(LaterArrivals(arrivals, |pre|), post), |pre|, n)
  {
    FirstShifts(arrivals, pre, post, n);
    if n > 0 { SecondShifts(arrivals, pre, post, n); }
    CutsAre(arrivals, pre + post, n + |pre|);
    CutsAre(LaterArrivals(arrivals, |pre|), post, n);
  }

  lemma {:induction false} CutsAre(arrivals: Arrivals, raw: seq<Record>, n: nat)
    ensures CutsOf(arrivals, raw).first(n) == FirstCount(arrivals, raw, n)
    ensures CutsOf(arrivals, raw).second(n) == SecondCount(arrivals, raw, n)
  {
  }

  lemma {:induction false} HandlerShifts(k: Kernel, m: nat)
    ensures ShiftedHandler(HandlerOf(k), HandlerOf(Later(k, m)), m)
  {
    forall c: nat, s, es, firstTry
      ensures HandlerOf(Later(k, m))(c, s, es, firstTry) == HandlerOf(k)(c + m, s, es, firstTry)
    {
      HandledLater(k, m, c, s, es, firstTry);
    }
  }

  lemma {:induction false} HandledLater(k: Kernel, m: nat, c: nat, s: Program, es: seq<Event>, firstTry: bool)
    ensures HandlerOf(Later(k, m))(c, s, es, firstTry) == HandlerOf(k)(c + m, s, es, firstTry)
  {
    if es != [] {
      var o := HandleFirst(s.slots, s.roots, es, firstTry, k.live(c + m));
      assert After(Later(k, m), c, o) == After(k, c + m, o);
    }
  }

  /** Without the bytes: the loop goes on from where it has got to. */
  lemma {:induction false} LoopRunsOn(h: Handler, h': Handler, cuts: Cuts, early: Cuts, late: Cuts, stream: seq<Event>,
                                      m: nat, s: Program)
    requires Lawful(h) && Lawful(h') && ShiftedHandler(h, h', m) && m <= |stream|
    requires StaysWithin(cuts, early, m) && ShiftedCuts(cuts, late, m)
    requires s.running && Run(h, early, stream[..m], s).program.running
    ensures Run(h, cuts, stream, s).program
         == Run(h', late, stream[m..], Run(h, early, stream[..m], s).program).program
  {
    var r := Run(h, early, stream[..m], s);
    DrainWithin(h, cuts, early, stream, m, Start(s));
    DrainShifts(h, h', cuts, late, stream, m, r, Start(r.program));
  }

  lemma {:induction false} EventsSplit(pre: seq<Record>, post: seq<Record>)
    ensures Events(pre + post)[..|pre|] == Events(pre) && Events(pre + post)[|pre|..] == Events(post)
  {
  }

  /** The loop on a stream whose two parts are read one after the other goes on with the second
      from where it has got to with the first. */
  lemma {:induction false} RunsOn(k: Kernel, arrivals: Arrivals, pre: seq<Record>, post: seq<Record>, s: Program)
    requires ReadApart(arrivals, |pre|) && s.running && RunEvents(k, arrivals, pre, s).program.running
    ensures RunEvents(k, arrivals, pre + post, s).program
         == RunEvents(Later(k, |pre|), LaterArrivals(arrivals, |pre|), post,
                      RunEvents(k, arrivals, pre, s).program).program
  {
    HandlerIsLawful(k);
    HandlerIsLawful(Later(k, |pre|));
    HandlerShifts(k, |pre|);
    CutsWithin(arrivals, pre, post);
    CutsShift(arrivals, pre, post);
    EventsSplit(pre, post);
    LoopRunsOn(HandlerOf(k), HandlerOf(Later(k, |pre|)), CutsOf(arrivals, pre + post), CutsOf(arrivals, pre),
               CutsOf(LaterArrivals(arrivals, |pre|), post), Events(pre + post), |pre|, s);
  }
}
