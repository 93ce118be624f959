/** The buffer loop of inotify_dtree.c on bytes: processInotifyEvents() walks over what a
    read() has put into its buffer and, when a "moved from" event is the last in it,
    shifts that event to the front and reads once more in the hope of its "moved to". */
module EventBuffer {
  import opened Options
  import opened Bytes
  import opened RawEvents
  import opened EventHandler
  import opened EventLoop
  import opened WatchCache

  /** The size of `buf`, and what an event handler returns to have the buffer dropped. */
  const READ_BUF_LEN := 100 * (HEADER + NAME_MAX + 1)

  // ----- reads -----

  /** When that many events have been read, a further read() finds `arrived` events, or
      waits for one; a read() with the alarm set finds `late` events before it rings. */
  datatype Arrivals = Arrivals(arrived: nat -> nat, late: nat -> nat)

  /** How many of at most `want` events fit into `room` bytes: read() hands over whole
      events only. */
  function Fit(es: seq<Record>, want: nat, room: int): (n: nat)
    ensures n <= |es| && n <= want
    ensures room >= 0 ==> |Concat(es[..n])| <= room
    ensures es != [] && want > 0 && room >= HEADER + NAME_MAX + 1 ==> n > 0
  {
    if es == [] || want == 0 || |es[0]| > room then 0
    else
      var n := Fit(es[1..], want - 1, room - |es[0]|);
      assert es[..n + 1][1..] == es[1..][..n];
      n + 1
  }

  /** The events of a first read. */
  function FirstCount(arrivals: Arrivals, raw: seq<Record>, done: nat): (n: nat)
    ensures done < |raw| ==> 0 < n <= |raw| - done && |Concat(raw[done..][..n])| <= READ_BUF_LEN
  {
    if done >= |raw| then 0
    else Fit(raw[done..], if arrivals.arrived(done) == 0 then 1 else arrivals.arrived(done), READ_BUF_LEN)
  }

  /** The events of a second read, behind the one that was put off. */
  function SecondCount(arrivals: Arrivals, raw: seq<Record>, taken: nat): (n: nat)
    ensures 0 < taken <= |raw| ==>
              && n <= |raw| - taken
              && |raw[taken - 1]| + |Concat(raw[taken..][..n])| <= READ_BUF_LEN
              && (n == 0 <==> taken == |raw| || arrivals.late(taken) == 0)
  {
    if taken == 0 || taken > |raw| then 0
    else Fit(raw[taken..], arrivals.late(taken), READ_BUF_LEN - |raw[taken - 1]|)
  }

  function CutsOf(arrivals: Arrivals, raw: seq<Record>): Cuts {
    Cuts((done: nat) => FirstCount(arrivals, raw, done), (taken: nat) => SecondCount(arrivals, raw, taken))
  }

  /** read() into the buffer from `at` on. */
  method KernelRead(buf: array<byte>, at: int, es: seq<Record>) returns (bytes: nat)
    requires 0 <= at && at + |Concat(es)| <= buf.Length
    modifies buf
    ensures bytes == |Concat(es)|
    ensures buf[..at] == old(buf[..at]) && buf[at..at + bytes] == Concat(es)
  {
    var data := Concat(es);
    bytes := |data|;
    for j := 0 to bytes
      invariant buf[..at] == old(buf[..at])
      invariant buf[at..at + j] == data[..j]
    {
      buf[at + j] := data[j];
      assert buf[at..at + (j + 1)] == buf[at..at + j] + [buf[at + j]];
      assert data[..j + 1] == data[..j] + [data[j]];
    }
  }

  // ----- the buffer -----

  /** The unprocessed events `es` lie at `evp`. The end mark is right behind them, or one
      byte short: the secondary read adds its result of -1 to the count when it is
      interrupted, because the test for that looks at errno instead. */
  ghost predicate Buffered(bytes: seq<byte>, evp: int, numRead: int, es: seq<Record>, firstTry: bool) {
    var size := |Concat(es)|;
    && 0 <= evp && evp + size <= |bytes| == READ_BUF_LEN
    && bytes[evp..evp + size] == Concat(es)
    && (numRead == evp + size || (numRead == evp + size - 1 && |es| == 1 && !firstTry))
  }

  lemma SplitSlice(bytes: seq<byte>, at: int, a: seq<byte>, b: seq<byte>)
    requires 0 <= at && at + |a| + |b| <= |bytes| && bytes[at..at + |a| + |b|] == a + b
    ensures bytes[at..at + |a|] == a && bytes[at + |a|..at + |a| + |b|] == b
  {
    var all := bytes[at..at + |a| + |b|];
    assert all[..|a|] == a && all[|a|..] == b;
    SliceOfSlice(bytes, at, |a| + |b|, 0, |a|);
    SliceOfSlice(bytes, at, |a| + |b|, |a|, |a| + |b|);
  }

  /** After the first event the others follow. */
  lemma BufferedNext(bytes: seq<byte>, evp: int, numRead: int, es: seq<Record>, firstTry: bool)
    requires Buffered(bytes, evp, numRead, es, firstTry) && es != []
    ensures var at := evp + |es[0]|;
            && at + |Concat(es[1..])| == evp + |Concat(es)| <= |bytes|
            && bytes[evp..at] == es[0]
            && bytes[at..at + |Concat(es[1..])|] == Concat(es[1..])
            && (|es| > 1 <==> at < numRead)
  {
    var a, b := es[0], Concat(es[1..]);
    assert Concat(es) == a + b;
    SplitSlice(bytes, evp, a, b);
    SizeAtLeast(es[1..]);
  }

  lemma SliceOfSlice(s: seq<byte>, at: int, n: int, a: int, b: int)
    requires 0 <= at && 0 <= a <= b <= n && at + n <= |s|
    ensures s[at..at + n][a..b] == s[at + a..at + b]
  {
    var l, r := s[at..at + n][a..b], s[at + a..at + b];
    assert |l| == |r|;
    forall i | 0 <= i < |l| ensures l[i] == r[i] {}
  }

  /** Reads the event at `at`, and its length, from the bytes. */
  method Decode(buf: array<byte>, at: int, ghost r: Record) returns (ev: Event, evLen: int)
    requires 0 <= at && at + |r| <= buf.Length && buf[at..at + |r|] == r
    ensures ev == EventOf(r) && evLen == |r|
  {
    assert buf[..][at..at + |r|] == buf[at..at + |r|];
    SliceOfSlice(buf[..], at, |r|, 0, 4);
    SliceOfSlice(buf[..], at, |r|, 4, 8);
    SliceOfSlice(buf[..], at, |r|, 8, 12);
    SliceOfSlice(buf[..], at, |r|, 12, 16);
    SliceOfSlice(buf[..], at, |r|, 16, |r|);
    evLen := HEADER + Get32(buf[at + 12..at + 16]);
    ev := Event(GetInt32(buf[at..at + 4]), FlagsOf(Get32(buf[at + 4..at + 8])), Get32(buf[at + 8..at + 12]),
                CString(buf[at + 16..at + evLen]));
  }

  lemma FirstInBuffer(buf: array<byte>, evp: int, numRead: int, es: seq<Record>, firstTry: bool)
    requires Buffered(buf[..], evp, numRead, es, firstTry) && es != []
    ensures 0 <= evp && evp + |es[0]| <= buf.Length
    ensures buf[evp..evp + |es[0]|] == es[0]
    ensures |es| > 1 <==> evp + |es[0]| < numRead
    ensures |es| > 1 ==> Buffered(buf[..], evp + |es[0]|, numRead, es[1..], true)
  {
    BufferedNext(buf[..], evp, numRead, es, firstTry);
    assert buf[evp..evp + |es[0]|] == buf[..][evp..evp + |es[0]|];
  }

  /** The events at the front of the buffer: the first one and, if there is one behind it
      in the buffer, the next; and their lengths. */
  method View(buf: array<byte>, evp: int, numRead: int, firstTry: bool, ghost es: seq<Record>)
    returns (ev: Event, evLen: int, next: Option<Event>, nextLen: int)
    requires Buffered(buf[..], evp, numRead, es, firstTry) && es != []
    ensures ev == EventOf(es[0]) && evLen == |es[0]|
    ensures next == if |es| > 1 then Some(EventOf(es[1])) else None
    ensures |es| > 1 ==> nextLen == |es[1]|
  {
    FirstInBuffer(buf, evp, numRead, es, firstTry);
    ev, evLen := Decode(buf, evp, es[0]);
    next, nextLen := None, 0;
    if evp + evLen < numRead {
      FirstInBuffer(buf, evp + evLen, numRead, es[1..], true);
      var n;
      n, nextLen := Decode(buf, evp + evLen, es[1]);
      next := Some(n);
    }
  }

  /** "Shuffle remaining bytes to start of buffer": copies upwards in place. */
  method ShuffleDown(buf: array<byte>, from: int, n: int)
    requires 0 <= from && 0 <= n && from + n <= buf.Length
    modifies buf
    ensures buf[..n] == old(buf[from..from + n]) && buf[n..] == old(buf[n..])
  {
    for j := 0 to n
      invariant buf[..j] == old(buf[from..from + j])
      invariant buf[j..] == old(buf[j..])
    {
      assert buf[from + j] == buf[j..][from] == old(buf[j..])[from] == old(buf[from + j]);
      buf[j] := buf[from + j];
      assert buf[..j + 1] == buf[..j] + [buf[j]];
      assert old(buf[from..from + (j + 1)]) == old(buf[from..from + j]) + [old(buf[from + j])];
    }
  }

  /** Moving `evp` over the first event, or the first two. */
  lemma Advance(bytes: seq<byte>, evp: int, numRead: int, es: seq<Record>, firstTry: bool)
    requires Buffered(bytes, evp, numRead, es, firstTry) && es != []
    ensures var at := evp + |es[0]|;
            if |es| > 1 then Buffered(bytes, at, numRead, es[1..], true) else numRead <= at
  {
    BufferedNext(bytes, evp, numRead, es, firstTry);
  }

  lemma AdvanceTwo(bytes: seq<byte>, evp: int, numRead: int, es: seq<Record>, firstTry: bool)
    requires Buffered(bytes, evp, numRead, es, firstTry) && |es| > 1
    ensures var at := evp + |es[0]| + |es[1]|;
            if |es| > 2 then Buffered(bytes, at, numRead, es[2..], true) else numRead <= at
  {
    Advance(bytes, evp, numRead, es, firstTry);
    Advance(bytes, evp + |es[0]|, numRead, es[1..], true);
    assert es[1..][1..] == es[2..];
  }


  // ----- one event -----

  /** What processNextInotifyEvent() returns: the number of bytes it is done with, or -1
      to ask for more. */
  function Length(v: Verdict, es: seq<Record>): int
    requires v.Consumed? ==> 1 <= v.events <= |es|
  {
    match v
    case Consumed(n) => |es[0]| + if n == 1 then 0 else |es[1]|
    case Deferred => -1
    case Rebuild => READ_BUF_LEN
    case Quit => READ_BUF_LEN
  }

  /** nftw() */
  method Traverse(cache: Cache, visits: seq<Visit>)
    requires Valid(cache.slots)
    modifies cache
    ensures cache.slots == Visited(old(cache.slots), visits) && Valid(cache.slots)
  {
    for i := 0 to |visits|
      invariant cache.slots == Visited(old(cache.slots), visits[..i]) && Valid(cache.slots)
    {
      assert visits[..i + 1][..i] == visits[..i];
      if visits[i].wd != -1 { FoundInContents(cache.slots, visits[i].wd); }
      var added := cache.TraverseTree(visits[i].wd, visits[i].path);
    }
    assert visits[..|visits|] == visits;
  }

  /** The handler consumes no more than it sees. */
  lemma ConsumesInView(slots: seq<Slot>, roots: set<string>, es: seq<Event>, firstTry: bool, live: set<int>)
    requires es != []
    ensures var v := HandleFirst(slots, roots, es, firstTry, live).verdict;
            v.Consumed? ==> 1 <= v.events <= 2 && v.events <= |es|
  {
    HandlerVerdict(slots, roots, es, firstTry, live);
  }

  /** processNextInotifyEvent(), from the bytes to the rescan. */
  method HandleNext(cache: Cache, roots: set<string>, k: Kernel, c: nat, buf: array<byte>, evp: int, numRead: int,
                    firstTry: bool, ghost es: seq<Record>)
    returns (o: Outcome, evLen: int)
    requires Valid(cache.slots) && Buffered(buf[..], evp, numRead, es, firstTry) && es != []
    modifies cache
    ensures o == HandleFirst(old(cache.slots), roots, Events(es), firstTry, k.live(c))
    ensures o.verdict.Consumed? ==> 1 <= o.verdict.events <= |es|
    ensures evLen == Length(o.verdict, es)
    ensures cache.slots == After(k, c, o).slots && Valid(cache.slots)
    ensures buf[..] == old(buf[..])
  {
    var ev, nextEv, nextLen;
    ev, evLen, nextEv, nextLen := View(buf, evp, numRead, firstTry, es);
    ConsumesInView(cache.slots, roots, Events(es), firstTry, k.live(c));
    HandleKeepsValid(cache.slots, roots, ev, nextEv, firstTry, k.live(c));
    o := ProcessNextEvent(cache, roots, ev, nextEv, firstTry, k.live(c));
    if o.verdict == Rebuild || o.scan.Some? {
      Traverse(cache, k.visits(c));
    }
    match o.verdict
    case Consumed(n) => if n == 2 { evLen := evLen + nextLen; }
    case Deferred => evLen := -1;
    case Rebuild => evLen := READ_BUF_LEN;
    case Quit => evLen := READ_BUF_LEN;
  }

  // ----- the loop -----

  /** The bytes are those of the events in view. */
  ghost predicate Holds(bytes: seq<byte>, evp: int, numRead: int, raw: seq<Record>, c: nat, taken: nat, firstTry: bool)
    requires c <= taken <= |raw|
  {
    if c == taken then numRead <= evp else Buffered(bytes, evp, numRead, raw[c..taken], firstTry)
  }

  lemma MoreToCome(bytes: seq<byte>, evp: int, numRead: int, raw: seq<Record>, c: nat, taken: nat, firstTry: bool)
    requires c <= taken <= |raw| && Holds(bytes, evp, numRead, raw, c, taken, firstTry)
    ensures c < taken <==> evp < numRead
    ensures numRead <= evp + READ_BUF_LEN
  {
    if c < taken { SizeAtLeast(raw[c..taken]); }
  }

  method ReadFirst(buf: array<byte>, arrivals: Arrivals, raw: seq<Record>, c: nat) returns (numRead: int, n: nat)
    requires buf.Length == READ_BUF_LEN && c < |raw|
    modifies buf
    ensures n == FirstCount(arrivals, raw, c)
    ensures Holds(buf[..], 0, numRead, raw, c, c + n, true)
  {
    n := FirstCount(arrivals, raw, c);
    numRead := KernelRead(buf, 0, raw[c..][..n]);
    assert raw[c..][..n] == raw[c..c + n];
    assert buf[..][0..numRead] == buf[0..numRead];
  }

  /** The second read. What is carried over is exactly one whole event, the one at c. If
      nothing more arrives the alarm interrupts the read, and the count loses a byte. */
  method ReadMore(buf: array<byte>, evp: int, numRead0: int, arrivals: Arrivals, raw: seq<Record>, c: nat)
    returns (numRead: int, n: nat)
    requires buf.Length == READ_BUF_LEN && c < |raw|
    requires Holds(buf[..], evp, numRead0, raw, c, c + 1, true)
    modifies buf
    ensures n == SecondCount(arrivals, raw, c + 1)
    ensures Holds(buf[..], 0, numRead, raw, c, c + 1 + n, false)
  {
    ghost var e := raw[c];
    ConcatOne(e);
    assert raw[c..c + 1] == [e];
    numRead := numRead0 - evp;
    assert buf[evp..evp + numRead] == buf[..][evp..evp + numRead] == e;
    ShuffleDown(buf, evp, numRead);
    n := SecondCount(arrivals, raw, c + 1);
    if n == 0 {
      var nr := -1;
      numRead := numRead + nr;
      assert buf[..][0..|e|] == buf[..|e|];
    } else {
      var at, more := numRead, raw[c + 1..][..n];
      var nr := KernelRead(buf, at, more);
      CarriedOver(buf[..], at, nr, e, more);
      assert raw[c..c + 1 + n] == [e] + more;
      numRead := numRead + nr;
    }
  }

  lemma CarriedOver(bytes: seq<byte>, at: nat, nr: nat, e: Record, more: seq<Record>)
    requires at + nr <= |bytes| == READ_BUF_LEN && bytes[..at] == e && bytes[at..at + nr] == Concat(more)
    ensures Buffered(bytes, 0, at + nr, [e] + more, false)
  {
    ConcatPrepend(e, more);
    assert bytes[0..at + nr] == bytes[..at] + bytes[at..at + nr];
  }

  /** Moving `evp` by what was returned leaves the events that are still in view. */
  lemma MovesOn(bytes: seq<byte>, evp: int, numRead: int, raw: seq<Record>, c: nat, taken: nat, firstTry: bool, n: nat)
    requires c < taken <= |raw| && Holds(bytes, evp, numRead, raw, c, taken, firstTry)
    requires 1 <= n <= 2 && c + n <= taken
    ensures Holds(bytes, evp + Length(Consumed(n), raw[c..taken]), numRead, raw, c + n, taken, true)
  {
    var es := raw[c..taken];
    if n == 1 {
      Advance(bytes, evp, numRead, es, firstTry);
      assert es[1..] == raw[c + 1..taken];
    } else {
      AdvanceTwo(bytes, evp, numRead, es, firstTry);
      assert es[2..] == raw[c + 2..taken];
    }
  }

  /** One call, one turn and one run on the bytes of a stream of events. */
  ghost function ServeEvents(k: Kernel, arrivals: Arrivals, raw: seq<Record>, st: Loop): Loop
    requires st.c <= st.taken <= |raw|
  {
    HandlerIsLawful(k);
    Serve(HandlerOf(k), CutsOf(arrivals, raw), Events(raw), st)
  }

  ghost function NextEvents(k: Kernel, arrivals: Arrivals, raw: seq<Record>, st: Loop): (st': Loop)
    requires st.c < st.taken <= |raw|
    ensures st'.c <= st'.taken <= |raw|
    ensures st'.c > st.c || (st'.c == st.c && st.firstTry && !st'.firstTry)
  {
    HandlerIsLawful(k);
    Next(HandlerOf(k), CutsOf(arrivals, raw), Events(raw), st)
  }

  ghost function RunEvents(k: Kernel, arrivals: Arrivals, raw: seq<Record>, s: Program): Loop {
    HandlerIsLawful(k);
    Run(HandlerOf(k), CutsOf(arrivals, raw), Events(raw), s)
  }

  lemma ServeUnfolds(k: Kernel, arrivals: Arrivals, raw: seq<Record>, st: Loop)
    requires st.c <= st.taken <= |raw|
    ensures ServeEvents(k, arrivals, raw, st)
         == if st.c == st.taken then st else ServeEvents(k, arrivals, raw, NextEvents(k, arrivals, raw, st))
  {
    HandlerIsLawful(k);
  }

  /** For any handler, the next state of the loop follows from the handler's turn. */
  lemma NextFollowsTurn(h: Handler, cuts: Cuts, stream: seq<Event>, st: Loop, t: Turn)
    requires Lawful(h) && InRange(stream, st) && st.c < st.taken && st.program.running
    requires h(st.c, st.program, InView(stream, st), st.firstTry) == t
    ensures t.verdict.Consumed? ==> t.verdict.events == |EventsOf(FirstAction(InView(stream, st)))| <= st.taken - st.c
    ensures t.verdict == Deferred ==> t.program == st.program && st.firstTry && st.taken == st.c + 1
    ensures Next(h, cuts, stream, st)
         == Moved(st, InView(stream, st), t.verdict, t.program, SecondRead(cuts, stream, st.taken))
  {
    assert Obeys(h, st.c, st.program, InView(stream, st), st.firstTry);
  }

  lemma ViewIsEvents(raw: seq<Record>, st: Loop)
    requires InRange(Events(raw), st)
    ensures InView(Events(raw), st) == Events(raw[st.c..st.taken])
  {
  }

  /** So the outcome that HandleNext() returns determines the loop's next state. */
  lemma NextFollowsOutcome(k: Kernel, arrivals: Arrivals, raw: seq<Record>, st: Loop, o: Outcome)
    requires st.c < st.taken <= |raw| && st.program.running
    requires o
          == HandleFirst(st.program.slots, st.program.roots, Events(raw[st.c..st.taken]), st.firstTry, k.live(st.c))
    ensures var v, p := o.verdict, After(k, st.c, o);
            && (v.Consumed? ==> v.events == |EventsOf(FirstAction(Events(raw[st.c..st.taken])))| <= st.taken - st.c)
            && (v == Deferred ==> p == st.program && st.firstTry && st.taken == st.c + 1)
            && NextEvents(k, arrivals, raw, st)
            == Moved(st, Events(raw[st.c..st.taken]), v, p, SecondCount(arrivals, raw, st.taken))
  {
    HandlerIsLawful(k);
    ViewIsEvents(raw, st);
    NextFollowsTurn(HandlerOf(k), CutsOf(arrivals, raw), Events(raw), st, Turn(o.verdict, After(k, st.c, o)));
  }

  /** What holds at the head of the loop. */
  ghost predicate AtHead(bytes: seq<byte>, evp: int, numRead: int, raw: seq<Record>, st: Loop, slots: seq<Slot>) {
    && st.c <= st.taken <= |raw|
    && st.program.slots == slots && Valid(slots)
    && (st.program.running || st.c == st.taken)
    && Holds(bytes, evp, numRead, raw, st.c, st.taken, st.firstTry)
  }

  /** Behind what was handled, or dropped, the loop is at its head again. */
  lemma MovesToHead(bytes: seq<byte>, evp: int, numRead: int, raw: seq<Record>, st: Loop, v: Verdict, p: Program)
    requires st.c < st.taken <= |raw| && Holds(bytes, evp, numRead, raw, st.c, st.taken, st.firstTry)
    requires v != Deferred && Valid(p.slots) && p.running == (v != Quit)
    requires v.Consumed? ==> v.events == |EventsOf(FirstAction(Events(raw[st.c..st.taken])))| <= st.taken - st.c
    ensures var es := raw[st.c..st.taken];
            AtHead(bytes, evp + Length(v, es), numRead, raw, Moved(st, Events(es), v, p, 0), p.slots)
  {
    if v.Consumed? {
      MovesOn(bytes, evp, numRead, raw, st.c, st.taken, st.firstTry, v.events);
    } else {
      MoreToCome(bytes, evp, numRead, raw, st.c, st.taken, st.firstTry);
    }
  }

  /** The turn of an event that is put off. */
  method ReadOn(buf: array<byte>, evp: int, numRead0: int, st0: Loop, arrivals: Arrivals, raw: seq<Record>)
    returns (numRead: int, st: Loop)
    requires buf.Length == READ_BUF_LEN && st0.firstTry && st0.taken == st0.c + 1 <= |raw|
    requires Holds(buf[..], evp, numRead0, raw, st0.c, st0.c + 1, true)
    requires Valid(st0.program.slots) && st0.program.running
    modifies buf
    ensures AtHead(buf[..], 0, numRead, raw, st, st0.program.slots)
    ensures st
         == Moved(st0, Events(raw[st0.c..st0.taken]), Deferred, st0.program, SecondCount(arrivals, raw, st0.taken))
  {
    var n;
    numRead, n := ReadMore(buf, evp, numRead0, arrivals, raw, st0.c);
    st := Moved(st0, Events(raw[st0.c..st0.taken]), Deferred, st0.program, n);
  }

  /** The rest of a turn: the loop moves on, or reads more. */
  method MoveOrRead(buf: array<byte>, evp0: int, numRead0: int, st0: Loop, v: Verdict, p: Program, evLen: int,
                    arrivals: Arrivals, raw: seq<Record>)
    returns (evp: int, numRead: int, st: Loop)
    requires buf.Length == READ_BUF_LEN && st0.c < st0.taken <= |raw|
    requires Holds(buf[..], evp0, numRead0, raw, st0.c, st0.taken, st0.firstTry)
    requires Valid(p.slots) && p.running == (v != Quit)
    requires v.Consumed? ==> v.events == |EventsOf(FirstAction(Events(raw[st0.c..st0.taken])))| <= st0.taken - st0.c
    requires v == Deferred ==> p == st0.program && st0.firstTry && st0.taken == st0.c + 1
    requires evLen == Length(v, raw[st0.c..st0.taken])
    modifies buf
    ensures AtHead(buf[..], evp, numRead, raw, st, p.slots)
    ensures st == Moved(st0, Events(raw[st0.c..st0.taken]), v, p, SecondCount(arrivals, raw, st0.taken))
  {
    if evLen > 0 {
      MovesToHead(buf[..], evp0, numRead0, raw, st0, v, p);
      evp, numRead, st := evp0 + evLen, numRead0, Moved(st0, Events(raw[st0.c..st0.taken]), v, p, 0);
    } else {
      evp := 0;
      numRead, st := ReadOn(buf, evp0, numRead0, st0, arrivals, raw);
    }
  }

  /** One turn: an event or a pair is handled, or more is read. */
  method TakeTurn(cache: Cache, buf: array<byte>, evp0: int, numRead0: int, st0: Loop, k: Kernel, arrivals: Arrivals,
                  raw: seq<Record>)
    returns (evp: int, numRead: int, st: Loop)
    requires buf.Length == READ_BUF_LEN && AtHead(buf[..], evp0, numRead0, raw, st0, cache.slots) && st0.c < st0.taken
    modifies cache, buf
    ensures AtHead(buf[..], evp, numRead, raw, st, cache.slots)
    ensures st == NextEvents(k, arrivals, raw, st0)
  {
    ghost var es := raw[st0.c..st0.taken];
    var o, evLen := HandleNext(cache, st0.program.roots, k, st0.c, buf, evp0, numRead0, st0.firstTry, es);
    var p := Program(cache.slots, o.roots, o.verdict != Quit);
    NextFollowsOutcome(k, arrivals, raw, st0, o);
    evp, numRead, st := MoveOrRead(buf, evp0, numRead0, st0, o.verdict, p, evLen, arrivals, raw);
  }

  /** The loop over the events in the buffer. It ends for every finite stream. */
  method ServeBuffer(cache: Cache, buf: array<byte>, evp0: int, numRead0: int, st0: Loop, k: Kernel, arrivals: Arrivals,
                     raw: seq<Record>)
    returns (st: Loop)
    requires buf.Length == READ_BUF_LEN && AtHead(buf[..], evp0, numRead0, raw, st0, cache.slots)
    modifies cache, buf
    ensures st == ServeEvents(k, arrivals, raw, st0)
    ensures cache.slots == st.program.slots && Valid(cache.slots)
  {
    var evp, numRead := evp0, numRead0;
    st := st0;
    MoreToCome(buf[..], evp, numRead, raw, st.c, st.taken, st.firstTry);
    while evp < numRead
      invariant AtHead(buf[..], evp, numRead, raw, st, cache.slots)
      invariant st.c < st.taken <==> evp < numRead
      invariant ServeEvents(k, arrivals, raw, st) == ServeEvents(k, arrivals, raw, st0)
      decreases |raw| - st.c, st.firstTry
    {
      ServeUnfolds(k, arrivals, raw, st);
      evp, numRead, st := TakeTurn(cache, buf, evp, numRead, st, k, arrivals, raw);
      MoreToCome(buf[..], evp, numRead, raw, st.c, st.taken, st.firstTry);
    }
    ServeUnfolds(k, arrivals, raw, st);
  }

  /** processInotifyEvents(): one read, and the loop over its events. It handles the
      events, read after read, exactly as the loop without the bytes does. */
  method ProcessInotifyEvents(cache: Cache, st0: Loop, k: Kernel, arrivals: Arrivals, raw: seq<Record>)
    returns (st: Loop)
    requires Valid(cache.slots) && st0.program == Program(cache.slots, st0.program.roots, true)
    requires st0.c < |raw|
    modifies cache
    ensures st == ServeEvents(k, arrivals, raw, Begin(CutsOf(arrivals, raw), Events(raw), st0))
    ensures cache.slots == st.program.slots && Valid(cache.slots)
  {
    var buf := new byte[READ_BUF_LEN];
    var numRead, n := ReadFirst(buf, arrivals, raw, st0.c);
    var begun := st0.(taken := st0.c + n, firstTry := true);
    assert begun == Begin(CutsOf(arrivals, raw), Events(raw), st0);
    st := ServeBuffer(cache, buf, 0, numRead, begun, k, arrivals, raw);
  }

  /** The program's main loop, over a whole stream. */
  method DrainEvents(cache: Cache, roots: set<string>, k: Kernel, arrivals: Arrivals, raw: seq<Record>)
    returns (st: Loop)
    requires Valid(cache.slots)
    modifies cache
    ensures st == RunEvents(k, arrivals, raw, Program(old(cache.slots), roots, true))
    ensures cache.slots == st.program.slots && Valid(cache.slots)
  {
    ghost var s := Program(cache.slots, roots, true);
    HandlerIsLawful(k);
    st := Start(Program(cache.slots, roots, true));
    while st.c < |raw| && st.program.running
      invariant st.c == st.taken <= |raw| && st.program.slots == cache.slots && Valid(cache.slots)
      invariant Drain(HandlerOf(k), CutsOf(arrivals, raw), Events(raw), st) == RunEvents(k, arrivals, raw, s)
      decreases |raw| - st.c
    {
      st := ProcessInotifyEvents(cache, st, k, arrivals, raw);
    }
  }

  /** With the bytes, too, the cuts make no difference: a stream that would be handled
      without a rebuild, and whose pairs arrive before the alarm rings, leaves the cache
      that handling its events and pairs one by one leaves. */
  lemma DrainsAsIfAllInView(k: Kernel, arrivals: Arrivals, raw: seq<Record>, s: Program)
    requires Smooth(HandlerOf(k), s, PairUp(Events(raw))) && s.running
    requires forall d: nat :: d + 1 < |raw| && Paired(Events(raw)[d..]) ==> arrivals.late(d + 1) > 0
    ensures var r := RunEvents(k, arrivals, raw, s);
            r.log == PairUp(Events(raw)) && r.program == Replay(HandlerOf(k), s, PairUp(Events(raw)))
  {
    HandlerIsLawful(k);
    assert PairsArrive(CutsOf(arrivals, raw).second, Events(raw));
    CutsMakeNoDifference(HandlerOf(k), CutsOf(arrivals, raw), Events(raw), s);
  }
}
