/** The message framing of select_mq.c: several children write records to one pipe,
    and the parent takes each record out with two reads, header first. */
module PipeFraming {
  import opened Options
  import opened Bytes

  /** offsetof(struct pbuf, mtext) */
  const HEADER := 16
  const MAX_MTEXT := 400
  /** Writes up to this size are atomic. */
  const PIPE_BUF := 4096

  /** A message as msgrcv() delivers it. */
  type Body = b: seq<byte> | |b| <= MAX_MTEXT
  datatype Payload = Payload(mtype: int64, body: Body)
  datatype Message = Message(msqid: int32, payload: Payload)
  datatype Header = Header(msqid: int32, len: int32, mtype: int64)

  /** The used part of struct pbuf. */
  function Encode(m: Message): (r: seq<byte>)
    ensures HEADER <= |r| == HEADER + |m.payload.body| <= PIPE_BUF
  {
    PutInt32(m.msqid) + PutInt32(|m.payload.body|) + PutInt64(m.payload.mtype) + m.payload.body
  }

  function ParseHeader(bs: seq<byte>): Header
    requires |bs| == HEADER
  {
    Header(GetInt32(bs[..4]), GetInt32(bs[4..8]), GetInt64(bs[8..16]))
  }

  function HeaderOf(m: Message): Header {
    Header(m.msqid, |m.payload.body|, m.payload.mtype)
  }

  lemma Segments(a: seq<byte>, b: seq<byte>, c: seq<byte>, d: seq<byte>)
    requires |a| == 4 && |b| == 4 && |c| == 8
    ensures var bs := a + b + c + d;
            bs[..16][..4] == a && bs[..16][4..8] == b && bs[..16][8..16] == c && bs[16..] == d
  {
    var bs := a + b + c + d;
    assert bs[..16] == a + b + c;
  }

  lemma HeaderRoundTrip(m: Message, rest: seq<byte>)
    ensures var bs := Encode(m) + rest;
            && ParseHeader(bs[..HEADER]) == HeaderOf(m)
            && bs[HEADER..] == m.payload.body + rest
  {
    var a, b, c := PutInt32(m.msqid), PutInt32(|m.payload.body|), PutInt64(m.payload.mtype);
    assert Encode(m) + rest == a + b + c + (m.payload.body + rest);
    Segments(a, b, c, m.payload.body + rest);
    GetPutInt32(m.msqid);
    GetPutInt32(|m.payload.body|);
    GetPutInt64(m.payload.mtype);
  }

  /** What the pipe holds for a sequence of records. */
  function EncodeAll(ms: seq<Message>): seq<byte> {
    if ms == [] then [] else Encode(ms[0]) + EncodeAll(ms[1..])
  }

  lemma {:induction false} EncodeAllAppend(ms: seq<Message>, m: Message)
    ensures EncodeAll(ms + [m]) == EncodeAll(ms) + Encode(m)
    decreases |ms|
  {
    if ms == [] {
      assert ms + [m] == [m];
      assert [m][1..] == [];
    } else {
      assert (ms + [m])[1..] == ms[1..] + [m];
      EncodeAllAppend(ms[1..], m);
    }
  }

  // ----- the processes -----

  datatype Parent =
    | AtHeader
    | AtBody(header: Header)
    | Fatal          // "EOF on pipe"
    | Garbled        // a read came up short and the struct is not a message

  /** `sent` records which child wrote what, in the order of the writes. */
  datatype Entry = Entry(child: nat, message: Message)

  datatype State = State(
    pending: seq<seq<Payload>>,
    sent: seq<Entry>,
    pipe: seq<byte>,
    parent: Parent,
    delivered: seq<Message>)

  datatype Event = Write(child: nat) | ReadHeader | ReadBody

  /** `msqids[c]` is the queue that child c monitors. */
  function Next(msqids: seq<int32>, s: State, e: Event): Option<State>
    requires |msqids| == |s.pending|
  {
    match e
    case Write(c) =>
      if c >= |s.pending| || s.pending[c] == [] then None
      else
        var m := Message(msqids[c], s.pending[c][0]);
        Some(s.(pending := s.pending[c := s.pending[c][1..]],
                sent := s.sent + [Entry(c, m)],
                pipe := s.pipe + Encode(m)))
    case ReadHeader =>
      // select() reports the pipe readable
      if !s.parent.AtHeader? || s.pipe == [] then None
      else if |s.pipe| < HEADER then Some(s.(pipe := [], parent := Garbled))
      else Some(s.(pipe := s.pipe[HEADER..], parent := AtBody(ParseHeader(s.pipe[..HEADER]))))
    case ReadBody =>
      if !s.parent.AtBody? then None
      else
        var h := s.parent.header;
        if h.len == 0 then Some(s.(parent := Fatal))           // read() of 0 bytes returns 0
        else if s.pipe == [] then None                         // read() blocks
        else if h.len < 0 || |s.pipe| < h.len || h.len > MAX_MTEXT then Some(s.(pipe := [], parent := Garbled))
        else
          Some(s.(pipe := s.pipe[h.len..],
                  parent := AtHeader,
                  delivered := s.delivered + [Message(h.msqid, Payload(h.mtype, s.pipe[..h.len]))]))
  }

  function Start(queues: seq<seq<Payload>>): State {
    State(queues, [], [], AtHeader, [])
  }

  ghost predicate IsRun(msqids: seq<int32>, queues: seq<seq<Payload>>, run: seq<State>) {
    && run != [] && run[0] == Start(queues)
    && (forall i :: 0 <= i < |run| ==> |run[i].pending| == |msqids|)
    && (forall i :: 0 <= i < |run| - 1 ==> Moves(msqids, run[i], run[i + 1]))
  }

  ghost predicate Moves(msqids: seq<int32>, s: State, s': State) {
    |s.pending| == |msqids| && exists e :: Next(msqids, s, e) == Some(s')
  }

  // ----- what every run keeps -----

  function MessagesOf(es: seq<Entry>): (ms: seq<Message>)
    ensures |ms| == |es| && forall i :: 0 <= i < |es| ==> ms[i] == es[i].message
  {
    seq(|es|, i requires 0 <= i < |es| => es[i].message)
  }

  /** The payloads that a child has written, in order. */
  function WrittenBy(es: seq<Entry>, c: nat): seq<Payload> {
    if es == [] then []
    else
      var last := es[|es| - 1];
      WrittenBy(es[..|es| - 1], c) + if last.child == c then [last.message.payload] else []
  }

  /** The records written are a merge of the children's queues: each child's writes,
      followed by what it has still to write, are its queue. */
  ghost predicate Merges(msqids: seq<int32>, queues: seq<seq<Payload>>, s: State) {
    && |s.pending| == |queues| == |msqids|
    && (forall c :: 0 <= c < |queues| ==> WrittenBy(s.sent, c) + s.pending[c] == queues[c])
    && (forall i :: 0 <= i < |s.sent| ==>
          s.sent[i].child < |queues| && s.sent[i].message.msqid == msqids[s.sent[i].child])
  }

  /** The messages that have been written and not delivered. */
  function InFlight(s: State): seq<Message>
    requires |s.delivered| <= |s.sent|
  {
    MessagesOf(s.sent)[|s.delivered|..]
  }

  /** The pipe holds exactly the undelivered records, cut after a header at most. */
  ghost predicate PipeHolds(parent: Parent, pipe: seq<byte>, rest: seq<Message>) {
    match parent
    case AtHeader => pipe == EncodeAll(rest)
    case AtBody(h) => rest != [] && h == HeaderOf(rest[0]) && pipe == rest[0].payload.body + EncodeAll(rest[1..])
    case Fatal => rest != [] && rest[0].payload.body == []
    case Garbled => false
  }

  /** What the parent delivered is an unbroken prefix of what was written. */
  ghost predicate Framed(s: State) {
    && |s.delivered| <= |s.sent|
    && s.delivered == MessagesOf(s.sent)[..|s.delivered|]
    && (forall i :: 0 <= i < |s.delivered| ==> s.delivered[i].payload.body != [])
    && PipeHolds(s.parent, s.pipe, InFlight(s))
  }

  ghost predicate Inv(msqids: seq<int32>, queues: seq<seq<Payload>>, s: State) {
    Merges(msqids, queues, s) && Framed(s)
  }

  lemma WrittenAppend(es: seq<Entry>, e: Entry, c: nat)
    ensures WrittenBy(es + [e], c) == WrittenBy(es, c) + if e.child == c then [e.message.payload] else []
  {
    assert (es + [e])[..|es|] == es;
  }

  lemma MoveOne(done: seq<Payload>, pending: seq<Payload>)
    requires pending != []
    ensures done + pending == done + [pending[0]] + pending[1..]
  {
  }

  lemma WriteMerges(msqids: seq<int32>, queues: seq<seq<Payload>>, s: State, c: nat)
    requires Merges(msqids, queues, s) && c < |s.pending| && s.pending[c] != []
    ensures Merges(msqids, queues, Next(msqids, s, Write(c)).value)
  {
    var s' := Next(msqids, s, Write(c)).value;
    var e := Entry(c, Message(msqids[c], s.pending[c][0]));
    forall d | 0 <= d < |queues| ensures WrittenBy(s'.sent, d) + s'.pending[d] == queues[d] {
      WrittenAppend(s.sent, e, d);
      assert WrittenBy(s.sent, d) + s.pending[d] == queues[d];
      MoveOne(WrittenBy(s.sent, c), s.pending[c]);
    }
  }

  lemma PipeHoldsAppend(parent: Parent, pipe: seq<byte>, rest: seq<Message>, m: Message)
    requires PipeHolds(parent, pipe, rest)
    ensures PipeHolds(parent, pipe + Encode(m), rest + [m])
  {
    if parent.AtHeader? {
      EncodeAllAppend(rest, m);
    } else if parent.AtBody? {
      var body := rest[0].payload.body;
      assert (rest + [m])[1..] == rest[1..] + [m];
      EncodeAllAppend(rest[1..], m);
      assert body + EncodeAll(rest[1..]) + Encode(m) == body + (EncodeAll(rest[1..]) + Encode(m));
    }
  }

  lemma WriteFramed(msqids: seq<int32>, s: State, c: nat)
    requires Framed(s) && |msqids| == |s.pending| && c < |s.pending| && s.pending[c] != []
    ensures Framed(Next(msqids, s, Write(c)).value)
  {
    var s' := Next(msqids, s, Write(c)).value;
    var m := Message(msqids[c], s.pending[c][0]);
    assert MessagesOf(s'.sent) == MessagesOf(s.sent) + [m];
    assert InFlight(s') == InFlight(s) + [m];
    PipeHoldsAppend(s.parent, s.pipe, InFlight(s), m);
  }

  lemma ReadFramed(msqids: seq<int32>, s: State, e: Event)
    requires Framed(s) && |msqids| == |s.pending| && !e.Write? && Next(msqids, s, e).Some?
    ensures Framed(Next(msqids, s, e).value)
  {
    var s' := Next(msqids, s, e).value;
    var rest := InFlight(s);
    if e.ReadHeader? {
      assert rest != [];
      HeaderRoundTrip(rest[0], EncodeAll(rest[1..]));
    } else if s.parent.header.len != 0 {
      var body := rest[0].payload.body;
      assert s.pipe[..|body|] == body && s.pipe[|body|..] == EncodeAll(rest[1..]);
      assert s'.delivered == s.delivered + [rest[0]];
      assert InFlight(s') == rest[1..];
    }
  }

  lemma InvStep(msqids: seq<int32>, queues: seq<seq<Payload>>, s: State, e: Event)
    requires Inv(msqids, queues, s) && Next(msqids, s, e).Some?
    ensures Inv(msqids, queues, Next(msqids, s, e).value)
  {
    if e.Write? {
      WriteMerges(msqids, queues, s, e.child);
      WriteFramed(msqids, s, e.child);
    } else {
      ReadFramed(msqids, s, e);
    }
  }

  /** In every interleaving of the children's writes with the parent's two reads: the
      parent has delivered an unbroken prefix of a merge of the children's messages,
      and no read ever comes up short. */
  lemma {:induction false} EveryRunIsFramed(msqids: seq<int32>, queues: seq<seq<Payload>>, run: seq<State>)
    requires |msqids| == |queues| && IsRun(msqids, queues, run)
    ensures Inv(msqids, queues, run[|run| - 1])
    decreases |run|
  {
    var n := |run| - 1;
    if n > 0 {
      var before := run[..n];
      assert before[|before| - 1] == run[n - 1];
      forall i | 0 <= i < |before| - 1 ensures Moves(msqids, before[i], before[i + 1]) {
        assert Moves(msqids, run[i], run[i + 1]);
      }
      EveryRunIsFramed(msqids, queues, before);
      assert Moves(msqids, run[n - 1], run[n - 1 + 1]);
      var e :| Next(msqids, run[n - 1], e) == Some(run[n]);
      InvStep(msqids, queues, run[n - 1], e);
    } else {
      forall c | 0 <= c < |queues| ensures WrittenBy([], c) + queues[c] == queues[c] {}
    }
  }

  /** When every child has written its queue and the parent has read everything, each
      child's messages have all been delivered, in order. */
  lemma DrainedDeliversAll(msqids: seq<int32>, queues: seq<seq<Payload>>, run: seq<State>)
    requires |msqids| == |queues| && IsRun(msqids, queues, run)
    requires var s := run[|run| - 1];
             s.pipe == [] && s.parent.AtHeader? && forall c :: 0 <= c < |queues| ==> s.pending[c] == []
    ensures var s := run[|run| - 1];
            s.delivered == MessagesOf(s.sent) && forall c :: 0 <= c < |queues| ==> WrittenBy(s.sent, c) == queues[c]
  {
    EveryRunIsFramed(msqids, queues, run);
    var s := run[|run| - 1];
    var rest := InFlight(s);
    assert rest == [];
    forall c | 0 <= c < |queues| ensures WrittenBy(s.sent, c) == queues[c] {
      assert WrittenBy(s.sent, c) + s.pending[c] == queues[c];
    }
  }

  /** The parent takes a record for EOF exactly when its body is empty. */
  lemma FatalIffEmptyBody(msqids: seq<int32>, queues: seq<seq<Payload>>, run: seq<State>)
    requires |msqids| == |queues| && IsRun(msqids, queues, run)
    requires run[|run| - 1].parent.AtBody?
    ensures var s := run[|run| - 1];
            && |s.delivered| < |s.sent|
            && Next(msqids, s, ReadBody).Some?
            && (Next(msqids, s, ReadBody).value.parent.Fatal? <==> InFlight(s)[0].payload.body == [])
  {
    EveryRunIsFramed(msqids, queues, run);
  }

  /** With bodies of at least one byte the parent never gives up. */
  lemma NeverFatalWithoutEmptyBodies(msqids: seq<int32>, queues: seq<seq<Payload>>, run: seq<State>)
    requires |msqids| == |queues| && IsRun(msqids, queues, run)
    requires !HasEmptyBody(queues)
    ensures !run[|run| - 1].parent.Fatal?
  {
    EveryRunIsFramed(msqids, queues, run);
    var s := run[|run| - 1];
    if s.parent.Fatal? {
      var c, i := FoundInQueue(msqids, queues, s, |s.delivered|);
    }
  }

  predicate HasEmptyBody(queues: seq<seq<Payload>>) {
    exists c, i :: 0 <= c < |queues| && 0 <= i < |queues[c]| && queues[c][i].body == []
  }

  /** Every record written comes from its child's queue. */
  lemma FoundInQueue(msqids: seq<int32>, queues: seq<seq<Payload>>, s: State, k: nat) returns (c: nat, i: nat)
    requires Merges(msqids, queues, s) && k < |s.sent|
    ensures c < |queues| && i < |queues[c]| && queues[c][i] == s.sent[k].message.payload
  {
    c := s.sent[k].child;
    i := PositionInQueue(s.sent, k);
    assert WrittenBy(s.sent, c) + s.pending[c] == queues[c];
  }

  lemma {:induction false} PositionInQueue(es: seq<Entry>, k: nat) returns (i: nat)
    requires k < |es|
    ensures i < |WrittenBy(es, es[k].child)| && WrittenBy(es, es[k].child)[i] == es[k].message.payload
    decreases |es|
  {
    var n := |es| - 1;
    if k == n {
      i := |WrittenBy(es[..n], es[k].child)|;
    } else {
      i := PositionInQueue(es[..n], k);
    }
  }

  // ----- exactly which queues make the parent give up -----

  /** Nothing is under way. */
  predicate Clean(s: State) {
    s.pipe == [] && s.parent == AtHeader
  }

  /** The state after child c's next message has gone through. */
  function Delivered(msqids: seq<int32>, s: State, c: nat): State
    requires c < |s.pending| == |msqids| && s.pending[c] != []
  {
    var m := Message(msqids[c], s.pending[c][0]);
    s.(pending := s.pending[c := s.pending[c][1..]], sent := s.sent + [Entry(c, m)], delivered := s.delivered + [m])
  }

  /** Writing the message and reading it takes three steps, and the last one is fatal iff
      the body is empty. */
  lemma ThreeSteps(msqids: seq<int32>, s: State, c: nat) returns (s1: State, s2: State, s3: State)
    requires c < |s.pending| == |msqids| && s.pending[c] != [] && Clean(s)
    ensures Next(msqids, s, Write(c)) == Some(s1) && |s1.pending| == |msqids|
    ensures Next(msqids, s1, ReadHeader) == Some(s2) && |s2.pending| == |msqids|
    ensures Next(msqids, s2, ReadBody) == Some(s3) && |s3.pending| == |msqids|
    ensures if s.pending[c][0].body == [] then s3.parent.Fatal? else s3 == Delivered(msqids, s, c)
  {
    var m := Message(msqids[c], s.pending[c][0]);
    s1 := Next(msqids, s, Write(c)).value;
    assert s1.pipe == Encode(m) + [];
    HeaderRoundTrip(m, []);
    s2 := Next(msqids, s1, ReadHeader).value;
    assert s2.pipe == m.payload.body;
    s3 := Next(msqids, s2, ReadBody).value;
  }

  lemma RunGoesOn(msqids: seq<int32>, queues: seq<seq<Payload>>, run: seq<State>, e: Event, s': State)
    requires IsRun(msqids, queues, run) && Next(msqids, run[|run| - 1], e) == Some(s') && |s'.pending| == |msqids|
    ensures IsRun(msqids, queues, run + [s'])
  {
    var run' := run + [s'];
    forall i | 0 <= i < |run'| - 1 ensures Moves(msqids, run'[i], run'[i + 1]) {
      if i < |run| - 1 { assert Moves(msqids, run[i], run[i + 1]); }
    }
  }

  lemma RunDelivers(msqids: seq<int32>, queues: seq<seq<Payload>>, run: seq<State>, c: nat) returns (run': seq<State>)
    requires IsRun(msqids, queues, run)
    requires var s := run[|run| - 1]; c < |s.pending| && s.pending[c] != [] && Clean(s)
    ensures IsRun(msqids, queues, run')
    ensures var s, s' := run[|run| - 1], run'[|run'| - 1];
            if s.pending[c][0].body == [] then s'.parent.Fatal? else s' == Delivered(msqids, s, c)
  {
    var s1, s2, s3 := ThreeSteps(msqids, run[|run| - 1], c);
    RunGoesOn(msqids, queues, run, Write(c), s1);
    RunGoesOn(msqids, queues, run + [s1], ReadHeader, s2);
    RunGoesOn(msqids, queues, run + [s1] + [s2], ReadBody, s3);
    run' := run + [s1] + [s2] + [s3];
  }

  /** A run in which only child c writes, up to its first empty body. */
  lemma {:induction false} RunToEmptyBody(msqids: seq<int32>, queues: seq<seq<Payload>>, run: seq<State>, c: nat,
                                          i: nat)
    returns (run': seq<State>)
    requires IsRun(msqids, queues, run)
    requires var s := run[|run| - 1]; Clean(s) && c < |s.pending| && i < |s.pending[c]| && s.pending[c][i].body == []
    ensures IsRun(msqids, queues, run') && run'[|run'| - 1].parent.Fatal?
    decreases i
  {
    run' := RunDelivers(msqids, queues, run, c);
    if run[|run| - 1].pending[c][0].body != [] {
      run' := RunToEmptyBody(msqids, queues, run', c, i - 1);
    }
  }

  ghost predicate GivesUp(msqids: seq<int32>, queues: seq<seq<Payload>>, run: seq<State>) {
    IsRun(msqids, queues, run) && run[|run| - 1].parent.Fatal?
  }

  /** The parent can come to take a message for EOF if and only if some queue holds a
      message with an empty body. */
  lemma GivesUpIffEmptyBody(msqids: seq<int32>, queues: seq<seq<Payload>>)
    requires |msqids| == |queues|
    ensures (exists run :: GivesUp(msqids, queues, run)) <==> HasEmptyBody(queues)
  {
    if HasEmptyBody(queues) {
      var c, i :| 0 <= c < |queues| && 0 <= i < |queues[c]| && queues[c][i].body == [];
      assert IsRun(msqids, queues, [Start(queues)]);
      var run := RunToEmptyBody(msqids, queues, [Start(queues)], c, i);
      assert GivesUp(msqids, queues, run);
    } else {
      forall run | IsRun(msqids, queues, run) ensures !GivesUp(msqids, queues, run) {
        NeverFatalWithoutEmptyBodies(msqids, queues, run);
      }
    }
  }

  // ----- exactly which queues can be delivered -----

  /** Everything is written and delivered. */
  ghost predicate Drains(msqids: seq<int32>, queues: seq<seq<Payload>>, run: seq<State>) {
    IsRun(msqids, queues, run) && Clean(run[|run| - 1]) && AllWritten(run[|run| - 1], |run[|run| - 1].pending|)
  }

  predicate AllWritten(s: State, n: nat) {
    n <= |s.pending| && forall d :: 0 <= d < n ==> s.pending[d] == []
  }

  /** The payloads of the children from c on are still to come, and none of them is empty. */
  lemma {:induction false} RunToEnd(msqids: seq<int32>, queues: seq<seq<Payload>>, run: seq<State>, c: nat)
    returns (run': seq<State>)
    requires IsRun(msqids, queues, run) && !HasEmptyBody(run[|run| - 1].pending)
    requires Clean(run[|run| - 1]) && AllWritten(run[|run| - 1], c)
    ensures Drains(msqids, queues, run')
    decreases |msqids| - c, if c < |run[|run| - 1].pending| then |run[|run| - 1].pending[c]| else 0
  {
    var s := run[|run| - 1];
    if c == |s.pending| {
      run' := run;
    } else if s.pending[c] == [] {
      run' := RunToEnd(msqids, queues, run, c + 1);
    } else {
      run' := RunDelivers(msqids, queues, run, c);
      StillNoEmptyBody(msqids, s, c);
      run' := RunToEnd(msqids, queues, run', c);
    }
  }

  lemma StillNoEmptyBody(msqids: seq<int32>, s: State, c: nat)
    requires c < |s.pending| == |msqids| && s.pending[c] != [] && !HasEmptyBody(s.pending)
    ensures !HasEmptyBody(Delivered(msqids, s, c).pending)
  {
    var s' := Delivered(msqids, s, c);
    forall d, i | 0 <= d < |s'.pending| && 0 <= i < |s'.pending[d]| ensures s'.pending[d][i].body != [] {
      assert s'.pending[d][i] == s.pending[d][if d == c then i + 1 else i];
    }
  }

  /** An empty body is never delivered. */
  lemma DrainedHadNoEmptyBody(msqids: seq<int32>, queues: seq<seq<Payload>>, run: seq<State>)
    requires |msqids| == |queues| && Drains(msqids, queues, run)
    ensures !HasEmptyBody(queues)
  {
    EveryRunIsFramed(msqids, queues, run);
    DrainedDeliversAll(msqids, queues, run);
    var s := run[|run| - 1];
    forall c, i | 0 <= c < |queues| && 0 <= i < |queues[c]| ensures queues[c][i].body != [] {
      var k := PositionInSent(s.sent, c, i);
      assert s.delivered[k] == s.sent[k].message;
    }
  }

  lemma {:induction false} PositionInSent(es: seq<Entry>, c: nat, i: nat) returns (k: nat)
    requires i < |WrittenBy(es, c)|
    ensures k < |es| && es[k].message.payload == WrittenBy(es, c)[i]
    decreases |es|
  {
    var n := |es| - 1;
    if i < |WrittenBy(es[..n], c)| {
      k := PositionInSent(es[..n], c, i);
    } else {
      k := n;
    }
  }

  /** All messages can be delivered if and only if none has an empty body. */
  lemma DrainsIffNoEmptyBody(msqids: seq<int32>, queues: seq<seq<Payload>>)
    requires |msqids| == |queues|
    ensures (exists run :: Drains(msqids, queues, run)) <==> !HasEmptyBody(queues)
  {
    if HasEmptyBody(queues) {
      forall run | IsRun(msqids, queues, run) ensures !Drains(msqids, queues, run) {
        if Drains(msqids, queues, run) { DrainedHadNoEmptyBody(msqids, queues, run); }
      }
    } else {
      assert IsRun(msqids, queues, [Start(queues)]);
      var run := RunToEnd(msqids, queues, [Start(queues)], 0);
    }
  }
}
