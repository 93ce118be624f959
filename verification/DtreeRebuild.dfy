/** The program on bytes after an overflow: whatever was lost, the rebuild and what follows it
    bring the cache into agreement with the directory trees again. */
module DtreeRebuild {
  import opened DirTree
  import opened DtreeInvariant
  import opened DtreeSteps
  import opened DtreeProtocol
  import opened DtreeConvergence
  import opened DtreeBytes
  import RawEvents
  import EventLoop
  import EventBuffer
  import EventRebuild

  // ----- the last rebuild of a run -----

  /** The program starts from nothing at j. */
  ghost predicate StartsAt(run: seq<State>, j: nat) {
    && j < |run| && Tree(run[j].dirs) && run[j] == Rebuilt(run[j].dirs, run[j].cookie)
    && (j > 0 ==> Rebuilds(run[j - 1], run[j]))
  }

  predicate NoneSince(run: seq<State>, j: nat, n: nat) {
    n < |run| && forall i :: j <= i <= n ==> !Overflown(run[i].queue)
  }

  /** There was no overflow between j and n, or it is still to be seen. */
  ghost predicate Epoch(run: seq<State>, j: nat, n: nat) {
    j <= n < |run| && StartsAt(run, j) && (Overflown(run[n].queue) || NoneSince(run, j, n))
  }

  lemma {:induction false} OverflowStays(s: State, s': State)
    requires Tree(s.dirs) && Overflown(s.queue) && Step(s, s')
    ensures Overflown(s'.queue) || Rebuilds(s, s')
  {
    LostStep(s, s');
  }

  lemma {:induction false} StartsAnew(run: seq<State>, n: nat)
    requires n + 1 < |run| && Rebuilds(run[n], run[n + 1]) && Tree(run[n].dirs)
    ensures StartsAt(run, n + 1)
  {
  }

  lemma {:induction false} NoneSinceMore(run: seq<State>, j: nat, n: nat)
    requires n + 1 < |run| && !Overflown(run[n + 1].queue)
    ensures NoneSince(run, n + 1, n + 1) && (NoneSince(run, j, n) ==> NoneSince(run, j, n + 1))
  {
  }

  lemma {:induction false} EpochOf(run: seq<State>, n: nat) returns (j: nat)
    requires IsRun(run) && n < |run|
    ensures Epoch(run, j, n)
    decreases n
  {
    if n == 0 {
      j := 0;
    } else {
      var m := n - 1;
      j := EpochOf(run, m);
      assert Step(run[m], run[m + 1]);
      TreeInRun(run, m);
      if !Overflown(run[n].queue) {
        NoneSinceMore(run, j, m);
        if Overflown(run[m].queue) {
          OverflowStays(run[m], run[m + 1]);
          StartsAnew(run, m);
          j := n;
        }
      }
    }
  }

  lemma {:induction false} TailIsRun(run: seq<State>, j: nat)
    requires IsRun(run) && j < |run| && Tree(run[j].dirs) && run[j] == Rebuilt(run[j].dirs, run[j].cookie)
    ensures IsRun(run[j..])
  {
    forall k | 0 <= k < |run[j..]| - 1 ensures Step(run[j..][k], run[j..][k + 1]) {
      assert Step(run[j + k], run[j + k + 1]);
    }
  }

  lemma {:induction false} TailNeverOverflown(run: seq<State>, j: nat)
    requires j < |run| && NoneSince(run, j, |run| - 1)
    ensures NeverOverflown(run[j..])
  {
    forall i | 0 <= i < |run[j..]| ensures !Overflown(run[j..][i].queue) {
      assert run[j..][i] == run[j + i];
    }
  }

  /** Every run that ends at rest, however often the queue overflowed: since its last rebuild,
      or from its start, there was no overflow. */
  lemma LastEpoch(run: seq<State>) returns (j: nat, labels: seq<Label>)
    requires IsRun(run) && Idle(run[|run| - 1])
    ensures j < |run| && Steps(run[j..], labels) && (j > 0 ==> Rebuilds(run[j - 1], run[j]))
  {
    j := EpochOf(run, |run| - 1);
    TailIsRun(run, j);
    TailNeverOverflown(run, j);
    labels := RunHasLabels(run[j..]);
  }

  // ----- the loop on bytes -----

  /** From position m on, the kernel answers as in the story. */
  ghost predicate AnswersAs(k: EventLoop.Kernel, m: nat, st: Story) {
    forall c: nat :: k.live(c + m) == KernelOf(st).live(c) && k.visits(c + m) == KernelOf(st).visits(c)
  }

  lemma StartsAsTold(k: EventLoop.Kernel, arrivals: EventBuffer.Arrivals, pre: seq<RawEvents.Record>,
                     s: EventLoop.Program, st: Story, roots: set<string>)
    requires s.running && EventRebuild.JustRebuilt(EventBuffer.RunEvents(k, arrivals, pre, s))
    requires var r := EventBuffer.RunEvents(k, arrivals, pre, s);
             r.program.roots == roots && k.visits(EventRebuild.RebuiltAt(r)) == st.first
    ensures EventBuffer.RunEvents(k, arrivals, pre, s).program == StartOf(st, roots)
  {
    EventRebuild.EveryOverflowRebuilds(k, arrivals, pre, s);
  }

  lemma AnswersAgree(k: EventLoop.Kernel, m: nat, st: Story)
    requires AnswersAs(k, m, st)
    ensures AgreeBelow(KernelOf(st), EventRebuild.Later(k, m), |st.posted|)
  {
  }

  /** Whatever events the program has read, if it has just rebuilt its cache (an overflow does
      that), and goes on to read the bytes of the events that are queued from then on, it
      ends with the cache of that run of the system, in agreement with its trees. */
  lemma BytesFollowTreesAgain(k: EventLoop.Kernel, arrivals: EventBuffer.Arrivals, pre: seq<RawEvents.Record>,
                              post: seq<RawEvents.Record>, s: EventLoop.Program, run: seq<State>, labels: seq<Label>)
    requires s.running && EventRebuild.ReadApart(arrivals, |pre|)
    requires EventRebuild.JustRebuilt(EventBuffer.RunEvents(k, arrivals, pre, s))
    requires Steps(run, labels) && Idle(run[|labels|])
    requires var r, st := EventBuffer.RunEvents(k, arrivals, pre, s), StoryOf(run, labels);
             && r.program.roots == RootPaths(run[0].dirs)
             && k.visits(EventRebuild.RebuiltAt(r)) == st.first && AnswersAs(k, |pre|, st)
             && RawEvents.Events(post) == st.posted
             && InTime(EventRebuild.LaterArrivals(arrivals, |pre|), st.posted)
    ensures EventBuffer.RunEvents(k, arrivals, pre + post, s).program
         == EventLoop.Program(run[|labels|].slots, RootPaths(run[0].dirs), true)
    ensures Settled(run[|labels|], run[|labels|].dirs)
  {
    var st, roots, m := StoryOf(run, labels), RootPaths(run[0].dirs), |pre|;
    StartsAsTold(k, arrivals, pre, s, st, roots);
    EventRebuild.RunsOn(k, arrivals, pre, post, s);
    AnswersAgree(k, m, st);
    StoryFollows(run, labels);
    RunsAsTold(st, run[|labels|], roots, EventRebuild.Later(k, m), EventRebuild.LaterArrivals(arrivals, m), post);
    StepsAreRun(run, labels);
    CacheFollowsTrees(run, |labels|);
  }
}
