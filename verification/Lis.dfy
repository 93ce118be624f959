/** The quadratic longest-increasing-subsequence program of LIS.cpp. */
module Lis {

  /** The indices of a strictly increasing subsequence. */
  ghost predicate Increasing(a: seq<int>, idx: seq<nat>) {
    && (forall t :: 0 <= t < |idx| ==> idx[t] < |a|)
    && (forall s, t :: 0 <= s < t < |idx| ==> idx[s] < idx[t] && a[idx[s]] < a[idx[t]])
  }

  ghost predicate EndsAt(a: seq<int>, idx: seq<nat>, i: nat) {
    Increasing(a, idx) && idx != [] && idx[|idx| - 1] == i
  }

  ghost predicate Attained(a: seq<int>, len: int) {
    exists idx :: Increasing(a, idx) && |idx| == len
  }

  /** `len` is the length of the longest increasing subsequence. */
  ghost predicate IsLongest(a: seq<int>, len: int) {
    Attained(a, len) && forall idx :: Increasing(a, idx) ==> |idx| <= len
  }

  ghost predicate AttainedAt(a: seq<int>, i: nat, len: int) {
    exists idx :: EndsAt(a, idx, i) && |idx| == len
  }

  /** `len` is the length of the longest one that ends at index i. */
  ghost predicate IsLongestAt(a: seq<int>, i: nat, len: int) {
    AttainedAt(a, i, len) && forall idx :: EndsAt(a, idx, i) ==> |idx| <= len
  }

  lemma Extend(a: seq<int>, j: nat, i: nat, len: int)
    requires j < i < |a| && a[j] < a[i] && AttainedAt(a, j, len)
    ensures AttainedAt(a, i, len + 1)
  {
    var idx :| EndsAt(a, idx, j) && |idx| == len;
    assert EndsAt(a, idx + [i], i);
  }

  /** A subsequence of two or more elements ends with a step from some j to i. */
  lemma LastStep(a: seq<int>, idx: seq<nat>, i: nat)
    requires EndsAt(a, idx, i) && |idx| > 1
    ensures var j := idx[|idx| - 2];
            j < i && a[j] < a[i] && EndsAt(a, idx[..|idx| - 1], j)
  {
  }

  /** Every subsequence ending at i is no longer than `len`, if it comes to i in one
      step from before j (or from nowhere). */
  ghost predicate BoundedBefore(a: seq<int>, i: nat, j: nat, len: int) {
    forall idx :: EndsAt(a, idx, i) && (|idx| == 1 || idx[|idx| - 2] < j) ==> |idx| <= len
  }

  lemma BoundStep(a: seq<int>, i: nat, j: nat, len: int, at: int)
    requires j < i < |a| && BoundedBefore(a, i, j, len) && IsLongestAt(a, j, at)
    ensures var len' := if a[j] < a[i] && len < at + 1 then at + 1 else len;
            BoundedBefore(a, i, j + 1, len')
  {
    var len' := if a[j] < a[i] && len < at + 1 then at + 1 else len;
    forall idx | EndsAt(a, idx, i) && (|idx| == 1 || idx[|idx| - 2] < j + 1) ensures |idx| <= len' {
      if |idx| > 1 && idx[|idx| - 2] == j {
        LastStep(a, idx, i);
      }
    }
  }

  lemma BoundDone(a: seq<int>, i: nat, len: int)
    requires i < |a| && BoundedBefore(a, i, i, len) && AttainedAt(a, i, len)
    ensures IsLongestAt(a, i, len)
  {
    forall idx | EndsAt(a, idx, i) ensures |idx| <= len {
      if |idx| > 1 { LastStep(a, idx, i); }
    }
  }

  /** Lengths ending somewhere are lengths, and every length ends somewhere. */
  lemma AttainedSomewhere(a: seq<int>, i: nat, len: int)
    requires AttainedAt(a, i, len)
    ensures Attained(a, len)
  {
  }

  lemma LongestOfAll(a: seq<int>, dp: seq<int>, res: int)
    requires |dp| == |a| && |a| >= 2 && Attained(a, res)
    requires forall i :: 0 <= i < |a| ==> IsLongestAt(a, i, dp[i]) && dp[i] <= res
    ensures IsLongest(a, res)
  {
    forall idx | Increasing(a, idx) ensures |idx| <= res {
      if idx == [] {
        assert IsLongestAt(a, 0, dp[0]) && dp[0] <= res;
        assert EndsAt(a, [0], 0) && |[0]| == 1;
      } else {
        var i := idx[|idx| - 1];
        assert EndsAt(a, idx, i);
        assert IsLongestAt(a, i, dp[i]) && dp[i] <= res;
      }
    }
  }

  /** The first `n` cells of the table are right. */
  ghost predicate Filled(a: seq<int>, cells: seq<int>, n: nat) {
    n <= |cells| && forall k :: 0 <= k < n ==> IsLongestAt(a, k, cells[k])
  }

  /** What `res` has seen after the rows before `n`: row 0 leaves it alone, every other
      row lifts it at least to the row's cell. */
  ghost predicate Seen(a: seq<int>, cells: seq<int>, n: nat, res: int) {
    && n <= |cells|
    && Attained(a, res)
    && (forall k :: 1 <= k < n ==> 1 <= cells[k] <= res)
    && (n <= 1 ==> res == 0)
  }

  /** The inner loop of solve() for one i. */
  method FillRow(a: seq<int>, dp: array<int>, i: nat, before: int) returns (res: int)
    requires i < |a| <= dp.Length && Filled(a, dp[..], i) && Seen(a, dp[..], i, before)
    modifies dp
    ensures Filled(a, dp[..], i + 1) && Seen(a, dp[..], i + 1, res)
  {
    res := before;
    ghost var cells := dp[..i];
    dp[i] := 1;
    assert EndsAt(a, [i], i) && |[i]| == 1;
    for j := 0 to i
      invariant dp[..i] == cells
      invariant AttainedAt(a, i, dp[i]) && BoundedBefore(a, i, j, dp[i]) && dp[i] >= 1
      invariant Attained(a, res) && before <= res
      invariant if j > 0 then res >= dp[i] else res == before
    {
      assert dp[j] == cells[j] && IsLongestAt(a, j, dp[j]);
      BoundStep(a, i, j, dp[i], dp[j]);
      if a[j] < a[i] {
        Extend(a, j, i, dp[j]);
        dp[i] := if dp[i] < dp[j] + 1 then dp[j] + 1 else dp[i];
      }
      AttainedSomewhere(a, i, dp[i]);
      res := if res < dp[i] then dp[i] else res;
    }
    BoundDone(a, i, dp[i]);
    forall k | 0 <= k < i ensures dp[..][k] == cells[k] {}
  }

  lemma FirstCell(a: seq<int>, len: int)
    requires IsLongestAt(a, 0, len)
    ensures len <= 1
  {
    var idx :| EndsAt(a, idx, 0) && |idx| == len;
    if |idx| > 1 { LastStep(a, idx, 0); }
  }

  lemma {:induction false} IndexAtLeast(a: seq<int>, idx: seq<nat>, t: nat)
    requires Increasing(a, idx) && t < |idx|
    ensures idx[t] >= t
    decreases t
  {
    if t > 0 { IndexAtLeast(a, idx, t - 1); }
  }

  lemma NoLongerThanArray(a: seq<int>, idx: seq<nat>)
    requires Increasing(a, idx)
    ensures |idx| <= |a|
  {
    if idx != [] { IndexAtLeast(a, idx, |idx| - 1); }
  }

  lemma Conclude(a: seq<int>, cells: seq<int>, res: int)
    requires Filled(a, cells, |a|) && Seen(a, cells, |a|, res)
    ensures IsLongest(a, res) <==> |a| != 1
  {
    if |a| >= 2 {
      FirstCell(a, cells[0]);
      assert 1 <= cells[1] <= res;
      LongestOfAll(a, cells[..|a|], res);
    } else if |a| == 1 {
      assert Increasing(a, [0]) && |[0]| == 1;
    } else {
      forall idx | Increasing(a, idx) ensures |idx| <= 0 {
        NoLongerThanArray(a, idx);
      }
    }
  }

  /** solve(): dp[i] becomes the length of the longest increasing subsequence ending at
      i. The update of `res` sits inside the inner loop, so that an array of length 1
      never reaches it: the result is the longest length exactly for the other arrays. */
  method Solve(a: seq<int>, dp: array<int>) returns (res: int)
    requires |a| <= dp.Length
    modifies dp
    ensures forall i :: 0 <= i < |a| ==> IsLongestAt(a, i, dp[..][i])
    ensures IsLongest(a, res) <==> |a| != 1
    ensures |a| == 1 ==> res == 0
  {
    res := 0;
    ghost var none: seq<nat> := [];
    assert Increasing(a, none) && |none| == 0;
    for i := 0 to |a|
      invariant Filled(a, dp[..], i) && Seen(a, dp[..], i, res)
    {
      res := FillRow(a, dp, i, res);
    }
    Conclude(a, dp[..], res);
  }
}
