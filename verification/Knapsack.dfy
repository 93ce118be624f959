/** The 0-1 knapsack of backpack.cpp: a recursion over the items from the front, and
    a table over the items from the back. Both are the best total value of any
    selection of items that fits. */
module Knapsack {

  function Max(x: int, y: int): int {
    if x < y then y else x
  }

  /** rec(i, j): the items from index i on, capacity j. */
  function Rec(w: seq<nat>, v: seq<int>, i: nat, j: nat): int
    requires |w| == |v| && i <= |w|
    decreases |w| - i
  {
    if i == |w| then 0
    else if w[i] > j then Rec(w, v, i + 1, j)
    else Max(Rec(w, v, i + 1, j), Rec(w, v, i + 1, j - w[i]) + v[i])
  }

  /** The table cell dp[i][j]: the items before index i, capacity j. */
  function Cell(w: seq<nat>, v: seq<int>, i: nat, j: nat): int
    requires |w| == |v| && i <= |w|
  {
    if i == 0 then 0
    else if j < w[i - 1] then Cell(w, v, i - 1, j)
    else Max(Cell(w, v, i - 1, j), Cell(w, v, i - 1, j - w[i - 1]) + v[i - 1])
  }

  // ----- selections -----

  /** The sum of the selected elements. */
  function Total(xs: seq<int>, pick: seq<bool>): int
    requires |xs| == |pick|
  {
    if xs == [] then 0
    else (if pick[0] then xs[0] else 0) + Total(xs[1..], pick[1..])
  }

  ghost predicate Selects(w: seq<nat>, v: seq<int>, j: nat, pick: seq<bool>, value: int)
    requires |w| == |v|
  {
    |pick| == |w| && Total(w, pick) <= j && Total(v, pick) == value
  }

  /** `best` is the largest total value of a selection of weight at most j. */
  ghost predicate IsBest(w: seq<nat>, v: seq<int>, j: nat, best: int)
    requires |w| == |v|
  {
    && (exists pick :: Selects(w, v, j, pick, best))
    && (forall pick, value :: Selects(w, v, j, pick, value) ==> value <= best)
  }

  lemma BestIsUnique(w: seq<nat>, v: seq<int>, j: nat, a: int, b: int)
    requires |w| == |v| && IsBest(w, v, j, a) && IsBest(w, v, j, b)
    ensures a == b
  {
  }

  lemma {:induction false} TotalNonNegative(w: seq<nat>, pick: seq<bool>)
    requires |w| == |pick|
    ensures Total(w, pick) >= 0
    decreases |w|
  {
    if w != [] {
      TotalNonNegative(w[1..], pick[1..]);
    }
  }

  lemma {:induction false} TotalAppend(xs: seq<int>, pick: seq<bool>, x: int, b: bool)
    requires |xs| == |pick|
    ensures Total(xs + [x], pick + [b]) == Total(xs, pick) + (if b then x else 0)
    decreases |xs|
  {
    if xs != [] {
      assert (xs + [x])[1..] == xs[1..] + [x];
      assert (pick + [b])[1..] == pick[1..] + [b];
      TotalAppend(xs[1..], pick[1..], x, b);
    } else {
      assert xs + [x] == [x] && pick + [b] == [b];
    }
  }

  /** The best of one item and the rest, with the item taken from the front. */
  lemma BestOfFront(w: seq<nat>, v: seq<int>, x: nat, y: int, j: nat, without: int, with': int)
    requires |w| == |v| && IsBest(w, v, j, without)
    requires x <= j ==> IsBest(w, v, j - x, with')
    ensures IsBest([x] + w, [y] + v, j, if x > j then without else Max(without, with' + y))
  {
    var best := if x > j then without else Max(without, with' + y);
    var w', v': seq<int> := [x] + w, [y] + v;
    assert w'[1..] == w && v'[1..] == v;
    if x <= j && without < with' + y {
      var pick :| Selects(w, v, j - x, pick, with');
      assert ([true] + pick)[1..] == pick;
      assert Selects([x] + w, v', j, [true] + pick, best);
    } else {
      var pick :| Selects(w, v, j, pick, without);
      assert ([false] + pick)[1..] == pick;
      assert Selects([x] + w, v', j, [false] + pick, best);
    }
    forall pick, value | Selects([x] + w, v', j, pick, value) ensures value <= best {
      TotalNonNegative(w, pick[1..]);
      assert Total(w', pick) == (if pick[0] then x else 0) + Total(w, pick[1..]);
      assert Total(v', pick) == (if pick[0] then y else 0) + Total(v, pick[1..]);
      if pick[0] {
        assert Selects(w, v, j - x, pick[1..], value - y);
      } else {
        assert Selects(w, v, j, pick[1..], value);
      }
    }
  }

  lemma BestOfBack(w: seq<nat>, v: seq<int>, x: nat, y: int, j: nat, without: int, with': int)
    requires |w| == |v| && IsBest(w, v, j, without)
    requires x <= j ==> IsBest(w, v, j - x, with')
    ensures IsBest(w + [x], v + [y], j, if x > j then without else Max(without, with' + y))
  {
    var best := if x > j then without else Max(without, with' + y);
    if x <= j && without < with' + y {
      var pick :| Selects(w, v, j - x, pick, with');
      TotalAppend(w, pick, x, true);
      TotalAppend(v, pick, y, true);
      assert Selects(w + [x], v + [y], j, pick + [true], best);
    } else {
      var pick :| Selects(w, v, j, pick, without);
      TotalAppend(w, pick, x, false);
      TotalAppend(v, pick, y, false);
      assert Selects(w + [x], v + [y], j, pick + [false], best);
    }
    forall pick, value | Selects(w + [x], v + [y], j, pick, value) ensures value <= best {
      var n := |w|;
      var rest, bit := pick[..n], pick[n];
      assert pick == rest + [bit];
      TotalNonNegative(w, rest);
      TotalAppend(w, rest, x, bit);
      TotalAppend(v, rest, y, bit);
      if bit {
        assert Selects(w, v, j - x, rest, value - y);
      } else {
        assert Selects(w, v, j, rest, value);
      }
    }
  }

  /** rec(i, j) is the best value of the items from i on. */
  lemma {:induction false} RecIsBest(w: seq<nat>, v: seq<int>, i: nat, j: nat)
    requires |w| == |v| && i <= |w|
    ensures IsBest(w[i..], v[i..], j, Rec(w, v, i, j))
    decreases |w| - i
  {
    if i == |w| {
      assert Selects(w[i..], v[i..], j, [], 0);
    } else {
      RecIsBest(w, v, i + 1, j);
      var with' := 0;
      if w[i] <= j {
        RecIsBest(w, v, i + 1, j - w[i]);
        with' := Rec(w, v, i + 1, j - w[i]);
      }
      BestOfFront(w[i + 1..], v[i + 1..], w[i], v[i], j, Rec(w, v, i + 1, j), with');
      assert w[i..] == [w[i]] + w[i + 1..] && v[i..] == [v[i]] + v[i + 1..];
    }
  }

  /** dp[i][j] is the best value of the items before i. */
  lemma {:induction false} CellIsBest(w: seq<nat>, v: seq<int>, i: nat, j: nat)
    requires |w| == |v| && i <= |w|
    ensures IsBest(w[..i], v[..i], j, Cell(w, v, i, j))
    decreases i
  {
    if i == 0 {
      assert Selects(w[..0], v[..0], j, [], 0);
    } else {
      CellIsBest(w, v, i - 1, j);
      var with' := 0;
      if w[i - 1] <= j {
        CellIsBest(w, v, i - 1, j - w[i - 1]);
        with' := Cell(w, v, i - 1, j - w[i - 1]);
      }
      BestOfBack(w[..i - 1], v[..i - 1], w[i - 1], v[i - 1], j, Cell(w, v, i - 1, j), with');
      assert w[..i] == w[..i - 1] + [w[i - 1]] && v[..i] == v[..i - 1] + [v[i - 1]];
    }
  }

  /** The table read at its end and the recursion started at its beginning give the
      same number, the best value of all items. */
  lemma TableIsRecursion(w: seq<nat>, v: seq<int>, capacity: nat)
    requires |w| == |v|
    ensures Cell(w, v, |w|, capacity) == Rec(w, v, 0, capacity)
    ensures IsBest(w, v, capacity, Rec(w, v, 0, capacity))
  {
    CellIsBest(w, v, |w|, capacity);
    RecIsBest(w, v, 0, capacity);
    assert w[..|w|] == w == w[0..] && v[..|v|] == v == v[0..];
    BestIsUnique(w, v, capacity, Cell(w, v, |w|, capacity), Rec(w, v, 0, capacity));
  }

  /** solve_pure_dp(): fills the table row by row, from a first row of zeros, and
      returns what it prints. */
  method SolvePureDp(w: seq<nat>, v: seq<int>, capacity: nat, dp: array2<int>) returns (printed: int)
    requires |w| == |v| && |w| < dp.Length0 && capacity < dp.Length1
    requires forall j :: 0 <= j <= capacity ==> dp[0, j] == 0
    modifies dp
    ensures printed == Rec(w, v, 0, capacity) && IsBest(w, v, capacity, printed)
    ensures forall i, j :: 0 <= i <= |w| && 0 <= j <= capacity ==> dp[i, j] == Cell(w, v, i, j)
  {
    for i := 0 to |w|
      invariant forall i', j :: 0 <= i' <= i && 0 <= j <= capacity ==> dp[i', j] == Cell(w, v, i', j)
    {
      var row := i + 1;
      for j := 0 to capacity + 1
        invariant forall i', j' :: 0 <= i' <= i && 0 <= j' <= capacity ==> dp[i', j'] == Cell(w, v, i', j')
        invariant forall j' :: 0 <= j' < j ==> dp[row, j'] == Cell(w, v, row, j')
      {
        if j < w[i] {
          dp[row, j] := dp[i, j];
        } else {
          dp[row, j] := Max(dp[i, j], dp[i, j - w[i]] + v[i]);
        }
      }
    }
    TableIsRecursion(w, v, capacity);
    printed := dp[|w|, capacity];
  }

  /** rec_dp(): returns a cell that is already filled, and recomputes otherwise. */
  method RecDp(w: seq<nat>, v: seq<int>, i: nat, j: nat, dp: array2<int>) returns (res: int)
    requires |w| == |v| && i <= |w| && |w| < dp.Length0 && j < dp.Length1
    requires dp[i, j] >= 0 ==> dp[i, j] == Rec(w, v, i, j)
    ensures res == Rec(w, v, i, j) && IsBest(w[i..], v[i..], j, res)
  {
    RecIsBest(w, v, i, j);
    if dp[i, j] >= 0 {
      return dp[i, j];
    }
    if i == |w| {
      res := 0;
    } else if w[i] > j {
      res := Rec(w, v, i + 1, j);
    } else {
      res := Max(Rec(w, v, i + 1, j), Rec(w, v, i + 1, j - w[i]) + v[i]);
    }
  }
}
