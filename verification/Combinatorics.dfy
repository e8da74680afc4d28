/** Binomial coefficients and the numbering of the k-element subsets of [0, n). */
module Combinatorics {

  const TWO64 := 0x1_0000_0000_0000_0000

  /** The binomial coefficient, by Pascal's rule. */
  function Choose(n: nat, r: nat): nat {
    if r == 0 then 1 else if n == 0 then 0 else Choose(n - 1, r) + Choose(n - 1, r - 1)
  }

  lemma {:induction false} ChooseBeyond(n: nat, r: nat)
    requires n < r
    ensures Choose(n, r) == 0
  {
    if n > 0 {
      ChooseBeyond(n - 1, r);
      ChooseBeyond(n - 1, r - 1);
    }
  }

  lemma {:induction false} ChooseSelf(n: nat)
    ensures Choose(n, n) == 1
  {
    if n > 0 {
      ChooseBeyond(n - 1, n);
      ChooseSelf(n - 1);
    }
  }

  lemma {:induction false} ChooseMonotone(m: nat, n: nat, r: nat)
    requires m <= n
    ensures Choose(m, r) <= Choose(n, r)
  {
    if m < n && r > 0 {
      ChooseMonotone(m, n - 1, r);
    }
  }

  lemma {:induction false} ChooseSymmetric(n: nat, r: nat)
    requires r <= n
    ensures Choose(n, r) == Choose(n, n - r)
  {
    if r == 0 || r == n {
      ChooseSelf(n);
    } else {
      ChooseSymmetric(n - 1, r);
      ChooseSymmetric(n - 1, r - 1);
    }
  }

  function Power2(n: nat): (p: nat)
    ensures p > 0
  {
    if n == 0 then 1 else 2 * Power2(n - 1)
  }

  lemma {:induction false} ChooseBelowPower(n: nat, r: nat)
    ensures Choose(n, r) <= Power2(n)
  {
    if n > 0 {
      ChooseBelowPower(n - 1, r);
      if r > 0 {
        ChooseBelowPower(n - 1, r - 1);
      }
    } else if r > 0 {
      ChooseBeyond(n, r);
    }
  }

  function Wrap(x: nat): nat {
    x % TWO64
  }

  lemma PascalStep(i: nat, j: nat)
    requires i >= 1 && j >= 1
    ensures Wrap(Wrap(Choose(i - 1 + j, j)) + Wrap(Choose(i + (j - 1), j - 1))) == Wrap(Choose(i + j, j))
  {
    WrapAdd(Choose(i - 1 + j, j), Choose(i + (j - 1), j - 1));
  }

  lemma WrapAdd(x: nat, y: nat)
    ensures Wrap(Wrap(x) + Wrap(y)) == Wrap(x + y)
  {
  }

  /** One pass over the columns moves them from row i - 1 to row i. */
  method AddRow(c: array<nat>, i: nat)
    requires i >= 1 && c.Length >= 1
    requires forall j | 0 <= j < c.Length :: c[j] == Wrap(Choose(i - 1 + j, j))
    modifies c
    ensures forall j | 0 <= j < c.Length :: c[j] == Wrap(Choose(i + j, j))
  {
    for j := 1 to c.Length
      invariant forall k | 0 <= k < j :: c[k] == Wrap(Choose(i + k, k))
      invariant forall k | j <= k < c.Length :: c[k] == Wrap(Choose(i - 1 + k, k))
    {
      PascalStep(i, j);
      c[j] := Wrap(c[j] + c[j - 1]);
    }
  }

  lemma RowZero(w: nat)
    ensures forall j | 0 <= j <= w :: Wrap(Choose(j, j)) == 1
  {
    forall j | 0 <= j <= w ensures Wrap(Choose(j, j)) == 1 {
      ChooseSelf(j);
    }
  }

  /** Adding columns in place gives the binomial coefficient, modulo the width of the accumulator. */
  method Cnr(n: nat, r: nat) returns (result: nat)
    requires r <= n
    ensures result == Wrap(Choose(n, r))
  {
    ChooseSymmetric(n, r);
    var w := if n - r < r then n - r else r;
    var c := new nat[w + 1](_ => 1);
    RowZero(w);
    for i := 1 to n - w + 1
      invariant forall j | 0 <= j <= w :: c[j] == Wrap(Choose(i - 1 + j, j))
    {
      AddRow(c, i);
    }
    result := c[w];
  }

  /* ---------------------------------------------------------------- ranking */

  predicate Increasing(s: seq<nat>) {
    forall i, j | 0 <= i < j < |s| :: s[i] < s[j]
  }

  /** The sum of Choose(s[j], first + j): the rank of `s` when `first` is 1. */
  function RankFrom(s: seq<nat>, first: nat): nat {
    if s == [] then 0 else Choose(s[0], first) + RankFrom(s[1..], first + 1)
  }

  /** The number of an increasing combination, with positions counted from one. */
  function Rank(s: seq<nat>): nat {
    RankFrom(s, 1)
  }

  function Insert(t: seq<nat>, x: nat): seq<nat> {
    if t == [] || x <= t[0] then [x] + t else [t[0]] + Insert(t[1..], x)
  }

  function Sort(s: seq<nat>): seq<nat> {
    if s == [] then [] else Insert(Sort(s[..|s| - 1]), s[|s| - 1])
  }

  /** The search for a value from `m` down: it stops where the wrapped count is at most `num`. */
  function Largest(num: nat, i: nat, m: nat): nat {
    if m <= i || Wrap(Choose(m, i)) <= num then m else Largest(num, i, m - 1)
  }

  lemma {:induction false} LargestIs(num: nat, i: nat, max: nat, m: nat)
    requires i <= m <= max && Wrap(Choose(m, i)) <= num && forall j | m < j <= max :: num < Wrap(Choose(j, i))
    ensures Largest(num, i, max) == m
  {
    if m < max {
      LargestIs(num, i, max - 1, m);
    }
  }

  function Minus(x: nat, y: nat): nat {
    if x < y then 0 else x - y
  }

  /** The combination that a number stands for: the largest value whose count fits the number, then the same for what is
      left of the number and the smaller values; zero stands for the smallest values. */
  function Combination(num: nat, i: nat, max: nat): seq<nat> {
    if i == 0 then []
    else if num == 0 then Combination(0, i - 1, max) + [i - 1]
    else
      var x := Largest(num, i, max);
      Combination(Minus(num, Wrap(Choose(x, i))), i - 1, Minus(x, 1)) + [x]
  }

  /** The largest m <= max whose wrapped count is at most `num`. The search always ends, because
      Choose(i, i) is 1. */
  method LargestBelow(num: nat, i: nat, max: nat) returns (m: nat)
    requires 1 <= i <= max && num > 0
    ensures i <= m <= max && Wrap(Choose(m, i)) <= num
    ensures forall j | m < j <= max :: num < Wrap(Choose(j, i))
  {
    m := max;
    ChooseSelf(i);
    while true
      invariant i <= m <= max
      invariant forall j | m < j <= max :: num < Wrap(Choose(j, i))
      decreases m
    {
      var c := Cnr(m, i);
      if num >= c {
        return;
      }
      m := m - 1;
    }
  }

  lemma PushSmallest(picked: seq<nat>, x: nat)
    requires Sort(picked) == [] || x < Sort(picked)[0]
    ensures Sort(picked + [x]) == [x] + Sort(picked)
  {
    assert (picked + [x])[..|picked|] == picked;
  }

  /** The k - i largest values `t` are chosen; i values below `bound` with rank `rest` are still to come. */
  ghost predicate Chosen(t: seq<nat>, i: nat, k: nat, n: nat, bound: nat, rest: nat, num: nat) {
    && |t| + i == k && Increasing(t) && (forall x | x in t :: bound <= x < n) && bound <= n
    && rest + RankFrom(t, i + 1) == num && rest < Choose(bound, i)
  }

  lemma ChosenNext(t: seq<nat>, i: nat, k: nat, n: nat, bound: nat, rest: nat, num: nat, x: nat)
    requires i >= 1 && Chosen(t, i, k, n, bound, rest, num)
    requires x < bound && Choose(x, i) <= rest < Choose(x + 1, i)
    ensures Chosen([x] + t, i - 1, k, n, x, rest - Choose(x, i), num)
    ensures t == [] || x < t[0]
  {
    assert ([x] + t)[1..] == t;
    assert t != [] ==> t[0] in t;
  }

  /** One step of the search: the i-th value from below, and what is left of the number. */
  method PickValue(num: nat, i: nat, max: nat) returns (x: nat, rest: nat, lower: nat)
    requires i >= 1 && (num > 0 ==> i <= max)
    ensures num == 0 ==> x == i - 1 && rest == 0 && lower == max
    ensures num > 0 ==> i <= x <= max && lower + 1 == x && rest == num - Wrap(Choose(x, i))
    ensures num > 0 ==> forall j | x < j <= max :: num < Wrap(Choose(j, i))
  {
    if num <= 0 {
      x, rest, lower := i - 1, 0, max;
    } else {
      x := LargestBelow(num, i, max);
      var c := Cnr(x, i);
      rest, lower := num - c, x - 1;
    }
  }

  /** No count the search looks at wraps around. */
  ghost predicate Fits(n: nat, k: nat) {
    forall i | 0 <= i <= k :: Choose(n, i) < TWO64
  }

  lemma PickIsRanked(num: nat, i: nat, max: nat, bound: nat, n: nat, k: nat, x: nat)
    requires 1 <= i <= k && num < Choose(bound, i) && bound <= n && Fits(n, k)
    requires num > 0 ==> max <= bound <= max + 1
    requires num == 0 ==> x == i - 1
    requires num > 0 ==> i <= x <= max && Wrap(Choose(x, i)) <= num && forall j | x < j <= max :: num < Wrap(Choose(j, i))
    ensures x < bound && Choose(x, i) <= num < Choose(x + 1, i)
    ensures num > 0 ==> Wrap(Choose(x, i)) == Choose(x, i)
  {
    if num == 0 {
      if bound < i {
        ChooseBeyond(bound, i);
      }
      ChooseBeyond(i - 1, i);
      ChooseSelf(i);
    } else {
      ChooseMonotone(x, n, i);
      ChooseMonotone(bound, max + 1, i);
      if x < max {
        ChooseMonotone(x + 1, n, i);
        assert num < Wrap(Choose(x + 1, i));
      }
    }
  }

  lemma PickIsChosen(t: seq<nat>, i: nat, k: nat, n: nat, max: nat, bound: nat, rest: nat, num: nat, x: nat, rest': nat)
    requires 1 <= i <= k && Chosen(t, i, k, n, bound, rest, num) && Fits(n, k)
    requires rest > 0 ==> max <= bound <= max + 1
    requires rest == 0 ==> x == i - 1 && rest' == 0
    requires rest > 0 ==> i <= x <= max && Wrap(Choose(x, i)) <= rest && rest' == rest - Wrap(Choose(x, i))
    requires rest > 0 ==> forall j | x < j <= max :: rest < Wrap(Choose(j, i))
    ensures Chosen([x] + t, i - 1, k, n, x, rest', num)
  {
    PickIsRanked(rest, i, max, bound, n, k, x);
    ChosenNext(t, i, k, n, bound, rest, num, x);
    if rest == 0 {
      ChooseBeyond(i - 1, i);
    }
  }

  /** k - i distinct values below n are picked, and i smaller ones can still be found. */
  ghost predicate Picked(t: seq<nat>, i: nat, k: nat, n: nat, max: nat, rest: nat) {
    && |t| + i == k && Increasing(t) && (forall x | x in t :: x < n)
    && (if rest > 0 then i <= max && (forall x | x in t :: max < x) else forall x | x in t :: i <= x)
  }

  lemma PickedNext(t: seq<nat>, i: nat, k: nat, n: nat, max: nat, rest: nat, x: nat, rest': nat)
    requires i >= 1 && Picked(t, i, k, n, max, rest) && x < n
    requires if rest > 0 then i <= x <= max else x == i - 1 && rest' == 0
    ensures Picked([x] + t, i - 1, k, n, if rest > 0 then x - 1 else max, rest')
    ensures t == [] || x < t[0]
  {
    assert t != [] ==> t[0] in t;
    forall y | y in [x] + t ensures y == x || y in t {
    }
  }

  lemma {:induction false} LargestProps(num: nat, i: nat, max: nat)
    requires 1 <= i <= max && num > 0
    ensures var m := Largest(num, i, max);
            i <= m <= max && Wrap(Choose(m, i)) <= num && forall j | m < j <= max :: num < Wrap(Choose(j, i))
  {
    ChooseSelf(i);
    if !(max <= i || Wrap(Choose(max, i)) <= num) {
      LargestProps(num, i, max - 1);
    }
  }

  /** The values come in order, are below n and as many as asked for, even when the counts wrap around. */
  lemma {:induction false} CombinationIsPicked(num: nat, i: nat, max: nat, t: seq<nat>, k: nat, n: nat)
    requires Picked(t, i, k, n, max, num) && max <= n && (num > 0 ==> max < n || num < Wrap(Choose(max, i)))
    requires num == 0 ==> i <= n
    ensures var c := Combination(num, i, max) + t; |c| == k && Increasing(c) && forall x | x in c :: x < n
    decreases i
  {
    if i == 0 {
      assert Combination(num, i, max) + t == t;
    } else {
      var x := if num == 0 then i - 1 else Largest(num, i, max);
      if num > 0 {
        LargestProps(num, i, max);
      }
      var rest, lower := if num == 0 then 0 else num - Wrap(Choose(x, i)), if num == 0 then max else x - 1;
      PickedNext(t, i, k, n, max, num, x, rest);
      CombinationIsPicked(rest, i - 1, lower, [x] + t, k, n);
      assert Combination(num, i, max) + t == Combination(rest, i - 1, lower) + ([x] + t);
    }
  }

  /** When no count wraps around the combination has the given number. */
  lemma {:induction false} CombinationIsRanked(rest: nat, i: nat, max: nat, t: seq<nat>, k: nat, n: nat, bound: nat, num: nat)
    requires i <= k && Chosen(t, i, k, n, bound, rest, num) && Fits(n, k)
    requires rest > 0 ==> i <= max <= bound <= max + 1
    ensures Rank(Combination(rest, i, max) + t) == num
    decreases i
  {
    if i == 0 {
      assert Choose(bound, 0) == 1 && Combination(rest, i, max) + t == t;
    } else {
      var x := if rest == 0 then i - 1 else Largest(rest, i, max);
      if rest > 0 {
        LargestProps(rest, i, max);
      }
      var rest', lower := if rest == 0 then 0 else rest - Wrap(Choose(x, i)), if rest == 0 then max else x - 1;
      PickIsChosen(t, i, k, n, max, bound, rest, num, x, rest');
      CombinationIsRanked(rest', i - 1, lower, [x] + t, k, n, x, num);
      assert Combination(rest, i, max) + t == Combination(rest', i - 1, lower) + ([x] + t);
    }
  }

  /** k increasing values below n, numbered from zero: distinct and in range even when the counts wrap around, and the
      combination with the given number when none does. */
  lemma CombinationIs(num: nat, k: nat, n: nat)
    requires k <= n && num < Wrap(Choose(n, k))
    ensures var c := Combination(num, k, n);
            && |c| == k && Increasing(c) && (forall x | x in c :: x < n)
            && (Fits(n, k) ==> Rank(c) == num)
  {
    var c := Combination(num, k, n);
    assert c + [] == c;
    CombinationIsPicked(num, k, n, [], k, n);
    if Fits(n, k) {
      assert Wrap(Choose(n, k)) == Choose(n, k);
      CombinationIsRanked(num, k, n, [], k, n, n, num);
    }
  }

  /** Searches for the values from the largest down, and sorts them. */
  method Unranking(num: nat, k: nat, n: nat) returns (c: seq<nat>)
    requires k <= n && num < Wrap(Choose(n, k))
    ensures c == Combination(num, k, n)
    ensures |c| == k && Increasing(c) && (forall x | x in c :: x < n)
    ensures Fits(n, k) ==> Rank(c) == num
  {
    var picked: seq<nat>, rest: nat, max: nat := [], num, n;
    var i := k;
    while i >= 1
      invariant 0 <= i <= k && Picked(Sort(picked), i, k, n, max, rest) && max <= n
      invariant rest > 0 ==> max < n || rest < Wrap(Choose(max, i))
      invariant Combination(num, k, n) == Combination(rest, i, max) + Sort(picked)
    {
      var x, rest', max' := PickValue(rest, i, max);
      PickKeeps(picked, i, k, n, max, rest, x, rest', max');
      picked, rest, max := picked + [x], rest', max';
      i := i - 1;
    }
    c := Sort(picked);
    CombinationIs(num, k, n);
  }

  lemma PickKeeps(picked: seq<nat>, i: nat, k: nat, n: nat, max: nat, rest: nat, x: nat, rest': nat, max': nat)
    requires i >= 1 && Picked(Sort(picked), i, k, n, max, rest) && x < n
    requires rest == 0 ==> x == i - 1 && rest' == 0 && max' == max
    requires rest > 0 ==> i <= x <= max && max' + 1 == x && Wrap(Choose(x, i)) <= rest && rest' == rest - Wrap(Choose(x, i))
    requires rest > 0 ==> forall j | x < j <= max :: rest < Wrap(Choose(j, i))
    ensures Sort(picked + [x]) == [x] + Sort(picked) && Picked(Sort(picked + [x]), i - 1, k, n, max', rest')
    ensures Combination(rest, i, max) + Sort(picked) == Combination(rest', i - 1, max') + Sort(picked + [x])
  {
    PickedNext(Sort(picked), i, k, n, max, rest, x, rest');
    PushSmallest(picked, x);
    if rest > 0 {
      LargestIs(rest, i, max, x);
    }
  }

  /* ---------------------------------------------------------------- the numbering is one to one */

  lemma {:induction false} RankBelow(s: seq<nat>)
    requires Increasing(s) && s != []
    ensures Choose(s[|s| - 1], |s|) <= Rank(s) < Choose(s[|s| - 1] + 1, |s|)
  {
    var n := |s| - 1;
    RankSplit(s, 1);
    if n > 0 {
      RankBelow(s[..n]);
      ChooseMonotone(s[n - 1] + 1, s[n], n);
    }
  }

  lemma {:induction false} RankSplit(s: seq<nat>, first: nat)
    requires s != []
    ensures RankFrom(s, first) == RankFrom(s[..|s| - 1], first) + Choose(s[|s| - 1], first + |s| - 1)
  {
    if |s| > 1 {
      RankSplit(s[1..], first + 1);
      assert s[1..][..|s| - 2] == s[..|s| - 1][1..];
    }
  }

  /** Different combinations have different numbers, so `Unranking` reaches each one exactly once. */
  lemma {:induction false} RankInjective(s: seq<nat>, t: seq<nat>)
    requires Increasing(s) && Increasing(t) && |s| == |t| && Rank(s) == Rank(t)
    ensures s == t
  {
    if s != [] {
      var n := |s| - 1;
      RankBelow(s);
      RankBelow(t);
      if s[n] < t[n] {
        ChooseMonotone(s[n] + 1, t[n], |s|);
      }
      if t[n] < s[n] {
        ChooseMonotone(t[n] + 1, s[n], |s|);
      }
      RankSplit(s, 1);
      RankSplit(t, 1);
      RankInjective(s[..n], t[..n]);
      assert s == s[..n] + [s[n]] && t == t[..n] + [t[n]];
    }
  }
}
