/** The daily rewards for notes: who wins, and how much of the pool is paid out. */
module Rewards {
  import opened Prelude
  import opened Combinatorics
  import opened Schedule

  const TWO16 := 0x1_0000

  function Select<T>(s: seq<T>, at: seq<nat>): seq<T>
    requires forall i | 0 <= i < |at| :: at[i] < |s|
  {
    seq(|at|, i requires 0 <= i < |at| => s[at[i]])
  }

  lemma RemoveOne<T>(s: seq<T>, i: nat)
    requires i < |s|
    ensures multiset(s[..i] + s[i + 1..]) + multiset{s[i]} == multiset(s)
  {
    assert s == s[..i] + [s[i]] + s[i + 1..];
  }

  /** The entries that are not at the given positions, in order. */
  function Without<T>(s: seq<T>, at: seq<nat>): seq<T> {
    if s == [] then [] else Without(s[..|s| - 1], at) + (if |s| - 1 in at then [] else [s[|s| - 1]])
  }

  lemma {:induction false} WithoutNone<T>(s: seq<T>, at: seq<nat>)
    requires forall p | p in at :: p >= |s|
    ensures Without(s, at) == s
  {
    if s != [] {
      WithoutNone(s[..|s| - 1], at);
    }
  }

  /** Leaving out a position before all the others. */
  lemma {:induction false} WithoutNext<T>(s: seq<T>, p: nat, at: seq<nat>)
    requires p < |s| && forall x | x in at :: p < x
    ensures var w := Without(s, at); p < |w| && w[p] == s[p] && Without(s, [p] + at) == w[..p] + w[p + 1..]
  {
    var n := |s| - 1;
    assert n in [p] + at <==> n == p || n in at;
    if p == n {
      WithoutNone(s[..n], at);
      WithoutOther(s[..n], p, at);
    } else {
      WithoutNext(s[..n], p, at);
    }
  }

  lemma {:induction false} WithoutOther<T>(s: seq<T>, p: nat, at: seq<nat>)
    requires p >= |s|
    ensures Without(s, [p] + at) == Without(s, at)
  {
    if s != [] {
      assert |s| - 1 in [p] + at <==> |s| - 1 in at;
      WithoutOther(s[..|s| - 1], p, at);
    }
  }

  /** What is drawn and what is left make up the entries. */
  lemma {:induction false} WithoutAndSelect<T>(s: seq<T>, at: seq<nat>)
    requires Increasing(at) && forall i | 0 <= i < |at| :: at[i] < |s|
    ensures multiset(Without(s, at)) + multiset(Select(s, at)) == multiset(s)
  {
    if at == [] {
      WithoutNone(s, at);
    } else {
      TailIsAbove(at);
      WithoutAndSelect(s, at[1..]);
      WithoutFirst(s, at);
      SelectFirst(s, at);
      MoveOne(multiset(Without(s, at)), multiset(Select(s, at[1..])), s[at[0]]);
    }
  }

  lemma MoveOne<T>(a: multiset<T>, b: multiset<T>, x: T)
    ensures a + (multiset{x} + b) == (a + multiset{x}) + b
  {
  }

  lemma WithoutFirst<T>(s: seq<T>, at: seq<nat>)
    requires Increasing(at) && at != [] && forall i | 0 <= i < |at| :: at[i] < |s|
    ensures multiset(Without(s, at)) + multiset{s[at[0]]} == multiset(Without(s, at[1..]))
  {
    TailIsAbove(at);
    WithoutNext(s, at[0], at[1..]);
    assert at == [at[0]] + at[1..];
    RemoveOne(Without(s, at[1..]), at[0]);
  }

  lemma TailIsAbove(at: seq<nat>)
    requires Increasing(at) && at != []
    ensures Increasing(at[1..]) && forall x | x in at[1..] :: at[0] < x
  {
    forall x | x in at[1..] ensures at[0] < x {
      var i :| 0 <= i < |at| - 1 && at[1..][i] == x;
      assert x == at[i + 1];
    }
  }

  lemma SelectFirst<T>(s: seq<T>, at: seq<nat>)
    requires at != [] && forall i | 0 <= i < |at| :: at[i] < |s|
    ensures multiset(Select(s, at)) == multiset{s[at[0]]} + multiset(Select(s, at[1..]))
  {
    assert Select(s, at) == [s[at[0]]] + Select(s, at[1..]);
  }

  /** Erases the drawn positions, the last one first. */
  method EraseAll<T>(s: seq<T>, at: seq<nat>) returns (rest: seq<T>)
    requires Increasing(at) && forall i | 0 <= i < |at| :: at[i] < |s|
    ensures rest == Without(s, at)
  {
    rest := s;
    var i := |at|;
    WithoutNone(s, at[|at|..]);
    while i > 0
      invariant 0 <= i <= |at| && rest == Without(s, at[i..])
    {
      i := i - 1;
      WithoutNext(s, at[i], at[i + 1..]);
      assert at[i..] == [at[i]] + at[i + 1..];
      rest := rest[..at[i]] + rest[at[i] + 1..];
    }
    assert at[0..] == at;
  }

  /** The draw is defined: the entries are taken all, or their 16-bit count is at least k and the wrapped
      number of combinations is not zero. */
  predicate Drawable(count: nat, k: nat) {
    count <= k || (count % TWO16 >= k && Wrap(Choose(count % TWO16, k)) > 0)
  }

  /** The positions that are drawn of more than k entries: the combination that the random number stands for. */
  function LuckyOf(count: nat, k: nat, random: nat): seq<nat>
    requires Drawable(count, k) && count > k
  {
    Combination(random % Wrap(Choose(count % TWO16, k)), k, count % TWO16)
  }

  /** Draws k entries, or all when there are no more than k. */
  method Draw<T>(entries: seq<T>, k: nat, random: nat) returns (ok: bool, drawn: seq<T>, rest: seq<T>)
    ensures ok ==> multiset(drawn) + multiset(rest) == multiset(entries)
    ensures ok ==> |drawn| == if |entries| <= k then |entries| else k
    ensures ok <==> Drawable(|entries|, k)
    ensures ok ==> IsDraw(entries, k, random, drawn, rest)
  {
    if |entries| <= k {
      return true, entries, [];
    }
    var n := |entries| % TWO16;
    if n < k {
      return false, [], [];
    }
    var combinations := Cnr(n, k);
    if combinations == 0 {
      return false, [], [];
    }
    var lucky := Unranking(random % combinations, k, n);
    forall i | 0 <= i < |lucky| ensures lucky[i] < |entries| {
      assert lucky[i] in lucky && n <= |entries|;
    }
    drawn := Select(entries, lucky);
    rest := EraseAll(entries, lucky);
    WithoutAndSelect(entries, lucky);
    ok := true;
  }

  /** The lucky entries are drawn and the others stay, in order. */
  ghost predicate IsDraw<T>(entries: seq<T>, k: nat, random: nat, drawn: seq<T>, rest: seq<T>)
    requires Drawable(|entries|, k)
  {
    if |entries| <= k then drawn == entries && rest == []
    else
      var lucky := LuckyOf(|entries|, k, random);
      (forall i | 0 <= i < |lucky| :: lucky[i] < |entries|) && drawn == Select(entries, lucky) && rest == Without(entries, lucky)
  }

  /** The winning positions of a round, by level. */
  datatype Winners = Winners(first: seq<nat>, second: seq<nat>, third: seq<nat>) {
    function All(): seq<nat> {
      first + second + third
    }

    /** All positions are below n. */
    predicate InRange(n: nat) {
      && (forall i | 0 <= i < |first| :: first[i] < n)
      && (forall i | 0 <= i < |second| :: second[i] < n)
      && (forall i | 0 <= i < |third| :: third[i] < n)
    }

    lemma PartsBelow(n: nat)
      requires forall x | x in All() :: x < n
      ensures InRange(n)
    {
      forall i | 0 <= i < |first| ensures first[i] < n {
        assert first[i] in All() by {
          assert All()[i] == first[i];
        }
      }
      forall i | 0 <= i < |second| ensures second[i] < n {
        assert second[i] in All() by {
          assert All()[|first| + i] == second[i];
        }
      }
      forall i | 0 <= i < |third| ensures third[i] < n {
        assert third[i] in All() by {
          assert All()[|first| + |second| + i] == third[i];
        }
      }
    }
  }

  function Positions(n: nat): (s: seq<nat>)
    ensures |s| == n && Distinct(s) && forall x | x in s :: x < n
  {
    seq(n, i => i)
  }

  lemma PartIsDistinct<T>(all: seq<T>, part: seq<T>, rest: seq<T>)
    requires Distinct(all) && multiset(part) + multiset(rest) == multiset(all)
    ensures Distinct(part) && forall x | x in part :: x in all
  {
    forall i, j | 0 <= i < j < |part| ensures part[i] != part[j] {
      if part[i] == part[j] {
        TwiceInSeq(part, i, j);
        OnceInSeq(all, part[i]);
        assert false;
      }
    }
    forall x | x in part ensures x in all {
      assert x in multiset(part);
      assert x in multiset(all);
    }
  }

  function Less(count: nat, taken: nat): nat {
    if count <= taken then 0 else count - taken
  }

  /** The first level is the position that the first random number stands for, and each further level is drawn by the
      next number from the positions that are left, in order. */
  ghost predicate DrawnInOrder(count: nat, random: (nat, nat, nat), w: Winners) {
    var left := if count == 0 then [] else Without(Positions(count), [random.0 % count]);
    && w.first == (if count == 0 then [] else [random.0 % count])
    && Drawable(|left|, 2)
    && exists left', left'' :: IsDraw(left, 2, random.1, w.second, left') && Drawable(|left'|, 5) && IsDraw(left', 5, random.2, w.third, left'')
  }

  /** One winner of the first level, two of the second and five of the third, as far as the notes go.
      No position wins twice. */
  method PickWinners(count: nat, random: (nat, nat, nat)) returns (w: Option<Winners>)
    ensures w.Some? ==> |w.value.first| <= 1 && |w.value.second| <= 2 && |w.value.third| <= 5
    ensures w.Some? ==> |w.value.All()| == if count <= 8 then count else 8
    ensures w.Some? ==> Distinct(w.value.All()) && forall x | x in w.value.All() :: x < count
    ensures w.Some? <==> var m := Less(count, 1); Drawable(m, 2) && Drawable(Less(m, 2), 5)
    ensures w.Some? ==> DrawnInOrder(count, random, w.value)
  {
    var first, entries := DrawOne(Positions(count), random.0);
    var ok, second, third;
    ghost var rest, rest';
    ok, second, third, rest, rest' := DrawLevels(entries, random.1, random.2);
    if !ok {
      return None;
    }
    w := Some(Winners(first, second, third));
    AllTogether(w.value, Positions(count), entries, rest, rest');
    PartIsDistinct(Positions(count), w.value.All(), rest');
    LevelsInOrder(count, random, w.value, entries, rest, rest');
  }

  /** The second and the third level. */
  method DrawLevels(entries: seq<nat>, random: nat, random': nat)
    returns (ok: bool, second: seq<nat>, third: seq<nat>, ghost rest: seq<nat>, ghost rest': seq<nat>)
    ensures ok <==> Drawable(|entries|, 2) && Drawable(Less(|entries|, 2), 5)
    ensures ok ==> multiset(second) + multiset(rest) == multiset(entries) && multiset(third) + multiset(rest') == multiset(rest)
    ensures ok ==> |second| == (if |entries| <= 2 then |entries| else 2) && |third| == if |entries| <= 7 then Less(|entries|, 2) else 5
    ensures ok ==> Drawable(|rest|, 5) && IsDraw(entries, 2, random, second, rest) && IsDraw(rest, 5, random', third, rest')
  {
    third, rest, rest' := [], [], [];
    var left, left';
    ok, second, left := Draw(entries, 2, random);
    if !ok {
      return;
    }
    DrawnSizes(entries, second, left);
    ok, third, left' := Draw(left, 5, random');
    rest, rest' := left, left';
  }

  lemma AllTogether(w: Winners, all: seq<nat>, left: seq<nat>, left': seq<nat>, left'': seq<nat>)
    requires multiset(w.first) + multiset(left) == multiset(all)
    requires multiset(w.second) + multiset(left') == multiset(left) && multiset(w.third) + multiset(left'') == multiset(left')
    ensures multiset(w.All()) + multiset(left'') == multiset(all)
  {
  }

  lemma LevelsInOrder(count: nat, random: (nat, nat, nat), w: Winners, left: seq<nat>, left': seq<nat>, left'': seq<nat>)
    requires left == if count == 0 then [] else Without(Positions(count), [random.0 % count])
    requires w.first == if count == 0 then [] else [random.0 % count]
    requires Drawable(|left|, 2) && IsDraw(left, 2, random.1, w.second, left')
    requires Drawable(|left'|, 5) && IsDraw(left', 5, random.2, w.third, left'')
    ensures DrawnInOrder(count, random, w)
  {
  }

  /** The first level: one entry, unless there is none. */
  method DrawOne<T>(entries: seq<T>, random: nat) returns (drawn: seq<T>, rest: seq<T>)
    ensures multiset(drawn) + multiset(rest) == multiset(entries)
    ensures |drawn| == (if entries == [] then 0 else 1) && |rest| == Less(|entries|, 1)
    ensures entries == [] ==> rest == []
    ensures entries != [] ==> drawn == [entries[random % |entries|]] && rest == Without(entries, [random % |entries|])
  {
    drawn, rest := [], entries;
    if entries != [] {
      var i := random % |entries|;
      RemoveOne(entries, i);
      WithoutNone(entries, []);
      WithoutNext(entries, i, []);
      assert [i] + [] == [i];
      drawn, rest := [entries[i]], entries[..i] + entries[i + 1..];
    }
  }

  lemma DrawnSizes<T>(entries: seq<T>, drawn: seq<T>, rest: seq<T>)
    requires multiset(drawn) + multiset(rest) == multiset(entries)
    ensures |drawn| + |rest| == |entries|
  {
    assert |multiset(drawn)| + |multiset(rest)| == |multiset(entries)|;
  }

  /* ---------------------------------------------------------------- amounts */

  const LEVELS := [40, 15, 6]

  function Reward(share: int, level: nat): int
    requires level < 3
  {
    share * LEVELS[level] / 100
  }

  /** The levels win 40, 15 and 6 percent of the share, rounded down. */
  lemma RewardIs(share: int)
    ensures 100 * Reward(share, 0) <= 40 * share < 100 * Reward(share, 0) + 100
    ensures 100 * Reward(share, 1) <= 15 * share < 100 * Reward(share, 1) + 100
    ensures 100 * Reward(share, 2) <= 6 * share < 100 * Reward(share, 2) + 100
  {
  }

  /** A payment made n times. */
  function Times(n: nat, x: int): int {
    if n == 0 then 0 else Times(n - 1, x) + x
  }

  lemma {:induction false} TimesAtMost(n: nat, k: nat, x: int)
    requires n <= k && x >= 0
    ensures 0 <= Times(n, x) <= Times(k, x)
  {
    if k > 0 {
      TimesAtMost(if n < k then n else k - 1, k - 1, x);
    }
  }

  /** One winner of the first level, two of the second and five of the third never exceed the share. */
  lemma RewardsFitShare(share: int, first: nat, second: nat, third: nat)
    requires share >= 0 && first <= 1 && second <= 2 && third <= 5
    ensures Reward(share, 0) >= 0 && Reward(share, 1) >= 0 && Reward(share, 2) >= 0
    ensures 0 <= Times(first, Reward(share, 0)) + Times(second, Reward(share, 1)) + Times(third, Reward(share, 2)) <= share
  {
    TimesAtMost(first, 1, Reward(share, 0));
    TimesAtMost(second, 2, Reward(share, 1));
    TimesAtMost(third, 5, Reward(share, 2));
    SmallTimes(Reward(share, 0));
    SmallTimes(Reward(share, 1));
    SmallTimes(Reward(share, 2));
    assert Reward(share, 0) + 2 * Reward(share, 1) + 5 * Reward(share, 2) <= share;
  }

  lemma SmallTimes(x: int)
    ensures Times(1, x) == x && Times(2, x) == 2 * x && Times(5, x) == 5 * x
  {
    assert Times(3, x) == Times(2, x) + x;
  }
}
