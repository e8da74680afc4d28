/** Production slots: who may produce when, and the order of a round. */
module Schedule {
  import opened Prelude
  import opened Records

  const BLOCK_INTERVAL := 10
  const NUM_DELEGATES := 101

  function SlotNumber(t: Time): nat {
    t / BLOCK_INTERVAL
  }

  function SlotStart(t: Time): Time {
    SlotNumber(t) * BLOCK_INTERVAL
  }

  /** The delegate whose turn it is; none when the list is too short for the position. */
  function SlotSignee(t: Time, active: seq<AccountId>): Option<AccountId> {
    var pos := SlotNumber(t) % NUM_DELEGATES;
    if pos < |active| then Some(active[pos]) else None
  }

  /** In ten-second slots counted from zero, position p of the list signs every slot that leaves the remainder p after
      whole rounds of 101. */
  lemma SigneeIs(active: seq<AccountId>, rounds: nat, p: nat, seconds: nat)
    requires p < 101 && seconds < 10
    ensures SlotSignee(10 * (101 * rounds + p) + seconds, active) == if p < |active| then Some(active[p]) else None
  {
    assert SlotNumber(10 * (101 * rounds + p) + seconds) == 101 * rounds + p;
    RemainderIs(rounds, p);
  }

  lemma RemainderIs(rounds: nat, p: nat)
    requires p < 101
    ensures (101 * rounds + p) % 101 == p
  {
  }

  predicate Distinct<T(==)>(s: seq<T>) {
    forall i, j | 0 <= i < j < |s| :: s[i] != s[j]
  }

  /* ---------------------------------------------------------------- a round */

  /** The time k slots later. */
  function Later(t: Time, k: nat): Time {
    t + k * BLOCK_INTERVAL
  }

  lemma SlotLater(t: Time, k: nat)
    ensures SlotNumber(Later(t, k)) == SlotNumber(t) + k
  {
  }

  /** Some turn `k` of the next round falls on position `p`. */
  function TurnOf(slot: nat, p: nat): nat
    requires p < NUM_DELEGATES
  {
    (p + NUM_DELEGATES - slot % NUM_DELEGATES) % NUM_DELEGATES
  }

  lemma TurnIsUnique(slot: nat, p: nat, k: nat)
    requires p < NUM_DELEGATES && k < NUM_DELEGATES
    ensures TurnOf(slot, p) < NUM_DELEGATES && (slot + TurnOf(slot, p)) % NUM_DELEGATES == p
    ensures (slot + k) % NUM_DELEGATES == p ==> k == TurnOf(slot, p)
  {
    RoundsDropOut(slot, k);
    RoundsDropOut(slot, TurnOf(slot, p));
  }

  /** Whole rounds do not matter for the position. */
  lemma RoundsDropOut(slot: nat, k: nat)
    requires k < NUM_DELEGATES
    ensures var r := slot % NUM_DELEGATES;
            (slot + k) % NUM_DELEGATES == if r + k < NUM_DELEGATES then r + k else r + k - NUM_DELEGATES
  {
    var q, r := slot / NUM_DELEGATES, slot % NUM_DELEGATES;
    assert slot == NUM_DELEGATES * q + r;
    if r + k < NUM_DELEGATES {
      assert slot + k == NUM_DELEGATES * q + (r + k);
    } else {
      assert slot + k == NUM_DELEGATES * (q + 1) + (r + k - NUM_DELEGATES);
    }
  }

  /** In a full list without repeats, every delegate gets exactly one of any consecutive 101 slots. */
  lemma EveryDelegateHasOneTurn(active: seq<AccountId>, t: Time, d: AccountId)
    requires |active| == NUM_DELEGATES && Distinct(active) && d in active
    ensures exists k: nat ::
              && k < NUM_DELEGATES && SlotSignee(Later(t, k), active) == Some(d)
              && forall j: nat | j < NUM_DELEGATES && SlotSignee(Later(t, j), active) == Some(d) :: j == k
  {
    var p: nat :| p < |active| && active[p] == d;
    TurnIsUnique(SlotNumber(t), p, 0);
    var k := TurnOf(SlotNumber(t), p);
    SlotLater(t, k);
    forall j: nat | j < NUM_DELEGATES && SlotSignee(Later(t, j), active) == Some(d) ensures j == k {
      SlotLater(t, j);
      var q := (SlotNumber(t) + j) % NUM_DELEGATES;
      assert active[q] == active[p];
      TurnIsUnique(SlotNumber(t), p, j);
    }
  }

  /* ---------------------------------------------------------------- shuffling */

  /** Each position in turn is exchanged with a drawn one at or after it. */
  function Shuffled<T>(s: seq<T>, draws: seq<nat>): seq<T>
    requires |draws| == |s|
    decreases |s|
  {
    if s == [] then []
    else
      var t := Swapped(s, draws[0] % |s|);
      [t[0]] + Shuffled(t[1..], draws[1..])
  }

  function Swapped<T>(s: seq<T>, j: nat): (t: seq<T>)
    requires j < |s|
    ensures |t| == |s|
  {
    s[0 := s[j]][j := s[0]]
  }

  lemma SwappedIsPermutation<T>(s: seq<T>, j: nat)
    requires j < |s|
    ensures multiset(Swapped(s, j)) == multiset(s)
  {
  }

  lemma {:induction false} ShuffledIsPermutation<T>(s: seq<T>, draws: seq<nat>)
    requires |draws| == |s|
    ensures multiset(Shuffled(s, draws)) == multiset(s)
    decreases |s|
  {
    if s != [] {
      var t := Swapped(s, draws[0] % |s|);
      SwappedIsPermutation(s, draws[0] % |s|);
      ShuffledIsPermutation(t[1..], draws[1..]);
      assert t == [t[0]] + t[1..];
    }
  }

  lemma TailsAgree<T>(t: seq<T>, p: seq<T>)
    requires t != [] && p != [] && t[0] == p[0] && multiset(t) == multiset(p)
    ensures multiset(t[1..]) == multiset(p[1..])
  {
    assert t == [t[0]] + t[1..] && p == [p[0]] + p[1..];
    assert multiset(t[1..]) == multiset(t) - multiset{t[0]};
  }

  lemma ShuffledStep<T>(s: seq<T>, j: nat, rest: seq<nat>)
    requires j < |s| && |rest| == |s| - 1
    ensures Shuffled(s, [j] + rest) == [s[j]] + Shuffled(Swapped(s, j)[1..], rest)
  {
    var draws := [j] + rest;
    assert draws[0] == j && draws[1..] == rest;
    assert draws[0] % |s| == j by {
      SmallRemainder(j, |s|);
    }
    var t := Swapped(s, j);
    assert t[0] == s[j];
    calc {
      Shuffled(s, draws);
      [t[0]] + Shuffled(t[1..], draws[1..]);
      [s[j]] + Shuffled(t[1..], rest);
    }
  }

  lemma SmallRemainder(j: nat, n: nat)
    requires j < n
    ensures j % n == j
  {
  }

  /** Every order can come out: for each permutation there are draws that produce it. */
  lemma {:induction false} EveryOrderIsReached<T>(s: seq<T>, p: seq<T>) returns (draws: seq<nat>)
    requires multiset(s) == multiset(p)
    ensures |draws| == |s| && Shuffled(s, draws) == p
    decreases |s|
  {
    assert |multiset(s)| == |s| && |multiset(p)| == |p|;
    if s == [] {
      draws := [];
    } else {
      assert p[0] in multiset(p);
      var j: nat :| j < |s| && s[j] == p[0];
      var t := Swapped(s, j);
      SwappedIsPermutation(s, j);
      TailsAgree(t, p);
      var rest := EveryOrderIsReached(t[1..], p[1..]);
      ShuffledStep(s, j, rest);
      draws := [j] + rest;
      assert p == [p[0]] + p[1..];
    }
  }

  lemma PermutationKeepsDistinct<T>(s: seq<T>, p: seq<T>)
    requires Distinct(s) && multiset(s) == multiset(p)
    ensures Distinct(p)
  {
    forall i, j | 0 <= i < j < |p| ensures p[i] != p[j] {
      if p[i] == p[j] {
        TwiceInSeq(p, i, j);
        OnceInSeq(s, p[i]);
        assert false;
      }
    }
  }

  lemma TwiceInSeq<T>(p: seq<T>, i: nat, j: nat)
    requires i < j < |p| && p[i] == p[j]
    ensures multiset(p)[p[i]] >= 2
  {
    assert p == p[..j] + [p[j]] + p[j + 1..];
    assert p[..j][i] in multiset(p[..j]);
  }

  lemma {:induction false} OnceInSeq<T>(s: seq<T>, x: T)
    requires Distinct(s)
    ensures multiset(s)[x] <= 1
  {
    if s != [] {
      var n := |s| - 1;
      OnceInSeq(s[..n], x);
      assert s == s[..n] + [s[n]];
      if s[n] == x {
        assert x !in s[..n];
        assert x !in multiset(s[..n]);
      }
    }
  }

  /** One exchange in the whole list is one step on the part not yet settled. */
  lemma ExchangeStep<T>(before: seq<T>, i: nat, j: nat, after: seq<T>, draws: seq<nat>)
    requires i <= j < |before| == |draws| && j == draws[i] % (|before| - i) + i
    requires after == before[i := before[j]][j := before[i]]
    ensures after[..i + 1] + Shuffled(after[i + 1..], draws[i + 1..]) == before[..i] + Shuffled(before[i..], draws[i..])
  {
    var t := Swapped(before[i..], j - i);
    assert draws[i..][0] == draws[i] && draws[i..][1..] == draws[i + 1..];
    assert after[i + 1..] == t[1..];
    assert after[..i + 1] == before[..i] + [t[0]];
  }

  /** Shuffles the list of a round in place. */
  method Shuffle(a: array<AccountId>, draws: seq<nat>)
    requires |draws| == a.Length
    modifies a
    ensures a[..] == Shuffled(old(a[..]), draws)
    ensures multiset(a[..]) == multiset(old(a[..]))
    ensures Distinct(old(a[..])) ==> Distinct(a[..])
  {
    ghost var s := a[..];
    assert a[..0] + Shuffled(s, draws) == Shuffled(s, draws) && s[0..] == s && draws[0..] == draws;
    for i := 0 to a.Length
      invariant a[..][..i] + Shuffled(a[..][i..], draws[i..]) == Shuffled(s, draws)
    {
      var j := draws[i] % (a.Length - i) + i;
      ghost var before := a[..];
      a[i], a[j] := a[j], a[i];
      ExchangeStep(before, i, j, a[..], draws);
    }
    assert a[..] == Shuffled(s, draws) by {
      assert a[..] == a[..][..a.Length] + [];
    }
    ShuffledIsPermutation(s, draws);
    if Distinct(s) {
      PermutationKeepsDistinct(s, Shuffled(s, draws));
    }
  }

  /* ---------------------------------------------------------------- the next slot to produce in */

  /** The first slot the search looks at: the slot of the clock, or the one after it when the head block
      has already reached that slot. */
  function FirstSlot(clock: Time, head: Time): Time {
    if SlotStart(clock) <= head then SlotStart(clock) + BLOCK_INTERVAL else SlotStart(clock)
  }

  /** The first k slots from `first` have a producer, and none of them is wanted. */
  ghost predicate NoneWanted(first: Time, k: nat, active: seq<AccountId>, ids: seq<AccountId>) {
    forall i: nat {:trigger SlotSignee(Later(first, i), active)} | i < k ::
      var signee := SlotSignee(Later(first, i), active);
      signee.Some? && signee.value !in ids
  }

  /** The earliest slot one of the given delegates may produce in. The error is the failed assertion on a
      list that is too short. */
  method NextProducible(clock: Time, head: Time, active: seq<AccountId>, ids: seq<AccountId>)
    returns (r: Result<Option<Time>, nat>)
    ensures r.Ok? && r.value.Some? ==> exists k: nat ::
              && k < NUM_DELEGATES && r.value.value == Later(FirstSlot(clock, head), k)
              && NoneWanted(FirstSlot(clock, head), k, active, ids)
              && SlotSignee(r.value.value, active).Some? && SlotSignee(r.value.value, active).value in ids
    ensures r.Ok? && r.value.None? ==> NoneWanted(FirstSlot(clock, head), NUM_DELEGATES, active, ids)
    ensures r.Err? ==> r.error < NUM_DELEGATES && NoneWanted(FirstSlot(clock, head), r.error, active, ids) &&
                       SlotSignee(Later(FirstSlot(clock, head), r.error), active).None?
  {
    var first := FirstSlot(clock, head);
    var k := 0;
    while k < NUM_DELEGATES
      invariant 0 <= k <= NUM_DELEGATES && NoneWanted(first, k, active, ids)
    {
      var signee := SlotSignee(Later(first, k), active);
      if signee.None? {
        return Err(k);
      }
      if signee.value in ids {
        return Ok(Some(Later(first, k)));
      }
      k := k + 1;
    }
    r := Ok(None);
  }

  /** With a full list, a round passes without a wanted slot exactly when no given delegate is active. */
  lemma NoneWantedIffInactive(first: Time, active: seq<AccountId>, ids: seq<AccountId>)
    requires |active| == NUM_DELEGATES
    ensures NoneWanted(first, NUM_DELEGATES, active, ids) <==> forall d | d in ids :: d !in active
  {
    if d: AccountId :| d in ids && d in active {
      var p: nat :| p < |active| && active[p] == d;
      var k := TurnOf(SlotNumber(first), p);
      TurnIsUnique(SlotNumber(first), p, 0);
      SlotLater(first, k);
      assert SlotSignee(Later(first, k), active) == Some(d);
    } else {
      forall k: nat | k < NUM_DELEGATES
        ensures SlotSignee(Later(first, k), active).Some? && SlotSignee(Later(first, k), active).value !in ids
      {
        var d := active[SlotNumber(Later(first, k)) % NUM_DELEGATES];
        assert d in active;
      }
    }
  }
}
