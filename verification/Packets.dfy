/** Red packets: how an amount is split into random shares, and how the shares are claimed. */
module Packets {
  import opened Prelude
  import opened Records
  import opened Combinatorics
  import opened Arithmetic

  const PRECISION := 100000
  const PACKET_FEE := PRECISION
  const PACKET_UNIT := PRECISION
  const MAX_SHARES_PER_PACKET := 30
  const TWO32 := 0x1_0000_0000

  /* ---------------------------------------------------------------- reading a packet */

  lemma LeftAppend(shares: seq<Share>, s: Share)
    ensures LeftAmount(shares + [s]) == LeftAmount(shares) + (if s.claimant == UNCLAIMED then s.amount else 0)
  {
    assert (shares + [s])[..|shares|] == shares;
  }

  /** The index of the first unclaimed share, or the number of shares. */
  method NextAvailableClaimIndex(shares: seq<Share>) returns (index: nat)
    ensures index <= |shares|
    ensures forall i | 0 <= i < index :: shares[i].claimant != UNCLAIMED
    ensures index < |shares| ==> shares[index].claimant == UNCLAIMED
  {
    index := 0;
    for i := 0 to |shares|
      invariant index == i
      invariant forall j | 0 <= j < i :: shares[j].claimant != UNCLAIMED
    {
      if shares[i].claimant == UNCLAIMED {
        return;
      }
      index := index + 1;
    }
  }

  method LeftPacketAmount(shares: seq<Share>) returns (left: int)
    ensures left == LeftAmount(shares)
  {
    left := 0;
    for i := 0 to |shares|
      invariant left == LeftAmount(shares[..i])
    {
      LeftAppend(shares[..i], shares[i]);
      assert shares[..i + 1] == shares[..i] + [shares[i]];
      if shares[i].claimant == UNCLAIMED {
        left := left + shares[i].amount;
      }
    }
    assert shares[..|shares|] == shares;
  }

  /* ---------------------------------------------------------------- splitting */

  lemma ChooseFits(n: nat, k: nat)
    requires k <= n <= 61
    ensures Fits(n, k) && Choose(n, k) >= 1
  {
    forall i: nat | i <= k ensures Choose(n, i) < TWO64 {
      ChooseBelowPower(n, i);
      PowerMonotone(n, 61);
      PowerOf61();
    }
    ChooseSelf(k);
    ChooseMonotone(k, n, k);
  }

  lemma PowerOf61()
    ensures Power2(61) == 0x2000_0000_0000_0000
  {
    PowerAdd(1, 1);
    PowerAdd(2, 2);
    PowerAdd(4, 1);
    PowerAdd(5, 5);
    PowerAdd(10, 10);
    PowerAdd(20, 20);
    PowerAdd(40, 20);
    PowerAdd(60, 1);
  }

  lemma {:induction false} PowerAdd(a: nat, b: nat)
    ensures Power2(a + b) == Power2(a) * Power2(b)
  {
    if b > 0 {
      PowerAdd(a, b - 1);
    }
  }

  lemma {:induction false} PowerMonotone(m: nat, n: nat)
    requires m <= n
    ensures Power2(m) <= Power2(n)
  {
    if m < n {
      PowerMonotone(m, n - 1);
    }
  }

  /** The number of units and the unit after halving. */
  function Coarse(space: nat, unit: int, count: nat): (nat, int) {
    if space <= (count + 1) * 2 then (space, unit) else Coarse(space / 2, unit * 2, count)
  }

  /** After j halvings the unit is 2^j times as large and the count divided by 2^j, and j is the least number that
      brings the count down to the limit. */
  lemma {:induction false} CoarseIs(space: nat, unit: int, count: nat) returns (j: nat)
    ensures Coarse(space, unit, count).0 == space / Power2(j) <= (count + 1) * 2
    ensures Coarse(space, unit, count).1 == unit * Power2(j)
    ensures j > 0 ==> space / Power2(j - 1) > (count + 1) * 2
  {
    if space <= (count + 1) * 2 {
      j := 0;
    } else {
      var i := CoarseIs(space / 2, unit * 2, count);
      j := i + 1;
      DivideTwice(space, Power2(i));
      DoubleUnit(unit, Power2(i));
      if i > 0 {
        DivideTwice(space, Power2(i - 1));
      }
    }
  }

  lemma DoubleUnit(unit: int, p: nat)
    ensures unit * 2 * p == unit * (2 * p)
  {
  }

  lemma DivideTwice(x: nat, p: nat)
    requires p > 0
    ensures x / 2 / p == x / (2 * p)
  {
    var h, q := x / 2, x / 2 / p;
    var r := h - q * p;
    assert h == p * q + h % p;
    assert x == (2 * p) * q + (2 * r + x % 2) && 0 <= 2 * r + x % 2 < 2 * p;
    DivideIs(x, 2 * p, q, 2 * r + x % 2);
  }

  lemma DivideIs(x: int, d: int, q: int, r: int)
    requires x == d * q + r && 0 <= r < d
    ensures x / d == q
  {
    var q', r' := x / d, x % d;
    assert x == d * q' + r' && 0 <= r' < d;
    if q' > q {
      MulMonotone(q + 1, q', d);
    }
    if q' < q {
      MulMonotone(q' + 1, q, d);
    }
  }

  /** The share between consecutive cut points, in units: the first begins at zero and the last ends at `space`. */
  function CutShare(cuts: seq<nat>, space: nat, unit: int, i: nat): Share
    requires i <= |cuts|
  {
    var begin, end := if i == 0 then 0 else cuts[i - 1] + 1, if i < |cuts| then cuts[i] + 1 else space;
    Share((end - begin) * unit, UNCLAIMED)
  }

  function CutShares(cuts: seq<nat>, space: nat, unit: int): seq<Share> {
    seq(|cuts| + 1, i requires 0 <= i <= |cuts| => CutShare(cuts, space, unit, i))
  }

  /** The shares of a packet: the cuts are the combination that the seed stands for. */
  function SplitOf(amount: int, count: nat, seed: nat): Option<seq<Share>> {
    var coarse := Coarse((amount / PACKET_UNIT) % TWO32, PACKET_UNIT, count);
    if count <= 1 then Some([Share(coarse.0 * coarse.1, UNCLAIMED)])
    else if coarse.0 < count || Wrap(Choose(coarse.0 - 1, count - 1)) == 0 then None
    else Some(CutShares(Combination(seed % Wrap(Choose(coarse.0 - 1, count - 1)), count - 1, coarse.0 - 1), coarse.0, coarse.1))
  }

  /** Halves the number of units while there are more than twice the number of shares plus two. */
  method CoarsenUnits(amount: int, count: nat) returns (space: nat, unit: int)
    requires amount >= 0
    ensures (space, unit) == Coarse((amount / PACKET_UNIT) % TWO32, PACKET_UNIT, count)
  {
    space, unit := (amount / PACKET_UNIT) % TWO32, PACKET_UNIT;
    ghost var start := space;
    while space > (count + 1) * 2
      invariant Coarse(space, unit, count) == Coarse(start, PACKET_UNIT, count)
    {
      space, unit := space / 2, unit * 2;
    }
  }

  /** What halving keeps: no more than there was, and less than one final unit lost of what less than a unit was lost. */
  lemma {:induction false} CoarseKeeps(amount: int, space: nat, unit: int, count: nat)
    requires unit > 0
    ensures var c := Coarse(space, unit, count);
            && c.0 <= (count + 1) * 2 && c.1 >= unit && c.0 * c.1 <= space * unit
            && (amount - space * unit < unit ==> amount - c.0 * c.1 < c.1)
            && (if space <= (count + 1) * 2 then c == (space, unit) else c.0 >= count + 1)
  {
    if space > (count + 1) * 2 {
      Halving(amount, space, unit);
      CoarseKeeps(amount, space / 2, unit * 2, count);
    }
  }

  /** The units of a packet: enough for the shares exactly when the 32-bit count is, and less than one final unit is left
      over exactly when the count fits 32 bits. */
  lemma CoarseIsEnough(amount: int, count: nat)
    requires amount >= 0
    ensures var start := (amount / PACKET_UNIT) % TWO32;
            var c := Coarse(start, PACKET_UNIT, count);
            && 0 <= c.0 <= (count + 1) * 2 && c.1 >= PACKET_UNIT && c.0 * c.1 <= amount
            && (c.0 >= count <==> start >= count) && (c.0 == 0 <==> start == 0)
            && (amount - c.0 * c.1 < c.1 <==> amount / PACKET_UNIT < TWO32)
  {
    var start := (amount / PACKET_UNIT) % TWO32;
    var c := Coarse(start, PACKET_UNIT, count);
    StartingUnits(amount);
    CoarseKeeps(amount, start, PACKET_UNIT, count);
    if amount / PACKET_UNIT >= TWO32 {
      WrappedRemainder(amount, start, c.0, c.1);
    }
  }

  lemma StartingUnits(amount: int)
    requires amount >= 0
    ensures ((amount / PACKET_UNIT) % TWO32) * PACKET_UNIT <= amount
    ensures amount / PACKET_UNIT < TWO32 ==>
              (amount / PACKET_UNIT) % TWO32 == amount / PACKET_UNIT && amount - (amount / PACKET_UNIT) * PACKET_UNIT < PACKET_UNIT
  {
    var q := amount / PACKET_UNIT;
    assert q % TWO32 <= q;
  }

  lemma Halving(amount: int, space: nat, unit: int)
    requires unit > 0
    ensures (space / 2) * (unit * 2) <= space * unit
    ensures amount - space * unit < unit ==> amount - (space / 2) * (unit * 2) < unit * 2
  {
    var h := space / 2;
    assert space == 2 * h || space == 2 * h + 1;
    assert h * (unit * 2) == (2 * h) * unit;
    assert space == 2 * h + 1 ==> space * unit == (2 * h) * unit + unit;
  }

  /** When the unit count does not fit 32 bits, at least 2^32 units are lost. */
  lemma WrappedRemainder(amount: int, start: nat, space: nat, unit: int)
    requires amount >= 0 && amount / PACKET_UNIT >= TWO32 && start == (amount / PACKET_UNIT) % TWO32
    requires unit >= PACKET_UNIT && space * unit <= start * PACKET_UNIT && (space >= 1 || unit == PACKET_UNIT)
    ensures amount - space * unit >= unit
  {
    var q := amount / PACKET_UNIT;
    assert amount >= q * PACKET_UNIT && q >= start + TWO32;
    assert q * PACKET_UNIT >= (start + TWO32) * PACKET_UNIT;
    if space >= 1 {
      assert unit <= space * unit;
    }
  }

  /** Shares between consecutive cut points: the first ends after `cuts[0]`, the last at `space`. */
  method SharesFromCuts(cuts: seq<nat>, space: nat, unit: int) returns (shares: seq<Share>)
    requires Increasing(cuts) && |cuts| >= 1 && unit > 0
    requires forall x | x in cuts :: x + 1 < space
    ensures |shares| == |cuts| + 1 && LeftAmount(shares) == space * unit
    ensures forall s | s in shares :: s.amount >= unit && s.claimant == UNCLAIMED
    ensures shares == CutShares(cuts, space, unit)
  {
    var k := |cuts|;
    shares := [Share((cuts[0] + 1) * unit, UNCLAIMED)];
    for i := 0 to k - 1
      invariant |shares| == i + 1 && forall j | 0 <= j <= i :: shares[j] == CutShare(cuts, space, unit, j)
    {
      shares := shares + [Share((cuts[i + 1] - cuts[i]) * unit, UNCLAIMED)];
    }
    shares := shares + [Share((space - (cuts[k - 1] + 1)) * unit, UNCLAIMED)];
    assert shares == CutShares(cuts, space, unit);
    CutsAddUp(cuts, space, unit, k + 1);
    assert shares[..k + 1] == shares;
  }

  /** Up to any cut the shares make up the units before it, and none is smaller than a unit. */
  lemma {:induction false} CutsAddUp(cuts: seq<nat>, space: nat, unit: int, m: nat)
    requires Increasing(cuts) && unit > 0 && (forall x | x in cuts :: x + 1 < space) && m <= |cuts| + 1 && |cuts| >= 1
    ensures LeftAmount(CutShares(cuts, space, unit)[..m]) == (if m == 0 then 0 else if m <= |cuts| then cuts[m - 1] + 1 else space) * unit
    ensures forall s | s in CutShares(cuts, space, unit)[..m] :: s.amount >= unit && s.claimant == UNCLAIMED
  {
    if m > 0 {
      CutsAddUp(cuts, space, unit, m - 1);
      var shares, s := CutShares(cuts, space, unit), CutShare(cuts, space, unit, m - 1);
      assert shares[..m] == shares[..m - 1] + [s];
      LeftAppend(shares[..m - 1], s);
      CutIsUnit(cuts, space, unit, m - 1);
      var begin, end := if m == 1 then 0 else cuts[m - 2] + 1, if m <= |cuts| then cuts[m - 1] + 1 else space;
      Distribute(begin, end - begin, unit);
    }
  }

  lemma CutIsUnit(cuts: seq<nat>, space: nat, unit: int, i: nat)
    requires Increasing(cuts) && unit > 0 && (forall x | x in cuts :: x + 1 < space) && i <= |cuts| && |cuts| >= 1
    ensures CutShare(cuts, space, unit, i).amount >= unit
  {
    var begin, end := if i == 0 then 0 else cuts[i - 1] + 1, if i < |cuts| then cuts[i] + 1 else space;
    assert i > 0 ==> cuts[i - 1] in cuts;
    AtLeastOneUnit(end - begin, unit);
  }

  lemma AtLeastOneUnit(n: int, unit: int)
    requires n >= 1 && unit > 0
    ensures n * unit >= unit
  {
  }

  lemma Distribute(x: int, y: int, unit: int)
    ensures x * unit + y * unit == (x + y) * unit
  {
  }

  /** What a split promises: the right number of shares, together `used`, and none smaller than a unit unless
      nothing is used at all. */
  ghost predicate IsSplit(shares: seq<Share>, count: nat, unit: int, used: int) {
    && |shares| == count && LeftAmount(shares) == used
    && (forall s | s in shares :: s.claimant == UNCLAIMED && s.amount >= 0 && (used > 0 ==> s.amount >= unit))
  }

  /** What the split of an accepted packet promises. It succeeds exactly when the number of units, cut to 32 bits, is
      enough for the shares or there is a single share; and less than one final unit is left over exactly when the
      number fits 32 bits. */
  lemma SplitIs(amount: int, count: nat, seed: nat)
    requires 0 < count <= MAX_SHARES_PER_PACKET && amount >= 0
    ensures var r, c := SplitOf(amount, count, seed), Coarse((amount / PACKET_UNIT) % TWO32, PACKET_UNIT, count);
            && (r.Some? <==> (amount / PACKET_UNIT) % TWO32 >= count || count == 1)
            && (r.Some? ==> IsSplit(r.value, count, c.1, c.0 * c.1) && c.1 >= PACKET_UNIT && 0 <= c.0 * c.1 <= amount)
            && (r.Some? ==> (c.0 * c.1 > 0 <==> (amount / PACKET_UNIT) % TWO32 > 0))
            && (r.Some? ==> (amount - c.0 * c.1 < c.1 <==> amount / PACKET_UNIT < TWO32))
  {
    var c := Coarse((amount / PACKET_UNIT) % TWO32, PACKET_UNIT, count);
    CoarseIsEnough(amount, count);
    if c.0 > 0 {
      AtLeastOneUnit(c.0, c.1);
    }
    if count == 1 {
      LeftAppend([], Share(c.0 * c.1, UNCLAIMED));
      assert [] + [Share(c.0 * c.1, UNCLAIMED)] == [Share(c.0 * c.1, UNCLAIMED)];
    } else if c.0 >= count {
      CutSharesAre(c.0, count, c.1, seed);
    }
  }

  lemma CutSharesAre(space: nat, count: nat, unit: int, seed: nat)
    requires 1 < count <= space <= 62 && unit > 0
    ensures Wrap(Choose(space - 1, count - 1)) > 0
    ensures IsSplit(CutShares(Combination(seed % Wrap(Choose(space - 1, count - 1)), count - 1, space - 1), space, unit), count, unit, space * unit)
  {
    ChooseFits(space - 1, count - 1);
    var cuts := Combination(seed % Wrap(Choose(space - 1, count - 1)), count - 1, space - 1);
    CombinationIs(seed % Wrap(Choose(space - 1, count - 1)), count - 1, space - 1);
    var shares := CutShares(cuts, space, unit);
    CutsAddUp(cuts, space, unit, count);
    assert shares[..count] == shares;
  }

  /** Splits the amount of an accepted packet by a random number. */
  method Split(amount: int, count: nat, seed: nat) returns (r: Option<seq<Share>>)
    requires 0 < count <= MAX_SHARES_PER_PACKET && amount >= 0
    ensures r == SplitOf(amount, count, seed)
  {
    var space, unit := CoarsenUnits(amount, count);
    CoarseIsEnough(amount, count);
    assert space < 65535;
    if count <= 1 {
      return Some([Share(space * unit, UNCLAIMED)]);
    }
    if space < count {
      return None;
    }
    ChooseFits(space - 1, count - 1);
    var c := Cnr(space - 1, count - 1);
    var cuts := Unranking(seed % c, count - 1, space - 1);
    var shares := SharesFromCuts(cuts, space, unit);
    r := Some(shares);
  }

  /* ---------------------------------------------------------------- claiming */

  function Contribution(s: Share): int {
    if s.claimant == UNCLAIMED then s.amount else 0
  }

  lemma {:induction false} LeftUpdate(shares: seq<Share>, i: nat, s: Share)
    requires i < |shares|
    ensures LeftAmount(shares[i := s]) == LeftAmount(shares) - Contribution(shares[i]) + Contribution(s)
  {
    var n := |shares| - 1;
    if i < n {
      LeftUpdate(shares[..n], i, s);
      assert shares[i := s][..n] == shares[..n][i := s];
    } else {
      assert shares[i := s][..n] == shares[..n];
    }
  }

  /** The number of shares handed out when `m` of them are. */
  ghost predicate Claimed(shares: seq<Share>, m: nat) {
    && m <= |shares|
    && (forall i | 0 <= i < m :: shares[i].claimant != UNCLAIMED)
    && (forall i | m <= i < |shares| :: shares[i].claimant == UNCLAIMED)
    && (forall i, j | 0 <= i < j < m :: shares[i].claimant != shares[j].claimant)
  }

  /** The shares are handed out in order, each to a different claimant. */
  ghost predicate Orderly(shares: seq<Share>) {
    exists m: nat :: Claimed(shares, m)
  }

  datatype Claim =
    | Exhausted
    | AlreadyClaimed
    | Paid(index: nat, shares: seq<Share>)

  /** One claim: the next share in order goes to the claimant unless that id took one before. */
  method ClaimShare(shares: seq<Share>, who: AccountId) returns (c: Claim)
    ensures c == ClaimOf(shares, who)
  {
    var index := NextAvailableClaimIndex(shares);
    FirstUnclaimedIs(shares, index);
    if index >= |shares| {
      return Exhausted;
    }
    for i := 0 to index
      invariant forall j | 0 <= j < i :: shares[j].claimant != who
    {
      if shares[i].claimant == who {
        return AlreadyClaimed;
      }
    }
    c := Paid(index, shares[index := shares[index].(claimant := who)]);
  }

  function FirstUnclaimed(shares: seq<Share>): nat {
    if shares == [] || shares[0].claimant == UNCLAIMED then 0 else 1 + FirstUnclaimed(shares[1..])
  }

  lemma {:induction false} FirstUnclaimedIs(shares: seq<Share>, index: nat)
    requires index <= |shares|
    requires forall i | 0 <= i < index :: shares[i].claimant != UNCLAIMED
    requires index < |shares| ==> shares[index].claimant == UNCLAIMED
    ensures FirstUnclaimed(shares) == index
  {
    if index > 0 {
      FirstUnclaimedIs(shares[1..], index - 1);
    }
  }

  lemma {:induction false} FirstUnclaimedIsFree(shares: seq<Share>)
    ensures FirstUnclaimed(shares) <= |shares|
    ensures FirstUnclaimed(shares) < |shares| ==> shares[FirstUnclaimed(shares)].claimant == UNCLAIMED
  {
    if shares != [] && shares[0].claimant != UNCLAIMED {
      FirstUnclaimedIsFree(shares[1..]);
    }
  }

  function ClaimOf(shares: seq<Share>, who: AccountId): Claim {
    var index := FirstUnclaimed(shares);
    if index >= |shares| then Exhausted
    else if exists i | 0 <= i < index :: shares[i].claimant == who then AlreadyClaimed
    else Paid(index, shares[index := shares[index].(claimant := who)])
  }

  /** A claim pays the first share that nobody has claimed, unless the claimant has one of the shares before it, and writes
      the claimant into that share alone. */
  lemma ClaimIs(shares: seq<Share>, who: AccountId, k: nat)
    requires k < |shares| && shares[k].claimant == UNCLAIMED && forall i | 0 <= i < k :: shares[i].claimant != UNCLAIMED
    ensures (exists i | 0 <= i < k :: shares[i].claimant == who) ==> ClaimOf(shares, who) == AlreadyClaimed
    ensures (forall i | 0 <= i < k :: shares[i].claimant != who) ==> ClaimOf(shares, who) == Paid(k, shares[k := Share(shares[k].amount, who)])
  {
    FirstUnclaimedIs(shares, k);
  }

  /** Nothing is left to claim exactly when every share is claimed. */
  lemma ExhaustedIs(shares: seq<Share>, who: AccountId)
    ensures ClaimOf(shares, who).Exhausted? <==> forall i | 0 <= i < |shares| :: shares[i].claimant != UNCLAIMED
  {
    if forall i | 0 <= i < |shares| :: shares[i].claimant != UNCLAIMED {
      FirstUnclaimedIs(shares, |shares|);
    } else {
      FirstUnclaimedIsBelow(shares);
    }
  }

  lemma {:induction false} FirstUnclaimedIsBelow(shares: seq<Share>)
    requires exists i | 0 <= i < |shares| :: shares[i].claimant == UNCLAIMED
    ensures FirstUnclaimed(shares) < |shares|
  {
    var i :| 0 <= i < |shares| && shares[i].claimant == UNCLAIMED;
    if shares[0].claimant != UNCLAIMED {
      assert shares[1..][i - 1].claimant == UNCLAIMED;
      FirstUnclaimedIsBelow(shares[1..]);
    }
  }

  /** A claim keeps the order; in the name of the unclaimed marker it leaves the packet as it was. */
  lemma ClaimKeepsOrder(shares: seq<Share>, who: AccountId)
    requires Orderly(shares) && ClaimOf(shares, who).Paid?
    ensures var c := ClaimOf(shares, who);
            && c.index < |shares| && shares[c.index].claimant == UNCLAIMED
            && |c.shares| == |shares| && (forall i | 0 <= i < |shares| :: c.shares[i].amount == shares[i].amount)
            && Orderly(c.shares)
            && LeftAmount(c.shares) == LeftAmount(shares) - (if who == UNCLAIMED then 0 else shares[c.index].amount)
  {
    var m: nat :| Claimed(shares, m);
    FirstUnclaimedIs(shares, m);
    var c := ClaimOf(shares, who);
    LeftUpdate(shares, c.index, shares[c.index].(claimant := who));
    if who == UNCLAIMED {
      assert c.shares == shares;
    } else {
      assert Claimed(c.shares, m + 1);
    }
  }

  /** Any sequence of claims; a refused claim changes nothing. The second part is what was paid out. */
  function Claims(shares: seq<Share>, whos: seq<AccountId>): (seq<Share>, int) {
    if whos == [] then (shares, 0)
    else
      var before := Claims(shares, whos[..|whos| - 1]);
      match ClaimOf(before.0, whos[|whos| - 1])
      case Paid(index, after) => (after, before.1 + (if index < |before.0| then before.0[index].amount else 0))
      case _ => before
  }

  /** Over any run of claims by real accounts the claimed shares are a prefix with pairwise distinct
      claimants, and what was paid out plus what is left is the original amount. */
  lemma {:induction false} ClaimsConserve(shares: seq<Share>, whos: seq<AccountId>)
    requires Orderly(shares) && UNCLAIMED !in whos
    ensures Orderly(Claims(shares, whos).0)
    ensures Claims(shares, whos).1 + LeftAmount(Claims(shares, whos).0) == LeftAmount(shares)
    ensures |Claims(shares, whos).0| == |shares|
  {
    if whos != [] {
      var n := |whos| - 1;
      ClaimsConserve(shares, whos[..n]);
      var before := Claims(shares, whos[..n]);
      if ClaimOf(before.0, whos[n]).Paid? {
        ClaimKeepsOrder(before.0, whos[n]);
      }
    }
  }

  /** Once every share is claimed, nothing changes any more. */
  lemma {:induction false} ExhaustedStays(shares: seq<Share>, whos: seq<AccountId>)
    requires forall s | s in shares :: s.claimant != UNCLAIMED
    ensures Claims(shares, whos) == (shares, 0)
  {
    FirstUnclaimedIs(shares, |shares|);
    if whos != [] {
      ExhaustedStays(shares, whos[..|whos| - 1]);
    }
  }

  /** A fresh split is in order, so every packet ever stored is. */
  lemma SplitIsOrderly(shares: seq<Share>, count: nat, unit: int, used: int)
    requires IsSplit(shares, count, unit, used)
    ensures Orderly(shares)
  {
    assert Claimed(shares, 0);
  }
}
