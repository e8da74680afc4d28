/** How much of a balance may be spent, and the yield a balance earns. */
module Vesting {
  import opened Prelude
  import opened Arithmetic
  import opened Records

  /** What a vesting schedule has released at a time: nothing before the start, everything after the
      end, and the rounded-down linear part in between. */
  function Released(lock: Lock, at: Time): int
    requires lock.Vesting?
  {
    if at >= lock.start + lock.duration then lock.original
    else if at > lock.start then (lock.original * (at - lock.start)) / lock.duration
    else 0
  }

  /** The spendable part of a balance; `None` when one of the internal assertions fails. */
  function Spendable(b: Balance, at: Time): Option<int> {
    match b.condition.lock
    case Signature(_, _) => Some(b.amount)
    case Escrow(_, _, _, _) => Some(b.amount)
    case MultiSig(_, _, _) => Some(b.amount)
    case Vesting(_, start, duration, original) =>
      var released := Released(b.condition.lock, at);
      var claimed := original - b.amount;
      if start < at < start + duration && !(0 <= released <= original) then None
      else if !(0 <= claimed <= released) then None
      else Some(released - claimed)
    case NullLock => Some(0)
  }

  /** The released part in numbers: it is linear in the elapsed part of the duration and rounded down. */
  lemma ReleasedIs(lock: Lock, at: Time)
    requires lock.Vesting?
    ensures at <= lock.start && lock.duration > 0 ==> Released(lock, at) == 0
    ensures lock.start < at < lock.start + lock.duration ==>
              lock.duration * Released(lock, at) <= lock.original * (at - lock.start) < lock.duration * Released(lock, at) + lock.duration
    ensures at >= lock.start + lock.duration ==> Released(lock, at) == lock.original
  {
    if lock.start < at < lock.start + lock.duration {
      DivRoundsDown(lock.original * (at - lock.start), lock.duration);
    }
  }

  /** A balance that is not vesting is spendable in full, and one without an owner not at all. */
  lemma SpendableIs(b: Balance, at: Time)
    requires !b.condition.lock.Vesting?
    ensures Spendable(b, at) == Some(if b.condition.lock.NullLock? then 0 else b.amount)
  {
  }

  lemma SpendableIsCovered(b: Balance, at: Time)
    requires b.amount >= 0 && Spendable(b, at).Some?
    ensures Spendable(b, at).value <= b.amount
  {
  }

  /** A schedule only ever releases more, never more than the original. */
  lemma ReleasedMonotone(lock: Lock, t: Time, t': Time)
    requires lock.Vesting? && lock.original >= 0 && t <= t'
    ensures 0 <= Released(lock, t) <= Released(lock, t') <= lock.original
  {
    ReleasedBounds(lock, t);
    ReleasedBounds(lock, t');
    if lock.start < t <= t' < lock.start + lock.duration {
      MulMonotone(t - lock.start, t' - lock.start, lock.original);
      DivMonotone(lock.original * (t - lock.start), lock.original * (t' - lock.start), lock.duration);
    }
  }

  lemma ReleasedBounds(lock: Lock, t: Time)
    requires lock.Vesting? && lock.original >= 0
    ensures 0 <= Released(lock, t) <= lock.original
  {
    if lock.start < t < lock.start + lock.duration {
      MulMonotone(0, t - lock.start, lock.original);
      MulMonotone(t - lock.start, lock.duration, lock.original);
      DivMonotone(0, lock.original * (t - lock.start), lock.duration);
      DivMonotone(lock.original * (t - lock.start), lock.original * lock.duration, lock.duration);
      DivExact(lock.original, lock.duration);
    }
  }

  datatype Withdrawal = Withdrawal(at: Time, amount: int)

  /** The guard of a withdrawal. */
  predicate MayWithdraw(b: Balance, w: Withdrawal) {
    w.amount > 0 && Spendable(b, w.at).Some? && w.amount <= Spendable(b, w.at).value
  }

  /** A run of attempted withdrawals; an attempt that fails its guard changes nothing. */
  function AfterWithdrawals(b: Balance, ws: seq<Withdrawal>): Balance {
    if ws == [] then b
    else
      var before := AfterWithdrawals(b, ws[..|ws| - 1]);
      var w := ws[|ws| - 1];
      if MayWithdraw(before, w) then before.(amount := before.amount - w.amount) else before
  }

  predicate InTimeOrder(ws: seq<Withdrawal>) {
    forall i, j | 0 <= i < j < |ws| :: ws[i].at <= ws[j].at
  }

  /** Over any run of withdrawals at non-decreasing times from a full vesting balance, the total claimed
      never exceeds what the schedule has released, so no internal assertion can fail, and once the
      schedule is over exactly the remaining balance is spendable. */
  lemma {:induction false} VestingIsRespected(b: Balance, ws: seq<Withdrawal>, now: Time)
    requires b.condition.lock.Vesting? && b.amount == b.condition.lock.original >= 0
    requires InTimeOrder(ws) && (forall i | 0 <= i < |ws| :: ws[i].at <= now)
    ensures var lock, end := b.condition.lock, AfterWithdrawals(b, ws);
            && end.condition == b.condition
            && 0 <= lock.original - end.amount <= Released(lock, now)
            && end.amount >= 0
            && Spendable(end, now) == Some(Released(lock, now) - (lock.original - end.amount))
            && (now >= lock.start + lock.duration ==> Spendable(end, now) == Some(end.amount))
  {
    var lock := b.condition.lock;
    ReleasedMonotone(lock, now, now);
    if ws != [] {
      var n := |ws| - 1;
      VestingIsRespected(b, ws[..n], ws[n].at);
      ReleasedMonotone(lock, ws[n].at, now);
    }
  }

  /* ---------------------------------------------------------------- yield */

  const TWO128 := 0x1_0000_0000_0000_0000_0000_0000_0000_0000
  const MIN_YIELD_PERIOD := 60 * 60 * 24
  const MAX_YIELD_PERIOD := 60 * 60 * 24 * 365
  const MILLION := 1000000

  /** The part of a year's yield earned so far: 80% grows with time and 20% with its square. */
  function Scaled(yearly: nat, elapsed: nat): nat {
    var simple := yearly * 8 / 10;
    var rest := yearly - simple;
    PartOfYear(simple, elapsed) + PartOfYear(PartOfYear(rest, elapsed), elapsed)
  }

  function PartOfYear(x: nat, elapsed: nat): nat {
    (x * elapsed) / MAX_YIELD_PERIOD
  }

  function Earned(yearly: nat, elapsed: nat): nat {
    if elapsed < MAX_YIELD_PERIOD then Scaled(yearly, elapsed) else yearly
  }

  /** A year's yield in millionths of a share. */
  function Yearly(amount: nat, pool: nat, divisor: nat): nat
    requires divisor > 0
  {
    (amount * MILLION * pool) / divisor
  }

  /** The yield of `amount` shares held for `elapsed` seconds. The pool as a part of the supply is read
      as an unsigned 128-bit number, so a pool above the supply gives a huge divisor. */
  function Yield(elapsed: int, amount: int, pool: int, supply: int): int {
    if amount <= 0 || supply <= 0 || pool <= 0 || elapsed <= MIN_YIELD_PERIOD || supply == pool then 0
    else
      var divisor := if supply > pool then supply - pool else supply - pool + TWO128;
      if divisor <= 0 then 0
      else
        var y := Earned(Yearly(amount, pool, divisor), elapsed) / MILLION;
        if 0 < y < pool then y else 0
  }

  lemma ScaledBelow(yearly: nat, elapsed: nat)
    requires elapsed < MAX_YIELD_PERIOD
    ensures Scaled(yearly, elapsed) <= yearly
  {
    var simple := yearly * 8 / 10;
    FractionBelow(simple, elapsed);
    FractionBelow(yearly - simple, elapsed);
    FractionBelow(PartOfYear(yearly - simple, elapsed), elapsed);
  }

  lemma FractionBelow(x: nat, elapsed: nat)
    requires elapsed < MAX_YIELD_PERIOD
    ensures PartOfYear(x, elapsed) <= x
  {
    MulMonotone(elapsed, MAX_YIELD_PERIOD, x);
    DivMonotone(x * elapsed, x * MAX_YIELD_PERIOD, MAX_YIELD_PERIOD);
    DivExact(x, MAX_YIELD_PERIOD);
  }

  /** The yield never empties the pool, and never exceeds the holder's proportional part of it. */
  lemma YieldIsCovered(elapsed: int, amount: int, pool: int, supply: int)
    ensures var y := Yield(elapsed, amount, pool, supply);
            && 0 <= y && (y > 0 ==> y < pool)
            && (y > 0 && supply > pool ==> y * (supply - pool) <= amount * pool)
  {
    var y := Yield(elapsed, amount, pool, supply);
    if y > 0 && supply > pool {
      EarnedBelow(Yearly(amount, pool, supply - pool), elapsed);
      YearlyIsProportional(amount, pool, supply - pool, y);
    }
  }

  /** The yield in numbers. A year's yield, in millionths, is the holder's part of the pool by the shares outside of it; after
      a year all of it is due, before that the part e * (8 * year + 2 * e) / (10 * year * year), short of it by less than four millionths;
      what is due is rounded down to whole shares, and nothing is paid that is not less than the pool. */
  lemma YieldIs(elapsed: int, amount: int, pool: int, supply: int) returns (yearly: nat, due: nat, shares: nat)
    requires amount > 0 && 0 < pool < supply && elapsed > 86400
    ensures (supply - pool) * yearly <= 1000000 * amount * pool < (supply - pool) * yearly + (supply - pool)
    ensures elapsed >= 31536000 ==> due == yearly
    ensures elapsed < 31536000 ==> IsPartOfYear(due, yearly, elapsed, 31536000)
    ensures 1000000 * shares <= due < 1000000 * shares + 1000000
    ensures Yield(elapsed, amount, pool, supply) == if shares < pool then shares else 0
  {
    var d := supply - pool;
    yearly := Yearly(amount, pool, d);
    assert amount * MILLION * pool == 1000000 * amount * pool;
    DivRoundsDown(amount * MILLION * pool, d);
    due := Earned(yearly, elapsed);
    shares := due / MILLION;
    DivRoundsDown(due, MILLION);
    if elapsed < 31536000 {
      ScaledIs(yearly, elapsed, 31536000);
    }
  }

  /** Nothing is earned in the first day, on nothing, or from an empty pool. */
  lemma NoYield(elapsed: int, amount: int, pool: int, supply: int)
    requires elapsed <= 86400 || amount <= 0 || pool <= 0 || supply <= 0
    ensures Yield(elapsed, amount, pool, supply) == 0
  {
  }

  /** The part e * (8 * year + 2 * e) / (10 * year * year), short by less than four. */
  predicate IsPartOfYear(due: nat, yearly: nat, e: nat, year: nat) {
    10 * year * year * due <= yearly * e * (8 * year + 2 * e) < 10 * year * year * (due + 4)
  }

  lemma ScaledIs(m: nat, e: nat, year: nat)
    requires 0 < e < year == MAX_YIELD_PERIOD
    ensures IsPartOfYear(Scaled(m, e), m, e, year)
  {
    var simple, a, b, c := ScaledParts(m, e, year);
    PartAbove(m, e, year, simple, m - simple, a, b, c);
    PartBelow(m, e, year, simple, m - simple, a, b, c);
  }

  /** The four roundings. */
  lemma ScaledParts(m: nat, e: nat, year: nat) returns (simple: nat, a: nat, b: nat, c: nat)
    requires 0 < e < year == MAX_YIELD_PERIOD
    ensures simple <= m && 10 * simple <= 8 * m < 10 * simple + 10
    ensures year * a <= simple * e < year * a + year
    ensures year * b <= (m - simple) * e < year * b + year
    ensures year * c <= b * e < year * c + year
    ensures Scaled(m, e) == a + c
  {
    simple := m * 8 / 10;
    a, b := PartOfYear(simple, e), PartOfYear(m - simple, e);
    c := PartOfYear(b, e);
    PartRoundsDown(simple, e);
    PartRoundsDown(m - simple, e);
    PartRoundsDown(b, e);
  }

  lemma PartRoundsDown(x: nat, e: nat)
    ensures MAX_YIELD_PERIOD * PartOfYear(x, e) <= x * e < MAX_YIELD_PERIOD * PartOfYear(x, e) + MAX_YIELD_PERIOD
  {
    DivRoundsDown(x * e, MAX_YIELD_PERIOD);
  }

  lemma PartAbove(m: nat, e: nat, year: nat, simple: nat, rest: nat, a: nat, b: nat, c: nat)
    requires 0 < e < year && simple + rest == m && 10 * simple <= 8 * m
    requires year * a <= simple * e && year * b <= rest * e && year * c <= b * e
    ensures 10 * year * year * (a + c) <= m * e * (8 * year + 2 * e)
  {
    SquareTimes(year, a, c, 0);
    MulMonotone(0, year - e, e);
    MulMonotone(year * a, simple * e, year);
    MulMonotone(year * c, b * e, year);
    Exchange(year, b, e);
    MulMonotone(year * b, rest * e, e);
    Weigh(m, e, year, simple, rest);
    MulMonotone(10 * simple, 8 * m, e * (year - e));
  }

  lemma PartBelow(m: nat, e: nat, year: nat, simple: nat, rest: nat, a: nat, b: nat, c: nat)
    requires 0 < e < year && simple + rest == m && 8 * m < 10 * simple + 10
    requires simple * e < year * a + year && rest * e < year * b + year && b * e < year * c + year
    ensures m * e * (8 * year + 2 * e) < 10 * year * year * (a + c + 4)
  {
    SquareTimes(year, a, c, 4);
    MulMonotone(simple * e, year * a + year, year);
    MulMonotone(b * e, year * c + year, year);
    TimesNext(year, a);
    TimesNext(year, c);
    Exchange(year, b, e);
    MulMonotone(rest * e, year * b + year, e);
    Distribute(e, year * b, year);
    Weigh(m, e, year, simple, rest);
    MulMonotone(8 * m, 10 * simple + 10, e * (year - e));
    Distribute(e * (year - e), 10 * simple, 10);
    SlackFits(e, year);
  }

  lemma SquareTimes(year: nat, a: nat, c: nat, k: nat)
    ensures 10 * year * year * (a + c + k) == 10 * (year * (year * a)) + 10 * (year * (year * c)) + 10 * k * (year * year)
  {
  }

  lemma TimesNext(year: nat, a: nat)
    ensures year * (year * a + year) == year * (year * a) + year * year
  {
  }

  lemma Exchange(year: nat, b: nat, e: nat)
    ensures year * (b * e) == e * (year * b)
  {
  }

  lemma Distribute(x: int, y: int, z: int)
    ensures x * (y + z) == x * y + x * z
  {
  }

  /** The two parts of the yield together, by the rounded and by the exact fourth fifths. */
  lemma Weigh(m: nat, e: nat, year: nat, simple: nat, rest: nat)
    requires simple + rest == m
    ensures 10 * (year * (simple * e)) + 10 * (e * (rest * e)) == e * (year - e) * (10 * simple) + 10 * (e * e * m)
    ensures m * e * (8 * year + 2 * e) == e * (year - e) * (8 * m) + 10 * (e * e * m)
  {
    assert rest == m - simple;
    assert e * (year - e) == e * year - e * e;
    assert e * (year - e) * (10 * simple) == 10 * (e * year) * simple - 10 * (e * e) * simple;
    assert e * (year - e) * (8 * m) == 8 * (e * year) * m - 8 * (e * e) * m;
    assert m * e * (8 * year + 2 * e) == 8 * (e * year) * m + 2 * (e * e) * m;
  }

  lemma SlackFits(e: nat, year: nat)
    requires 0 < e < year
    ensures e * year + e * (year - e) < 2 * (year * year)
  {
    MulMonotone(e + 1, year, year);
    MulMonotone(year - e, year, e);
  }

  lemma EarnedBelow(yearly: nat, elapsed: nat)
    ensures Earned(yearly, elapsed) <= yearly
  {
    if elapsed < MAX_YIELD_PERIOD {
      ScaledBelow(yearly, elapsed);
    }
  }

  lemma YearlyIsProportional(amount: nat, pool: nat, d: nat, y: nat)
    requires d > 0 && MILLION * y <= Yearly(amount, pool, d)
    ensures y * d <= amount * pool
  {
    var yearly := Yearly(amount, pool, d);
    MulMonotone(MILLION * y, yearly, d);
    assert d * yearly <= amount * MILLION * pool;
    assert d * (MILLION * y) == MILLION * (y * d);
    assert amount * MILLION * pool == MILLION * (amount * pool);
  }
}
