/** Finding a block by time with an interpolation search. */
module BlockSearch {
  import opened Records

  /** `times[i]` is the timestamp of block i + 1. */
  predicate Increasing(times: seq<Time>) {
    forall i, j | 0 <= i < j < |times| :: times[i] < times[j]
  }

  /** The last block at or before the time, or the first block: one look at each block from the head down. */
  function LinearScan(times: seq<Time>, time: Time): nat
    requires |times| >= 1
  {
    if |times| == 1 || times[|times| - 1] <= time then |times| else LinearScan(times[..|times| - 1], time)
  }

  lemma {:induction false} ScanIs(times: seq<Time>, time: Time, n: nat)
    requires Increasing(times) && 1 <= n <= |times|
    requires n == 1 || times[n - 1] <= time
    requires n < |times| ==> time < times[n]
    ensures LinearScan(times, time) == n
  {
    if n < |times| {
      ScanIs(times[..|times| - 1], time, n);
    }
  }

  /* ---------------------------------------------------------------- guesses */

  /** How the search guesses a block in a range from the time elapsed in it. */
  type Guess = (nat, nat, nat, nat) -> nat

  /** The guess lies in the range; it may be the end. */
  ghost predicate UpToEnd(guess: Guess) {
    forall start: nat, end: nat, elapsed: nat, duration: nat {:trigger guess(start, end, elapsed, duration)} | start < end && elapsed < duration ::
      start <= guess(start, end, elapsed, duration) <= end
  }

  /** The guess is never the end. */
  ghost predicate BeforeEnd(guess: Guess) {
    forall start: nat, end: nat, elapsed: nat, duration: nat {:trigger guess(start, end, elapsed, duration)} | start < end && elapsed < duration ::
      start <= guess(start, end, elapsed, duration) < end
  }

  /** A rounding keeps the order and the whole numbers. */
  type Rounding = real -> real

  ghost predicate Faithful(round: Rounding) {
    && (forall x: real, y: real {:trigger round(x), round(y)} | x <= y :: round(x) <= round(y))
    && (forall n: nat {:trigger round(n as real)} :: round(n as real) == n as real)
  }

  /** The interpolated block, with the quotient, the product and the sum rounded. */
  function Interpolated(quotient: Rounding, product: Rounding, sum: Rounding, start: nat, end: nat, elapsed: nat, duration: nat): int
    requires start < end && elapsed < duration
  {
    sum(start as real + product((end - start) as real * quotient(elapsed as real / duration as real))).Floor
  }

  /** A guess that interpolates. */
  ghost predicate Interpolates(guess: Guess, quotient: Rounding, product: Rounding, sum: Rounding) {
    forall start: nat, end: nat, elapsed: nat, duration: nat {:trigger guess(start, end, elapsed, duration)} | start < end && elapsed < duration ::
      guess(start, end, elapsed, duration) == Interpolated(quotient, product, sum, start, end, elapsed, duration)
  }

  lemma Stays(round: Rounding, low: nat, x: real, high: nat)
    requires Faithful(round) && low as real <= x <= high as real
    ensures low as real <= round(x) <= high as real
  {
    assert round(low as real) == low as real && round(high as real) == high as real;
  }

  lemma Scale(d: real, f: real)
    requires d > 0.0 && 0.0 <= f <= 1.0
    ensures 0.0 <= d * f <= d && (f < 1.0 ==> d * f < d)
  {
    assert d * (1.0 - f) >= 0.0;
    assert f < 1.0 ==> d * (1.0 - f) > 0.0;
  }

  lemma ProperFraction(part: real, whole: real)
    requires 0.0 <= part < whole
    ensures 0.0 <= part / whole < 1.0
  {
  }

  lemma FloorBetween(x: real, low: int, high: int)
    requires low as real <= x <= high as real
    ensures low <= x.Floor <= high && (x < high as real ==> x.Floor < high)
  {
    assert x.Floor as real <= x < (x.Floor + 1) as real;
  }

  lemma InterpolatedBetween(quotient: Rounding, product: Rounding, sum: Rounding, start: nat, end: nat, elapsed: nat, duration: nat)
    requires Faithful(quotient) && Faithful(product) && Faithful(sum) && start < end && elapsed < duration
    ensures start <= Interpolated(quotient, product, sum, start, end, elapsed, duration) <= end
  {
    var part := elapsed as real / duration as real;
    ProperFraction(elapsed as real, duration as real);
    Stays(quotient, 0, part, 1);
    Scale((end - start) as real, quotient(part));
    Stays(product, 0, (end - start) as real * quotient(part), end - start);
    var p := product((end - start) as real * quotient(part));
    Stays(sum, start, start as real + p, end);
    FloorBetween(sum(start as real + p), start, end);
  }

  /** However the three steps are rounded, the guess lies in the range. */
  lemma InterpolatedInRange(guess: Guess, quotient: Rounding, product: Rounding, sum: Rounding)
    requires Faithful(quotient) && Faithful(product) && Faithful(sum) && Interpolates(guess, quotient, product, sum)
    ensures UpToEnd(guess)
  {
    forall start: nat, end: nat, elapsed: nat, duration: nat | start < end && elapsed < duration
      ensures start <= guess(start, end, elapsed, duration) <= end
    {
      InterpolatedBetween(quotient, product, sum, start, end, elapsed, duration);
    }
  }

  function Exact(x: real): real {
    x
  }

  lemma ExactBetween(start: nat, end: nat, elapsed: nat, duration: nat)
    requires start < end && elapsed < duration
    ensures start <= Interpolated(Exact, Exact, Exact, start, end, elapsed, duration) < end
  {
    var q := elapsed as real / duration as real;
    ProperFraction(elapsed as real, duration as real);
    Scale((end - start) as real, q);
    FloorBetween(start as real + (end - start) as real * q, start, end);
  }

  /** Without rounding it is never the end. */
  lemma ExactIsBeforeEnd(guess: Guess)
    requires Interpolates(guess, Exact, Exact, Exact)
    ensures BeforeEnd(guess)
  {
    forall start: nat, end: nat, elapsed: nat, duration: nat | start < end && elapsed < duration
      ensures start <= guess(start, end, elapsed, duration) < end
    {
      ExactBetween(start, end, elapsed, duration);
    }
  }

  const TWO24 := 0x100_0000
  const TWO27 := 0x800_0000
  const TWO28 := 0x1000_0000

  /** Rounding to the nearest multiple of 2^-24. */
  function ToGrid(x: real): real {
    (x * TWO24 as real + 0.5).Floor as real / TWO24 as real
  }

  lemma GridIsMonotone(x: real, y: real)
    requires x <= y
    ensures ToGrid(x) <= ToGrid(y)
  {
    var i, j := (x * TWO24 as real + 0.5).Floor, (y * TWO24 as real + 0.5).Floor;
    assert i as real <= x * TWO24 as real + 0.5 <= y * TWO24 as real + 0.5 < (j + 1) as real;
    assert i <= j;
  }

  lemma GridKeepsWhole(n: nat)
    ensures ToGrid(n as real) == n as real
  {
    FloorBetween(n as real * TWO24 as real + 0.5, n * TWO24, n * TWO24 + 1);
  }

  lemma GridIsFaithful()
    ensures Faithful(ToGrid)
  {
    forall x: real, y: real {:trigger ToGrid(x), ToGrid(y)} | x <= y ensures ToGrid(x) <= ToGrid(y) {
      GridIsMonotone(x, y);
    }
    forall n: nat {:trigger ToGrid(n as real)} ensures ToGrid(n as real) == n as real {
      GridKeepsWhole(n);
    }
  }

  /** Double-precision numbers from 2^28 to 2^29 are multiples of 2^-24, so the sum can be rounded up to the end although
      quotient and product are exact. */
  lemma SumReachesEnd()
    ensures Faithful(ToGrid) && Interpolated(Exact, Exact, ToGrid, TWO28, TWO28 + 2, TWO27 - 1, TWO27) == TWO28 + 2
  {
    GridIsFaithful();
    var q := (TWO27 - 1) as real / TWO27 as real;
    var x := TWO28 as real + 2.0 * q;
    assert q == 1.0 - 1.0 / TWO27 as real;
    assert x * TWO24 as real + 0.5 == (TWO28 * TWO24 + 2 * TWO24) as real + 0.25;
    assert (x * TWO24 as real + 0.5).Floor == TWO28 * TWO24 + 2 * TWO24;
    assert ToGrid(x) == (TWO28 + 2) as real;
  }

  /* ---------------------------------------------------------------- the search */

  datatype Range = Range(start: nat, end: nat) {
    predicate IsDone() {
      end <= start + 1
    }
  }

  /** The block searched for lies in the range, before its end. */
  predicate Around(times: seq<Time>, time: Time, r: Range) {
    1 <= r.start < r.end <= |times| && times[r.start - 1] <= time < times[r.end - 1]
  }

  function Middle(times: seq<Time>, time: Time, guess: Guess, r: Range): nat
    requires Around(times, time, r)
  {
    guess(r.start, r.end, time - times[r.start - 1], times[r.end - 1] - times[r.start - 1])
  }

  /** One round of the loop. */
  function Next(times: seq<Time>, time: Time, guess: Guess, r: Range): (r': Range)
    requires Around(times, time, r) && UpToEnd(guess)
    ensures Around(times, time, r')
  {
    if r.IsDone() then r
    else
      var guessed := Middle(times, time, guess, r);
      var mid := if guessed == r.start then guessed + 1 else guessed;
      if times[mid - 1] > time then Range(r.start, mid) else Range(mid, r.end)
  }

  function After(times: seq<Time>, time: Time, guess: Guess, r: Range, n: nat): (r': Range)
    requires Around(times, time, r) && UpToEnd(guess)
    ensures Around(times, time, r')
  {
    if n == 0 then r else Next(times, time, guess, After(times, time, guess, r, n - 1))
  }

  /** The guess is the end of a range that is not done. */
  predicate IsStuck(times: seq<Time>, time: Time, guess: Guess, r: Range)
    requires Around(times, time, r)
  {
    !r.IsDone() && Middle(times, time, guess, r) == r.end
  }

  predicate DoneAfter(times: seq<Time>, time: Time, guess: Guess, r: Range, n: nat)
    requires Around(times, time, r) && UpToEnd(guess)
  {
    After(times, time, guess, r, n).IsDone()
  }

  predicate StuckAfter(times: seq<Time>, time: Time, guess: Guess, r: Range, n: nat)
    requires Around(times, time, r) && UpToEnd(guess)
  {
    IsStuck(times, time, guess, After(times, time, guess, r, n))
  }

  /** A range that is done or stuck does not change any more. */
  lemma {:induction false} StaysPut(times: seq<Time>, time: Time, guess: Guess, r: Range, n: nat, m: nat)
    requires Around(times, time, r) && UpToEnd(guess) && n <= m
    requires DoneAfter(times, time, guess, r, n) || StuckAfter(times, time, guess, r, n)
    ensures After(times, time, guess, r, m) == After(times, time, guess, r, n)
  {
    if n < m {
      StaysPut(times, time, guess, r, n, m - 1);
    }
  }

  /** Every round that is not stuck makes the range smaller. */
  lemma {:induction false} Shrinks(times: seq<Time>, time: Time, guess: Guess, r: Range, n: nat)
    requires Around(times, time, r) && UpToEnd(guess)
    requires forall k: nat :: !StuckAfter(times, time, guess, r, k)
    ensures var now := After(times, time, guess, r, n); now.IsDone() || now.end - now.start <= r.end - r.start - n
  {
    if n > 0 {
      Shrinks(times, time, guess, r, n - 1);
      assert !StuckAfter(times, time, guess, r, n - 1);
    }
  }

  lemma StuckIsEndless(times: seq<Time>, time: Time, guess: Guess, r: Range, n: nat, m: nat)
    requires Around(times, time, r) && UpToEnd(guess) && StuckAfter(times, time, guess, r, n)
    ensures !DoneAfter(times, time, guess, r, m)
  {
    if m >= n {
      StaysPut(times, time, guess, r, n, m);
    } else if DoneAfter(times, time, guess, r, m) {
      StaysPut(times, time, guess, r, m, n);
    }
  }

  lemma DoneIsNotStuck(times: seq<Time>, time: Time, guess: Guess, r: Range, n: nat)
    requires Around(times, time, r) && UpToEnd(guess) && DoneAfter(times, time, guess, r, n)
    ensures forall k: nat :: !StuckAfter(times, time, guess, r, k)
  {
    forall k: nat ensures !StuckAfter(times, time, guess, r, k) {
      if StuckAfter(times, time, guess, r, k) {
        StuckIsEndless(times, time, guess, r, k, n);
      }
    }
  }

  lemma NextIs(times: seq<Time>, time: Time, guess: Guess, r: Range, mid: nat)
    requires Around(times, time, r) && UpToEnd(guess) && !r.IsDone() && !IsStuck(times, time, guess, r)
    requires var guessed := Middle(times, time, guess, r); mid == if guessed == r.start then guessed + 1 else guessed
    ensures r.start < mid < r.end
    ensures Next(times, time, guess, r) == if times[mid - 1] > time then Range(r.start, mid) else Range(mid, r.end)
  {
  }

  lemma NotStuck(times: seq<Time>, time: Time, guess: Guess, r: Range)
    requires Around(times, time, r) && BeforeEnd(guess)
    ensures !IsStuck(times, time, guess, r)
  {
  }

  lemma DoneIsFound(times: seq<Time>, time: Time, r: Range)
    requires Increasing(times) && Around(times, time, r) && r.IsDone()
    ensures LinearScan(times, time) == r.start
  {
    ScanIs(times, time, r.start);
  }

  /** The loop goes on forever exactly when some range it reaches is stuck. */
  lemma EndlessIsStuck(times: seq<Time>, time: Time, guess: Guess, r: Range)
    requires Around(times, time, r) && UpToEnd(guess)
    ensures (forall n: nat :: !DoneAfter(times, time, guess, r, n)) <==> exists n: nat :: StuckAfter(times, time, guess, r, n)
  {
    if n: nat :| StuckAfter(times, time, guess, r, n) {
      forall m: nat ensures !DoneAfter(times, time, guess, r, m) {
        StuckIsEndless(times, time, guess, r, n, m);
      }
    } else {
      Shrinks(times, time, guess, r, r.end - r.start);
      assert DoneAfter(times, time, guess, r, r.end - r.start);
    }
  }

  datatype Found = NoBlocks | Block(num: nat) | Endless

  /** The search returns the block that the linear scan finds, unless a guess reaches the end of a range that is not done:
      then it goes on forever. */
  method FindBlockNum(times: seq<Time>, time: Time, guess: Guess) returns (found: Found)
    requires Increasing(times) && UpToEnd(guess)
    ensures found.NoBlocks? <==> times == []
    ensures found.Endless? <==>
              && Around(times, time, Range(1, |times|)) && times[0] < time
              && exists n: nat :: StuckAfter(times, time, guess, Range(1, |times|), n)
    ensures found.Block? ==> times != [] && found.num == LinearScan(times, time)
    ensures BeforeEnd(guess) ==> !found.Endless?
  {
    if times == [] {
      return NoBlocks;
    }
    if times[0] >= time {
      ScanIs(times, time, 1);
      return Block(1);
    }
    if times[|times| - 1] <= time {
      ScanIs(times, time, |times|);
      return Block(|times|);
    }
    ghost var whole := Range(1, |times|);
    var stuck, start;
    ghost var n;
    stuck, start, n := Narrow(times, time, guess);
    if BeforeEnd(guess) {
      NotStuck(times, time, guess, After(times, time, guess, whole, n));
    }
    if stuck {
      return Endless;
    }
    DoneIsNotStuck(times, time, guess, whole, n);
    DoneIsFound(times, time, After(times, time, guess, whole, n));
    found := Block(start);
  }

  /** The loop of the search, up to a guess that makes no progress. */
  method Narrow(times: seq<Time>, time: Time, guess: Guess) returns (stuck: bool, start: nat, ghost n: nat)
    requires UpToEnd(guess) && Around(times, time, Range(1, |times|))
    ensures stuck ==> StuckAfter(times, time, guess, Range(1, |times|), n)
    ensures !stuck ==> DoneAfter(times, time, guess, Range(1, |times|), n) && start == After(times, time, guess, Range(1, |times|), n).start
  {
    ghost var whole := Range(1, |times|);
    var end: nat := |times|;
    start, n := 1, 0;
    while end > start + 1
      invariant Around(times, time, Range(start, end)) && Range(start, end) == After(times, time, guess, whole, n)
      decreases end - start
    {
      var mid := Middle(times, time, guess, Range(start, end));
      if mid == end {
        stuck := true;
        return;
      }
      if mid == start {
        mid := mid + 1;
      }
      NextIs(times, time, guess, Range(start, end), mid);
      if times[mid - 1] > time {
        end := mid;
      } else {
        start := mid;
      }
      n := n + 1;
    }
    stuck := false;
  }
}
