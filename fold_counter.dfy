/**
 * The counter logic of `onResponseReceived` on its own: each successful
 * response increments the response count; when the count reaches the
 * threshold (`MAX_SIZE`) the handler folds and the count goes back to 0.
 */
module FoldCounter {

  /** `DEFAULT_MAX_SIZE`. */
  const DefaultMaxSize: int := 10

  /** The count after one response, and whether that response caused a fold. */
  datatype Tick = Tick(count: int, folded: bool)

  /** One response: `count += 1; if (count >= maxSize) { fold; count = 0; }`. */
  function CountStep(count: int, maxSize: int): (t: Tick)
    ensures 0 <= count ==> (t.folded <==> t.count == 0)
    ensures !t.folded ==> t.count == count + 1
    ensures 0 <= count && 1 <= maxSize ==> 0 <= t.count < maxSize
    ensures 0 <= count && maxSize <= 0 ==> t.folded
    ensures count < maxSize - 1 ==> !t.folded
  {
    if count + 1 >= maxSize then Tick(0, true) else Tick(count + 1, false)
  }

  /** The count and number of folds after some responses. */
  datatype Outcome = Outcome(count: int, folds: nat)

  /** `n` successive responses with a fixed threshold. */
  function Run(count: int, maxSize: int, n: nat): (r: Outcome)
    ensures n == 0 ==> r == Outcome(count, 0)
    ensures r.folds <= n
    ensures 0 <= count ==> 0 <= r.count
    decreases n
  {
    if n == 0 then Outcome(count, 0)
    else
      var t := CountStep(count, maxSize);
      var rest := Run(t.count, maxSize, n - 1);
      Outcome(rest.count, rest.folds + if t.folded then 1 else 0)
  }

  /**
   * One more response after `n` of them is one more `CountStep`: this is what
   * ties `Run` to successive calls of `onResponseReceived`.
   */
  lemma {:induction false} RunSnoc(count: int, maxSize: int, n: nat)
    ensures var o := Run(count, maxSize, n);
      var t := CountStep(o.count, maxSize);
      Run(count, maxSize, n + 1) == Outcome(t.count, o.folds + if t.folded then 1 else 0)
    decreases n
  {
    if n > 0 {
      RunSnoc(CountStep(count, maxSize).count, maxSize, n - 1);
    }
  }

  /** Euclidean division is determined by its quotient and remainder. */
  lemma DivModUnique(x: int, m: int, q: int, r: int)
    requires 1 <= m && 0 <= r < m && x == q * m + r
    ensures x / m == q && x % m == r
  {
    var q', r' := x / m, x % m;
    assert x == q' * m + r';
    var d := q - q';
    assert d * m == r' - r;
  }

  /** Every response is either counted or absorbed by a fold of `maxSize` responses. */
  lemma {:induction false} RunAccounts(count: int, maxSize: int, n: nat)
    requires 1 <= maxSize && 0 <= count < maxSize
    ensures var o := Run(count, maxSize, n);
      count + n == o.folds * maxSize + o.count && 0 <= o.count < maxSize
    decreases n
  {
    if n > 0 {
      var t := CountStep(count, maxSize);
      RunAccounts(t.count, maxSize, n - 1);
      var rest := Run(t.count, maxSize, n - 1);
      var o := Run(count, maxSize, n);
      assert o.count == rest.count;
      assert t.count + (n - 1) == rest.folds * maxSize + rest.count;
      if t.folded {
        assert o.folds == rest.folds + 1;
        assert count + 1 == maxSize && t.count == 0;
        assert o.folds * maxSize == rest.folds * maxSize + maxSize;
      } else {
        assert o.folds == rest.folds && t.count == count + 1;
      }
    } else {
      assert Run(count, maxSize, n) == Outcome(count, 0);
    }
  }

  /**
   * From a count below the threshold, `n` responses fold exactly
   * `(count + n) / maxSize` times and leave `(count + n) % maxSize`.
   */
  lemma FoldCount(count: int, maxSize: int, n: nat)
    requires 1 <= maxSize && 0 <= count < maxSize
    ensures Run(count, maxSize, n) == Outcome((count + n) % maxSize, (count + n) / maxSize)
  {
    RunAccounts(count, maxSize, n);
    var o := Run(count, maxSize, n);
    DivModUnique(count + n, maxSize, o.folds, o.count);
  }

  /** From a fresh counter, `n` responses fold `n / maxSize` times and leave `n % maxSize`. */
  lemma FoldCountFromZero(maxSize: int, n: nat)
    requires 1 <= maxSize
    ensures Run(0, maxSize, n) == Outcome(n % maxSize, n / maxSize)
  {
    FoldCount(0, maxSize, n);
  }

  /**
   * After a fold the next `maxSize - 1` responses do not fold, and the
   * `maxSize`-th does.
   */
  lemma FoldPeriod(maxSize: int)
    requires 1 <= maxSize
    ensures Run(0, maxSize, maxSize - 1) == Outcome(maxSize - 1, 0)
    ensures Run(0, maxSize, maxSize) == Outcome(0, 1)
  {
    FoldCount(0, maxSize, maxSize - 1);
    DivModUnique(maxSize - 1, maxSize, 0, maxSize - 1);
    FoldCount(0, maxSize, maxSize);
    DivModUnique(maxSize, maxSize, 1, 0);
  }

  /** `k * maxSize` responses from a fresh counter give exactly `k` folds and a zero count. */
  lemma WholeBatches(maxSize: int, k: nat)
    requires 1 <= maxSize
    ensures Run(0, maxSize, k * maxSize) == Outcome(0, k)
  {
    RunAccounts(0, maxSize, k * maxSize);
    var o := Run(0, maxSize, k * maxSize);
    DivModUnique(k * maxSize, maxSize, k, 0);
    DivModUnique(k * maxSize, maxSize, o.folds, o.count);
  }

  /** With the default threshold every tenth response folds. */
  lemma DefaultThreshold(n: nat)
    ensures Run(0, DefaultMaxSize, n) == Outcome(n % 10, n / 10)
  {
    FoldCount(0, DefaultMaxSize, n);
  }

  /** A threshold of zero or less (which the setter accepts) makes every response fold. */
  lemma {:induction false} NonPositiveThresholdFoldsEveryTime(count: int, maxSize: int, n: nat)
    requires 0 <= count && maxSize <= 0
    ensures Run(count, maxSize, n) == Outcome(if n == 0 then count else 0, n)
    decreases n
  {
    if n > 0 {
      NonPositiveThresholdFoldsEveryTime(0, maxSize, n - 1);
    }
  }

  /**
   * Lowering the threshold below the current count is harmless: the next
   * response folds, and from then on the counter stays below the threshold.
   */
  lemma {:induction false} CountStaysBelowThreshold(count: int, maxSize: int, n: nat)
    requires 0 <= count && 1 <= maxSize && 1 <= n
    ensures 0 <= Run(count, maxSize, n).count < maxSize
    decreases n
  {
    var t := CountStep(count, maxSize);
    if n > 1 {
      CountStaysBelowThreshold(t.count, maxSize, n - 1);
    }
  }
}
