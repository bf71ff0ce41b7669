/** Backoff delays, and the total budget a mutation's precondition read must be given.
    Times are whole milliseconds; a draw is the random number of one delay. */
module ReadRetryPolicy {
  import opened Options

  const RETRY_BUDGET_BUFFER_MS: nat := 1000
  const MAX_SAFE_INTEGER: int := 0x1F_FFFF_FFFF_FFFF

  function Pow2(n: nat): (p: nat)
    ensures p >= 1
  {
    if n == 0 then 1 else 2 * Pow2(n - 1)
  }

  /** At least one, and else three tenths of the base, rounded with halves up. */
  function JitterRange(base: nat): (r: int)
    ensures r >= 1
    ensures base <= 1 ==> r == 1
    ensures base >= 2 ==> 10 * r <= 3 * base + 5 < 10 * r + 10
  {
    var rounded := (base as real * 0.3 + 0.5).Floor;
    if rounded < 1 then 1 else rounded
  }

  function BackoffDelay(base: nat, attempt: nat, draw: real): int {
    base * Pow2(attempt) + (draw * JitterRange(base) as real).Floor
  }

  function MaximumBackoffBudget(base: nat, maxRetries: int): int {
    if maxRetries <= 0 then 0
    else base * (Pow2(maxRetries) - 1) + maxRetries * (JitterRange(base) - 1)
  }

  function BackoffTotal(base: nat, draws: seq<real>): int {
    if |draws| == 0 then 0
    else BackoffTotal(base, draws[..|draws| - 1]) + BackoffDelay(base, |draws| - 1, draws[|draws| - 1])
  }

  predicate Draw(x: real) { 0.0 <= x < 1.0 }

  predicate Draws(xs: seq<real>) { forall x :: x in xs ==> Draw(x) }

  lemma JitterIsInRange(range: int, draw: real)
    requires range >= 1 && Draw(draw)
    ensures 0 <= (draw * range as real).Floor <= range - 1
  {
    assert draw * range as real < range as real;
    assert draw * range as real >= 0.0;
  }

  lemma Distributes(a: int, b: int, c: int)
    ensures a * (b + c) == a * b + a * c
  {
  }

  lemma PowersDouble(n: nat)
    ensures Pow2(n + 1) - 1 == (Pow2(n) - 1) + Pow2(n) && Pow2(0) == 1
  {
  }

  lemma BudgetOf(base: nat, n: nat)
    ensures MaximumBackoffBudget(base, n) == base * (Pow2(n) - 1) + n * (JitterRange(base) - 1)
  {
    hide JitterRange, Pow2;
    PowersDouble(n);
    if n == 0 {
      assert base * (Pow2(0) - 1) == 0;
    }
  }

  lemma BudgetGrows(base: nat, n: nat)
    ensures MaximumBackoffBudget(base, n + 1)
            == MaximumBackoffBudget(base, n) + base * Pow2(n) + JitterRange(base) - 1
  {
    hide JitterRange, Pow2, MaximumBackoffBudget;
    BudgetOf(base, n);
    BudgetOf(base, n + 1);
    PowersDouble(n);
    Distributes(base, Pow2(n) - 1, Pow2(n));
    Distributes(JitterRange(base) - 1, n, 1);
  }

  lemma ProductIsNatural(a: nat, b: nat)
    ensures a * b >= 0
  {
  }

  lemma NoRetriesNoBudget(base: nat)
    ensures MaximumBackoffBudget(base, 0) == 0
  {
  }

  lemma {:induction false} BudgetIsMonotone(base: nat, n: nat, m: nat)
    requires n <= m
    ensures 0 <= MaximumBackoffBudget(base, n) <= MaximumBackoffBudget(base, m)
    decreases m
  {
    hide JitterRange, MaximumBackoffBudget, Pow2;
    if m > 0 {
      BudgetGrows(base, m - 1);
      BudgetIsMonotone(base, if n < m then n else m - 1, m - 1);
      ProductIsNatural(base, Pow2(m - 1));
    } else {
      NoRetriesNoBudget(base);
    }
  }

  lemma DelayBound(base: nat, attempt: nat, draw: real)
    requires Draw(draw)
    ensures 0 <= base * Pow2(attempt) <= BackoffDelay(base, attempt, draw) <= base * Pow2(attempt) + JitterRange(base) - 1
  {
    JitterIsInRange(JitterRange(base), draw);
    assert base * Pow2(attempt) >= 0;
  }

  lemma {:induction false} DelaysFit(base: nat, draws: seq<real>)
    requires Draws(draws)
    ensures 0 <= BackoffTotal(base, draws) <= MaximumBackoffBudget(base, |draws|)
  {
    hide JitterRange, BackoffDelay;
    if |draws| > 0 {
      var n := |draws| - 1;
      assert draws[n] in draws;
      assert forall x :: x in draws[..n] ==> x in draws;
      DelaysFit(base, draws[..n]);
      DelayBound(base, n, draws[n]);
      BudgetGrows(base, n);
    }
  }

  /** Whatever the draws, the delays of a run sum to at most the backoff budget. */
  lemma BackoffsFitTheBudget(base: nat, draws: seq<real>, maxRetries: nat)
    requires Draws(draws) && |draws| <= maxRetries
    ensures 0 <= BackoffTotal(base, draws) <= MaximumBackoffBudget(base, maxRetries)
  {
    DelaysFit(base, draws);
    BudgetIsMonotone(base, |draws|, maxRetries);
  }

  /** The draw that gives the largest jitter. */
  function Worst(base: nat): real {
    (JitterRange(base) - 1) as real / JitterRange(base) as real
  }

  lemma Ratio(r: int)
    requires r >= 1
    ensures var w := (r - 1) as real / r as real;
            0.0 <= w < 1.0 && w * r as real == (r - 1) as real
  {
    var w, x := (r - 1) as real / r as real, r as real;
    assert w * x == (r - 1) as real;
    Below(w, x);
  }

  lemma SignOfProduct(a: real, x: real)
    requires x > 0.0
    ensures a >= 0.0 <==> a * x >= 0.0
  {}

  lemma Below(w: real, x: real)
    requires x > 0.0 && 0.0 <= w * x < x
    ensures 0.0 <= w < 1.0
  {
    SignOfProduct(w, x);
    SignOfProduct(w - 1.0, x);
    assert (w - 1.0) * x == w * x - x;
  }

  lemma WorstDelay(base: nat, attempt: nat)
    ensures Draw(Worst(base))
    ensures BackoffDelay(base, attempt, Worst(base)) == base * Pow2(attempt) + JitterRange(base) - 1
  {
    hide Pow2, JitterRange;
    Ratio(JitterRange(base));
  }

  lemma TotalMore(base: nat, rest: seq<real>, draw: real)
    ensures BackoffTotal(base, rest + [draw]) == BackoffTotal(base, rest) + BackoffDelay(base, |rest|, draw)
    ensures Draws(rest) && Draw(draw) ==> Draws(rest + [draw])
  {
    hide BackoffDelay;
    assert (rest + [draw])[..|rest|] == rest;
  }

  predicate UsesAll(base: nat, draws: seq<real>, maxRetries: nat) {
    |draws| == maxRetries && Draws(draws) && BackoffTotal(base, draws) == MaximumBackoffBudget(base, maxRetries)
  }

  /** The budget is not larger than needed: some draws use all of it. */
  lemma {:induction false} BudgetIsReached(base: nat, maxRetries: nat)
    ensures exists draws :: UsesAll(base, draws, maxRetries)
  {
    hide BackoffDelay, Worst, JitterRange, MaximumBackoffBudget, Pow2, BackoffTotal, Draws, Draw;
    if maxRetries == 0 {
      NoRetriesNoBudget(base);
      NothingUsesNothing(base);
      assert UsesAll(base, [], 0);
    } else {
      BudgetIsReached(base, maxRetries - 1);
      var rest :| UsesAll(base, rest, maxRetries - 1);
      WorstDelay(base, maxRetries - 1);
      BudgetGrows(base, maxRetries - 1);
      TotalMore(base, rest, Worst(base));
      assert UsesAll(base, rest + [Worst(base)], maxRetries);
    }
  }

  lemma NothingUsesNothing(base: nat)
    ensures BackoffTotal(base, []) == 0 && Draws([])
  {
  }

  // ---- the policy ----

  datatype PolicyInput = PolicyInput(timeoutMs: nat, maxRetries: nat, retryBaseDelayMs: nat, configuredTotalBudgetMs: Option<int>)

  datatype Policy = Policy(timeoutMs: nat, totalBudgetMs: int, maxRetries: nat, retryBaseDelayMs: nat)

  /** `TooSmall` carries the least budget that would have been accepted. */
  datatype PolicyResult = Accepted(policy: Policy) | TooSmall(minimum: int)

  function MinimumTotalBudget(i: PolicyInput): int {
    var buffer := i.maxRetries * RETRY_BUDGET_BUFFER_MS;
    var backoff := MaximumBackoffBudget(i.retryBaseDelayMs, i.maxRetries);
    i.timeoutMs * (i.maxRetries + 1) + (if buffer > backoff then buffer else backoff)
  }

  predicate IsSafeInteger(n: int) { -MAX_SAFE_INTEGER <= n <= MAX_SAFE_INTEGER }

  function ResolveMutationReadPolicy(i: PolicyInput): PolicyResult {
    var minimum := MinimumTotalBudget(i);
    var total := match i.configuredTotalBudgetMs case Some(n) => n case None => minimum;
    if !IsSafeInteger(total) || total < minimum then TooSmall(minimum)
    else Accepted(Policy(i.timeoutMs, total, i.maxRetries, i.retryBaseDelayMs))
  }

  /** A total that holds every attempt's timeout with a second for each retry, and with any
      run of delays. */
  ghost predicate HasRoom(i: PolicyInput, total: int) {
    var timeouts := i.timeoutMs * (i.maxRetries + 1);
    && total >= timeouts + i.maxRetries * 1000
    && forall draws {:trigger Draws(draws)} :: Draws(draws) && |draws| <= i.maxRetries ==>
         total >= timeouts + BackoffTotal(i.retryBaseDelayMs, draws)
  }

  lemma RoomIffMinimum(i: PolicyInput, total: int)
    ensures HasRoom(i, total) <==> total >= MinimumTotalBudget(i)
  {
    hide MaximumBackoffBudget, BackoffTotal, Draws, Draw;
    forall draws {:trigger Draws(draws)} | Draws(draws) && |draws| <= i.maxRetries
      ensures BackoffTotal(i.retryBaseDelayMs, draws) <= MaximumBackoffBudget(i.retryBaseDelayMs, i.maxRetries)
    {
      BackoffsFitTheBudget(i.retryBaseDelayMs, draws, i.maxRetries);
    }
    BudgetIsReached(i.retryBaseDelayMs, i.maxRetries);
    var worst :| UsesAll(i.retryBaseDelayMs, worst, i.maxRetries);
  }

  /** A configured total is accepted exactly if it is a safe integer and has room; without one
      the least total that has room is taken; and a refusal names that least total. */
  lemma PolicyIff(i: PolicyInput)
    ensures match ResolveMutationReadPolicy(i)
            case Accepted(p) =>
              && HasRoom(i, p.totalBudgetMs) && -9007199254740991 <= p.totalBudgetMs <= 9007199254740991
              && p == Policy(i.timeoutMs, p.totalBudgetMs, i.maxRetries, i.retryBaseDelayMs)
              && (match i.configuredTotalBudgetMs
                  case Some(n) => p.totalBudgetMs == n
                  case None => forall n :: HasRoom(i, n) ==> p.totalBudgetMs <= n)
            case TooSmall(least) =>
              && (forall n :: HasRoom(i, n) <==> least <= n)
              && match i.configuredTotalBudgetMs
                 case Some(n) => !HasRoom(i, n) || !(-9007199254740991 <= n <= 9007199254740991)
                 case None => least > 9007199254740991
  {
    hide HasRoom, MinimumTotalBudget;
    forall n ensures HasRoom(i, n) <==> n >= MinimumTotalBudget(i) {
      RoomIffMinimum(i, n);
    }
    MinimumIsNatural(i);
  }

  lemma MinimumIsNatural(i: PolicyInput)
    ensures MinimumTotalBudget(i) >= 0
  {
    hide MaximumBackoffBudget;
    BudgetIsMonotone(i.retryBaseDelayMs, 0, i.maxRetries);
    ProductIsNatural(i.timeoutMs, i.maxRetries + 1);
  }

  /** An accepted policy has room for every attempt's timeout and every run of delays. */
  lemma AcceptedPolicyHasRoom(i: PolicyInput, draws: seq<real>)
    requires ResolveMutationReadPolicy(i).Accepted? && Draws(draws) && |draws| <= i.maxRetries
    ensures var p := ResolveMutationReadPolicy(i).policy;
            p.totalBudgetMs >= p.timeoutMs * (p.maxRetries + 1) + BackoffTotal(p.retryBaseDelayMs, draws)
  {
    BackoffsFitTheBudget(i.retryBaseDelayMs, draws, i.maxRetries);
  }
}
