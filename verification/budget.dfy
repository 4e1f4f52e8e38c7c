/** The LLM budget of a task: counters, checks, and what concurrent calls can do to the limits. */
module Budget {

  datatype Limits = Limits(maxCalls: nat, maxTokens: nat, maxCost: real, inputPrice: real, outputPrice: real)

  datatype Usage = Usage(calls: nat, prompt: nat, completion: nat, cost: real)

  const NO_USAGE := Usage(0, 0, 0, 0.0)

  function Tokens(u: Usage): nat {
    u.prompt + u.completion
  }

  /** A limit of 0 is no limit. */
  predicate WithinLimits(l: Limits, u: Usage) {
    && (l.maxCalls == 0 || u.calls < l.maxCalls)
    && (l.maxTokens == 0 || Tokens(u) < l.maxTokens)
    && (l.maxCost == 0.0 || u.cost < l.maxCost)
  }

  function AtLeastZero(n: int): nat {
    if n < 0 then 0 else n
  }

  /** The price of a call, per million tokens. */
  function CostOf(l: Limits, prompt: int, completion: int): real {
    (prompt as real * l.inputPrice + completion as real * l.outputPrice) / 1000000.0
  }

  /** Token counts below zero are counted as zero, but their cost is not. */
  function Recorded(l: Limits, u: Usage, prompt: int, completion: int): Usage {
    Usage(u.calls + 1, u.prompt + AtLeastZero(prompt), u.completion + AtLeastZero(completion),
          u.cost + CostOf(l, prompt, completion))
  }

  class TaskBudget {
    const limits: Limits
    var usage: Usage

    constructor (limits: Limits)
      ensures this.limits == limits && usage == NO_USAGE
    {
      this.limits := limits;
      usage := NO_USAGE;
    }

    /** False stands for BudgetExceededError. */
    method Check() returns (ok: bool)
      ensures ok == WithinLimits(limits, usage)
    {
      if limits.maxCalls != 0 && usage.calls >= limits.maxCalls {
        return false;
      }
      var total := usage.prompt + usage.completion;
      if limits.maxTokens != 0 && total >= limits.maxTokens {
        return false;
      }
      if limits.maxCost != 0.0 && usage.cost >= limits.maxCost {
        return false;
      }
      return true;
    }

    /** The counters move even when the result is False, the exception that the callback swallows. */
    method Record(prompt: int, completion: int) returns (ok: bool)
      modifies this
      ensures usage == Recorded(limits, old(usage), prompt, completion)
      ensures ok <==> limits.maxTokens == 0 || Tokens(usage) <= limits.maxTokens
    {
      var cost := CostOf(limits, prompt, completion);
      usage := usage.(calls := usage.calls + 1);
      usage := usage.(prompt := usage.prompt + AtLeastZero(prompt), completion := usage.completion + AtLeastZero(completion));
      usage := usage.(cost := usage.cost + cost);
      var total := usage.prompt + usage.completion;
      ok := limits.maxTokens == 0 || total <= limits.maxTokens;
    }
  }

  // ---- cost ----

  function RecordAll(l: Limits, u: Usage, calls: seq<(int, int)>): Usage {
    if calls == [] then u
    else
      var last := calls[|calls| - 1];
      Recorded(l, RecordAll(l, u, calls[..|calls| - 1]), last.0, last.1)
  }

  /** The price of the negative counts that the token totals ignore. */
  function IgnoredCost(l: Limits, calls: seq<(int, int)>): real {
    if calls == [] then 0.0
    else
      var last := calls[|calls| - 1];
      IgnoredCost(l, calls[..|calls| - 1])
      + CostOf(l, if last.0 < 0 then last.0 else 0, if last.1 < 0 then last.1 else 0)
  }

  /** In exact arithmetic the cost is the price of the token totals, plus the ignored cost: so it
      is the closed form of the totals exactly when the negative counts cost nothing. */
  lemma {:induction false} CostIsClosedForm(l: Limits, calls: seq<(int, int)>)
    ensures var u := RecordAll(l, NO_USAGE, calls);
            && u.calls == |calls|
            && u.cost == CostOf(l, u.prompt, u.completion) + IgnoredCost(l, calls)
    ensures (forall c | c in calls :: c.0 >= 0 && c.1 >= 0) ==> IgnoredCost(l, calls) == 0.0
  {
    if calls != [] {
      var init, last := calls[..|calls| - 1], calls[|calls| - 1];
      assert calls == init + [last];
      CostIsClosedForm(l, init);
      var u := RecordAll(l, NO_USAGE, init);
      var p, q := last.0, last.1;
      CostAdds(l, u.prompt, u.completion, AtLeastZero(p), AtLeastZero(q));
      CostAdds(l, AtLeastZero(p), AtLeastZero(q), if p < 0 then p else 0, if q < 0 then q else 0);
    }
  }

  /** No negative count of a kind that has a price. */
  predicate NoPricedNegative(l: Limits, c: (int, int)) {
    (c.0 >= 0 || l.inputPrice == 0.0) && (c.1 >= 0 || l.outputPrice == 0.0)
  }

  lemma NegativeCostSign(l: Limits, c: (int, int))
    requires l.inputPrice >= 0.0 && l.outputPrice >= 0.0
    ensures var cost := CostOf(l, if c.0 < 0 then c.0 else 0, if c.1 < 0 then c.1 else 0);
            cost <= 0.0 && (cost == 0.0 <==> NoPricedNegative(l, c))
  {
    var p, q := (if c.0 < 0 then c.0 else 0) as real, (if c.1 < 0 then c.1 else 0) as real;
    NonPositiveProduct(p, l.inputPrice);
    NonPositiveProduct(q, l.outputPrice);
  }

  lemma NonPositiveProduct(x: real, price: real)
    requires x <= 0.0 && price >= 0.0
    ensures x * price <= 0.0 && (x * price == 0.0 <==> x == 0.0 || price == 0.0)
  {
  }

  lemma {:induction false} IgnoredCostIsNothingIff(l: Limits, calls: seq<(int, int)>)
    requires l.inputPrice >= 0.0 && l.outputPrice >= 0.0
    ensures IgnoredCost(l, calls) <= 0.0
    ensures IgnoredCost(l, calls) == 0.0 <==> forall i | 0 <= i < |calls| :: NoPricedNegative(l, calls[i])
  {
    if calls != [] {
      var init := calls[..|calls| - 1];
      IgnoredCostIsNothingIff(l, init);
      NegativeCostSign(l, calls[|calls| - 1]);
      assert forall i | 0 <= i < |init| :: init[i] == calls[i];
    }
  }

  /** So, with prices that are not negative, the cost is the closed form of the token totals if and
      only if no call reports a negative count of a priced kind; otherwise it is lower. */
  lemma CostIsClosedFormIff(l: Limits, calls: seq<(int, int)>)
    requires l.inputPrice >= 0.0 && l.outputPrice >= 0.0
    ensures var u := RecordAll(l, NO_USAGE, calls);
            && u.cost <= CostOf(l, u.prompt, u.completion)
            && (u.cost == CostOf(l, u.prompt, u.completion) <==>
                  forall i | 0 <= i < |calls| :: NoPricedNegative(l, calls[i]))
  {
    CostIsClosedForm(l, calls);
    IgnoredCostIsNothingIff(l, calls);
  }

  lemma CostAdds(l: Limits, p: int, q: int, p': int, q': int)
    ensures CostOf(l, p + p', q + q') == CostOf(l, p, q) + CostOf(l, p', q')
  {
    assert (p + p') as real == p as real + p' as real;
    assert (q + q') as real == q as real + q' as real;
    Distributes(p as real, p' as real, l.inputPrice);
    Distributes(q as real, q' as real, l.outputPrice);
  }

  lemma Distributes(a: real, b: real, x: real)
    ensures (a + b) * x == a * x + b * x
  {
  }

  /** Prices are per million tokens. */
  lemma PricesArePerMillion(l: Limits)
    ensures CostOf(l, 1000000, 0) == l.inputPrice && CostOf(l, 0, 1000000) == l.outputPrice
  {
  }

  // ---- concurrent calls: check, then call, then record ----

  /** The shared counter with the calls that passed their check and are not back yet. */
  datatype Meter = Meter(usage: Usage, inFlight: nat)

  /** A call starts (which checks first), returns with token counts, or fails without a record. */
  datatype Move = StartCall | Return(prompt: int, completion: int) | Fail

  function MeterStep(l: Limits, m: Meter, move: Move): Meter {
    match move
    case StartCall => if WithinLimits(l, m.usage) then m.(inFlight := m.inFlight + 1) else m
    case Return(p, c) =>
      if m.inFlight == 0 then m else Meter(Recorded(l, m.usage, p, c), m.inFlight - 1)
    case Fail => if m.inFlight == 0 then m else m.(inFlight := m.inFlight - 1)
  }

  function MeterRun(l: Limits, m: Meter, moves: seq<Move>): Meter {
    if moves == [] then m else MeterStep(l, MeterRun(l, m, moves[..|moves| - 1]), moves[|moves| - 1])
  }

  /** At most k calls are in flight at any time, and no call uses more than c tokens. */
  ghost predicate Bounded(l: Limits, m: Meter, moves: seq<Move>, k: nat, c: nat) {
    && (forall n | 0 <= n <= |moves| :: MeterRun(l, m, moves[..n]).inFlight <= k)
    && (forall move | move in moves && move.Return? :: AtLeastZero(move.prompt) + AtLeastZero(move.completion) <= c)
  }

  lemma BoundedPrefix(l: Limits, m: Meter, moves: seq<Move>, k: nat, c: nat)
    requires moves != [] && Bounded(l, m, moves, k, c)
    ensures Bounded(l, m, moves[..|moves| - 1], k, c)
    ensures MeterRun(l, m, moves).inFlight <= k
    ensures MeterRun(l, m, moves[..|moves| - 1]).inFlight <= k
  {
    var init := moves[..|moves| - 1];
    forall n | 0 <= n <= |init| ensures MeterRun(l, m, init[..n]).inFlight <= k {
      assert init[..n] == moves[..n];
    }
    assert init[..|init|] == init;
    assert moves[..|moves|] == moves;
  }

  /** In every interleaving the calls made and in flight stay below max_calls + k. */
  lemma {:induction false} CallOvershoot(l: Limits, moves: seq<Move>, k: nat, c: nat)
    requires k > 0 && l.maxCalls > 0 && Bounded(l, Meter(NO_USAGE, 0), moves, k, c)
    ensures var m := MeterRun(l, Meter(NO_USAGE, 0), moves);
            m.usage.calls + m.inFlight <= l.maxCalls - 1 + k
  {
    if moves != [] {
      BoundedPrefix(l, Meter(NO_USAGE, 0), moves, k, c);
      CallOvershoot(l, moves[..|moves| - 1], k, c);
    }
  }

  /** n times c, by repeated addition. */
  function Times(n: nat, c: nat): nat {
    if n == 0 then 0 else Times(n - 1, c) + c
  }

  lemma {:induction false} TimesIsProduct(n: nat, c: nat)
    ensures Times(n, c) == n * c
  {
    if n > 0 {
      TimesIsProduct(n - 1, c);
    }
  }

  lemma {:induction false} TimesGrows(a: nat, b: nat, c: nat)
    requires a <= b
    ensures Times(a, c) <= Times(b, c)
  {
    if a < b {
      TimesGrows(a, b - 1, c);
    }
  }

  /** The most tokens that can be recorded, c a call, while a further call may still start. */
  function TokensBefore(l: Limits, c: nat): (t: nat)
    requires l.maxTokens > 0 || l.maxCalls > 0
    ensures l.maxTokens > 0 ==> t <= l.maxTokens - 1
  {
    if l.maxTokens == 0 || (l.maxCalls > 0 && Times(l.maxCalls - 1, c) < l.maxTokens - 1) then Times(l.maxCalls - 1, c)
    else l.maxTokens - 1
  }

  predicate TokensWithin(l: Limits, m: Meter, k: nat, c: nat)
    requires l.maxTokens > 0 || l.maxCalls > 0
  {
    Tokens(m.usage) + Times(m.inFlight, c) <= TokensBefore(l, c) + Times(k, c) && Tokens(m.usage) <= Times(m.usage.calls, c)
  }

  /** ... and the tokens used, with c for each call in flight, below max_tokens + k * c; or lower, when
      max_calls - 1 calls cannot use that many. */
  lemma {:induction false} TokenOvershoot(l: Limits, moves: seq<Move>, k: nat, c: nat)
    requires k > 0 && (l.maxTokens > 0 || l.maxCalls > 0) && Bounded(l, Meter(NO_USAGE, 0), moves, k, c)
    ensures TokensWithin(l, MeterRun(l, Meter(NO_USAGE, 0), moves), k, c)
  {
    if moves != [] {
      var init, move := moves[..|moves| - 1], moves[|moves| - 1];
      BoundedPrefix(l, Meter(NO_USAGE, 0), moves, k, c);
      TokenOvershoot(l, init, k, c);
      TokenStep(l, MeterRun(l, Meter(NO_USAGE, 0), init), move, k, c);
    } else {
      TimesGrows(0, k, c);
    }
  }

  lemma TokenStep(l: Limits, m: Meter, move: Move, k: nat, c: nat)
    requires (l.maxTokens > 0 || l.maxCalls > 0) && MeterStep(l, m, move).inFlight <= k
    requires move.Return? ==> AtLeastZero(move.prompt) + AtLeastZero(move.completion) <= c
    requires TokensWithin(l, m, k, c)
    ensures TokensWithin(l, MeterStep(l, m, move), k, c)
  {
    var m' := MeterStep(l, m, move);
    if m'.inFlight > m.inFlight {
      TimesGrows(m'.inFlight, k, c);
      if l.maxCalls > 0 {
        TimesGrows(m.usage.calls, l.maxCalls - 1, c);
      }
    } else if m'.inFlight < m.inFlight {
    }
  }

  /** With one call at a time the call limit is exact. */
  lemma SequentialCallsAreExact(l: Limits, moves: seq<Move>, c: nat)
    requires l.maxCalls > 0 && Bounded(l, Meter(NO_USAGE, 0), moves, 1, c)
    ensures MeterRun(l, Meter(NO_USAGE, 0), moves).usage.calls <= l.maxCalls
  {
    CallOvershoot(l, moves, 1, c);
  }

  /** No call costs more than c. */
  ghost predicate CostBounded(l: Limits, moves: seq<Move>, c: real) {
    forall i | 0 <= i < |moves| && moves[i].Return? :: CostOf(l, moves[i].prompt, moves[i].completion) <= c
  }

  lemma CostBoundedPrefix(l: Limits, moves: seq<Move>, c: real)
    requires moves != [] && CostBounded(l, moves, c)
    ensures CostBounded(l, moves[..|moves| - 1], c)
    ensures var last := moves[|moves| - 1]; last.Return? ==> CostOf(l, last.prompt, last.completion) <= c
  {
  }

  /** The same for money. */
  function Reserve(n: nat, c: real): real {
    if n == 0 then 0.0 else Reserve(n - 1, c) + c
  }

  lemma {:induction false} ReserveIsProduct(n: nat, c: real)
    ensures Reserve(n, c) == n as real * c
  {
    if n > 0 {
      ReserveIsProduct(n - 1, c);
      Distributes((n - 1) as real, 1.0, c);
    }
  }

  lemma {:induction false} ReserveGrows(a: nat, b: nat, c: real)
    requires a <= b && c >= 0.0
    ensures Reserve(a, c) <= Reserve(b, c)
  {
    if a < b {
      ReserveGrows(a, b - 1, c);
    }
  }

  predicate CostWithin(l: Limits, m: Meter, k: nat, c: real) {
    m.usage.cost + Reserve(m.inFlight, c) < l.maxCost + Reserve(k, c)
  }

  lemma CostStep(l: Limits, m: Meter, move: Move, k: nat, c: real)
    requires l.maxCost > 0.0 && c >= 0.0 && MeterStep(l, m, move).inFlight <= k
    requires move.Return? ==> CostOf(l, move.prompt, move.completion) <= c
    requires CostWithin(l, m, k, c)
    ensures CostWithin(l, MeterStep(l, m, move), k, c)
  {
    ReserveGrows(MeterStep(l, m, move).inFlight, k, c);
  }

  /** The same for money: with calls of at most cost each, the money spent, with cost for each call in
      flight, stays below max_cost + k * cost in every interleaving. */
  lemma {:induction false} CostOvershoot(l: Limits, moves: seq<Move>, k: nat, c: nat, cost: real)
    requires l.maxCost > 0.0 && cost >= 0.0 && Bounded(l, Meter(NO_USAGE, 0), moves, k, c) && CostBounded(l, moves, cost)
    ensures CostWithin(l, MeterRun(l, Meter(NO_USAGE, 0), moves), k, cost)
  {
    if moves != [] {
      BoundedPrefix(l, Meter(NO_USAGE, 0), moves, k, c);
      CostBoundedPrefix(l, moves, cost);
      CostOvershoot(l, moves[..|moves| - 1], k, c, cost);
      CostStep(l, MeterRun(l, Meter(NO_USAGE, 0), moves[..|moves| - 1]), moves[|moves| - 1], k, cost);
    } else {
      ReserveGrows(0, k, cost);
    }
  }

  // ---- the bounds are attained ----

  lemma BoundedAppend(l: Limits, m: Meter, a: seq<Move>, b: seq<Move>, k: nat, c: nat)
    requires Bounded(l, m, a, k, c) && Bounded(l, MeterRun(l, m, a), b, k, c)
    ensures Bounded(l, m, a + b, k, c)
  {
    forall n | 0 <= n <= |a + b| ensures MeterRun(l, m, (a + b)[..n]).inFlight <= k {
      if n <= |a| {
        assert (a + b)[..n] == a[..n];
      } else {
        assert (a + b)[..n] == a + b[..n - |a|];
        MeterRunAppend(l, m, a, b[..n - |a|]);
      }
    }
  }

  lemma BoundedMove(l: Limits, m: Meter, move: Move, k: nat, c: nat)
    requires m.inFlight <= k && MeterStep(l, m, move).inFlight <= k
    requires move.Return? ==> AtLeastZero(move.prompt) + AtLeastZero(move.completion) <= c
    ensures Bounded(l, m, [move], k, c) && MeterRun(l, m, [move]) == MeterStep(l, m, move)
  {
    assert [move][..0] == [] && [move][..1] == [move];
  }

  lemma {:induction false} MeterRunAppend(l: Limits, m: Meter, a: seq<Move>, b: seq<Move>)
    ensures MeterRun(l, m, a + b) == MeterRun(l, MeterRun(l, m, a), b)
  {
    if b == [] {
      assert a + b == a;
    } else {
      assert (a + b)[..|a + b| - 1] == a + b[..|b| - 1];
      MeterRunAppend(l, m, a, b[..|b| - 1]);
    }
  }

  function Starts(k: nat): seq<Move> {
    if k == 0 then [] else Starts(k - 1) + [StartCall]
  }

  function Returns(k: nat, c: nat): seq<Move> {
    if k == 0 then [] else Returns(k - 1, c) + [Return(c, 0)]
  }

  lemma {:induction false} StartsRun(l: Limits, m: Meter, j: nat, k: nat, c: nat)
    requires WithinLimits(l, m.usage) && m.inFlight + j <= k
    ensures MeterRun(l, m, Starts(j)) == m.(inFlight := m.inFlight + j) && Bounded(l, m, Starts(j), k, c)
  {
    if j > 0 {
      assert Starts(j)[..|Starts(j)| - 1] == Starts(j - 1);
      StartsRun(l, m, j - 1, k, c);
      BoundedMove(l, MeterRun(l, m, Starts(j - 1)), StartCall, k, c);
      BoundedAppend(l, m, Starts(j - 1), [StartCall], k, c);
    }
  }

  lemma ReturnStep(l: Limits, m: Meter, k: nat, c: nat)
    requires 0 < m.inFlight <= k
    ensures var m' := MeterRun(l, m, [Return(c, 0)]);
            m'.inFlight == m.inFlight - 1 && m'.usage.calls == m.usage.calls + 1 && Tokens(m'.usage) == Tokens(m.usage) + c
    ensures Bounded(l, m, [Return(c, 0)], k, c)
  {
    BoundedMove(l, m, Return(c, 0), k, c);
  }

  lemma {:induction false} ReturnsRun(l: Limits, m: Meter, j: nat, k: nat, c: nat)
    requires j <= m.inFlight <= k
    ensures var m' := MeterRun(l, m, Returns(j, c));
            && m'.inFlight == m.inFlight - j && m'.usage.calls == m.usage.calls + j
            && Tokens(m'.usage) == Tokens(m.usage) + Times(j, c)
    ensures Bounded(l, m, Returns(j, c), k, c)
  {
    if j > 0 {
      ReturnsRun(l, m, j - 1, k, c);
      ReturnStep(l, MeterRun(l, m, Returns(j - 1, c)), k, c);
      MeterRunAppend(l, m, Returns(j - 1, c), [Return(c, 0)]);
      BoundedAppend(l, m, Returns(j - 1, c), [Return(c, 0)], k, c);
    }
  }

  /** Whenever one more call is within the limits, k calls can start together and all be counted. */
  lemma TogetherCounted(l: Limits, m: Meter, k: nat, c: nat)
    requires WithinLimits(l, m.usage) && m.inFlight == 0
    ensures var m' := MeterRun(l, m, Starts(k) + Returns(k, c));
            && m'.inFlight == 0 && m'.usage.calls == m.usage.calls + k
            && Tokens(m'.usage) == Tokens(m.usage) + Times(k, c)
    ensures Bounded(l, m, Starts(k) + Returns(k, c), k, c)
  {
    StartsRun(l, m, k, k, c);
    ReturnsRun(l, MeterRun(l, m, Starts(k)), k, k, c);
    MeterRunAppend(l, m, Starts(k), Returns(k, c));
    BoundedAppend(l, m, Starts(k), Returns(k, c), k, c);
  }

  /** One call, begun when none is in flight. */
  lemma OneCall(l: Limits, m: Meter, t: nat, k: nat, c: nat)
    requires WithinLimits(l, m.usage) && m.inFlight == 0 && k > 0 && t <= c
    ensures MeterRun(l, m, [StartCall] + [Return(t, 0)]) == Meter(Recorded(l, m.usage, t, 0), 0)
    ensures Bounded(l, m, [StartCall] + [Return(t, 0)], k, c)
  {
    BoundedMove(l, m, StartCall, k, c);
    BoundedMove(l, MeterStep(l, m, StartCall), Return(t, 0), k, c);
    MeterRunAppend(l, m, [StartCall], [Return(t, 0)]);
    BoundedAppend(l, m, [StartCall], [Return(t, 0)], k, c);
  }

  /** n calls one after the other that report no tokens. */
  function OneByOne(n: nat): seq<Move> {
    if n == 0 then [] else OneByOne(n - 1) + ([StartCall] + [Return(0, 0)])
  }

  lemma FreeCall(l: Limits, u: Usage)
    ensures Recorded(l, u, 0, 0) == u.(calls := u.calls + 1)
  {
    assert CostOf(l, 0, 0) == 0.0;
  }

  lemma {:induction false} OneByOneRun(l: Limits, n: nat, k: nat, c: nat)
    requires l.maxCost >= 0.0 && (l.maxCalls > 0 ==> n <= l.maxCalls) && k > 0
    ensures MeterRun(l, Meter(NO_USAGE, 0), OneByOne(n)) == Meter(Usage(n, 0, 0, 0.0), 0)
    ensures Bounded(l, Meter(NO_USAGE, 0), OneByOne(n), k, c)
  {
    if n > 0 {
      var m := Meter(Usage(n - 1, 0, 0, 0.0), 0);
      OneByOneRun(l, n - 1, k, c);
      FreeCall(l, m.usage);
      OneCall(l, m, 0, k, c);
      MeterRunAppend(l, Meter(NO_USAGE, 0), OneByOne(n - 1), [StartCall] + [Return(0, 0)]);
      BoundedAppend(l, Meter(NO_USAGE, 0), OneByOne(n - 1), [StartCall] + [Return(0, 0)], k, c);
    }
  }

  /** The call bound is reached by a run that keeps at most k calls in flight, whatever the other limits:
      max_calls - 1 calls one by one, then k at once. */
  lemma CallBoundIsReached(l: Limits, k: nat, c: nat)
    requires l.maxCalls > 0 && l.maxCost >= 0.0 && k > 0
    ensures var moves := OneByOne(l.maxCalls - 1) + (Starts(k) + Returns(k, 0));
            && Bounded(l, Meter(NO_USAGE, 0), moves, k, c)
            && MeterRun(l, Meter(NO_USAGE, 0), moves).usage.calls == l.maxCalls - 1 + k
  {
    var m := MeterRun(l, Meter(NO_USAGE, 0), OneByOne(l.maxCalls - 1));
    OneByOneRun(l, l.maxCalls - 1, k, c);
    TogetherCounted(l, m, k, 0);
    MeterRunAppend(l, Meter(NO_USAGE, 0), OneByOne(l.maxCalls - 1), Starts(k) + Returns(k, 0));
    BoundedAppend(l, Meter(NO_USAGE, 0), OneByOne(l.maxCalls - 1), Starts(k) + Returns(k, 0), k, c);
  }

  /** As few calls as possible, one after the other, that use t tokens, each at most c. */
  function Fill(t: nat, c: nat): seq<Move>
    requires c > 0
  {
    if t == 0 then []
    else if t <= c then [StartCall] + [Return(t, 0)]
    else Fill(t - c, c) + ([StartCall] + [Return(c, 0)])
  }

  function FillCalls(t: nat, c: nat): nat
    requires c > 0
  {
    if t == 0 then 0 else if t <= c then 1 else FillCalls(t - c, c) + 1
  }

  lemma {:induction false} FewCalls(t: nat, c: nat, n: nat)
    requires c > 0 && t <= Times(n, c)
    ensures FillCalls(t, c) <= n
  {
    if n > 0 && t > c {
      FewCalls(t - c, c, n - 1);
    }
  }

  /** The usage after these calls. */
  function Filled(l: Limits, t: nat, c: nat): Usage
    requires c > 0
  {
    Usage(FillCalls(t, c), t, 0, CostOf(l, t, 0))
  }

  lemma {:induction false} FillRun(l: Limits, t: nat, c: nat, k: nat)
    requires c > 0 && k > 0 && forall t' | 0 <= t' < t :: WithinLimits(l, Filled(l, t', c))
    ensures MeterRun(l, Meter(NO_USAGE, 0), Fill(t, c)) == Meter(Filled(l, t, c), 0)
    ensures Bounded(l, Meter(NO_USAGE, 0), Fill(t, c), k, c)
  {
    if t == 0 {
    } else if t <= c {
      assert Filled(l, 0, c) == NO_USAGE;
      OneCall(l, Meter(NO_USAGE, 0), t, k, c);
    } else {
      FillRun(l, t - c, c, k);
      var m := Meter(Filled(l, t - c, c), 0);
      OneCall(l, m, c, k, c);
      CostAdds(l, t - c, 0, c, 0);
      MeterRunAppend(l, Meter(NO_USAGE, 0), Fill(t - c, c), [StartCall] + [Return(c, 0)]);
      BoundedAppend(l, Meter(NO_USAGE, 0), Fill(t - c, c), [StartCall] + [Return(c, 0)], k, c);
    }
  }

  /** The cost limit leaves room for another call after t tokens or fewer. */
  ghost predicate CostLeavesRoom(l: Limits, t: nat) {
    l.maxCost == 0.0 || forall t' | 0 <= t' <= t :: CostOf(l, t', 0) < l.maxCost
  }

  lemma FilledWithinLimits(l: Limits, t: nat, c: nat)
    requires (l.maxTokens > 0 || l.maxCalls > 0) && c > 0 && t <= TokensBefore(l, c)
    requires CostLeavesRoom(l, TokensBefore(l, c))
    ensures WithinLimits(l, Filled(l, t, c))
  {
    if l.maxCalls > 0 {
      FewCalls(t, c, l.maxCalls - 1);
    }
  }

  /** The most tokens of one segment. */
  function MostTokens(l: Limits, k: nat, c: nat): nat
    requires l.maxTokens > 0 || l.maxCalls > 0
  {
    TokensBefore(l, c) + Times(k, c)
  }

  /** The token bound is reached too, by a run that keeps at most k calls in flight, each of at most c
      tokens: as many tokens one by one as leave room for another call, then k calls of c at once. */
  lemma TokenBoundIsReached(l: Limits, k: nat, c: nat)
    requires (l.maxTokens > 0 || l.maxCalls > 0) && c > 0 && k > 0 && CostLeavesRoom(l, TokensBefore(l, c))
    ensures var moves := Fill(TokensBefore(l, c), c) + (Starts(k) + Returns(k, c));
            && Bounded(l, Meter(NO_USAGE, 0), moves, k, c)
            && Tokens(MeterRun(l, Meter(NO_USAGE, 0), moves).usage) == MostTokens(l, k, c)
  {
    var t := TokensBefore(l, c);
    forall t' | 0 <= t' <= t ensures WithinLimits(l, Filled(l, t', c)) {
      FilledWithinLimits(l, t', c);
    }
    FillRun(l, t, c, k);
    TogetherCounted(l, Meter(Filled(l, t, c), 0), k, c);
    MeterRunAppend(l, Meter(NO_USAGE, 0), Fill(t, c), Starts(k) + Returns(k, c));
    BoundedAppend(l, Meter(NO_USAGE, 0), Fill(t, c), Starts(k) + Returns(k, c), k, c);
  }

  // ---- a task of several segments: each opens a budget of its own ----

  /** What one segment uses. */
  function CallsIn(l: Limits): seq<Move> -> nat {
    (moves: seq<Move>) => MeterRun(l, Meter(NO_USAGE, 0), moves).usage.calls
  }

  function TokensIn(l: Limits): seq<Move> -> nat {
    (moves: seq<Move>) => Tokens(MeterRun(l, Meter(NO_USAGE, 0), moves).usage)
  }

  function Total(use: seq<Move> -> nat, segments: seq<seq<Move>>): int {
    if segments == [] then 0 else Total(use, segments[..|segments| - 1]) + use(segments[|segments| - 1])
  }

  ghost predicate AllBounded(l: Limits, segments: seq<seq<Move>>, k: nat, c: nat) {
    forall moves | moves in segments :: Bounded(l, Meter(NO_USAGE, 0), moves, k, c)
  }

  lemma {:induction false} TotalAtMost(use: seq<Move> -> nat, segments: seq<seq<Move>>, bound: nat)
    requires forall i | 0 <= i < |segments| :: use(segments[i]) <= bound
    ensures Total(use, segments) <= Times(|segments|, bound)
  {
    if segments != [] {
      var init := segments[..|segments| - 1];
      assert forall i | 0 <= i < |init| :: init[i] == segments[i];
      TotalAtMost(use, init, bound);
    }
  }

  lemma {:induction false} TotalOfSame(use: seq<Move> -> nat, moves: seq<Move>, n: nat)
    ensures Total(use, seq(n, _ => moves)) == Times(n, use(moves))
  {
    if n > 0 {
      var all := seq(n, _ => moves);
      assert all[..n - 1] == seq(n - 1, _ => moves);
      TotalOfSame(use, moves, n - 1);
    }
  }

  /** The limits hold per segment: a task resumed or restarted n - 1 times makes at most n times as many
      calls as one segment. */
  lemma SegmentsOvershoot(l: Limits, segments: seq<seq<Move>>, k: nat, c: nat, most: nat)
    requires k > 0 && l.maxCalls > 0 && most == l.maxCalls - 1 + k && AllBounded(l, segments, k, c)
    ensures Total(CallsIn(l), segments) <= Times(|segments|, most)
  {
    forall i | 0 <= i < |segments| ensures CallsIn(l)(segments[i]) <= most {
      assert segments[i] in segments;
      CallOvershoot(l, segments[i], k, c);
    }
    TotalAtMost(CallsIn(l), segments, most);
  }

  /** ... and uses at most n times as many tokens. */
  lemma SegmentsTokenOvershoot(l: Limits, segments: seq<seq<Move>>, k: nat, c: nat, most: nat)
    requires k > 0 && (l.maxTokens > 0 || l.maxCalls > 0) && most == MostTokens(l, k, c) && AllBounded(l, segments, k, c)
    ensures Total(TokensIn(l), segments) <= Times(|segments|, most)
  {
    forall i | 0 <= i < |segments| ensures TokensIn(l)(segments[i]) <= most {
      assert segments[i] in segments;
      TokenOvershoot(l, segments[i], k, c);
      TimesGrows(0, MeterRun(l, Meter(NO_USAGE, 0), segments[i]).inFlight, c);
    }
    TotalAtMost(TokensIn(l), segments, most);
  }

  /** Segments all alike show a bound that is reached by one of them. */
  lemma AlikeSegments(l: Limits, use: seq<Move> -> nat, moves: seq<Move>, n: nat, k: nat, c: nat, most: nat)
    returns (segments: seq<seq<Move>>)
    requires Bounded(l, Meter(NO_USAGE, 0), moves, k, c) && use(moves) == most
    ensures |segments| == n && AllBounded(l, segments, k, c) && Total(use, segments) == Times(n, most)
  {
    segments := seq(n, _ => moves);
    TotalOfSame(use, moves, n);
  }

  /** The limit that the code does not have: all runs of a task of n segments, with at most k calls in
      flight, stay within max_calls if and only if n times the most calls of one segment does. */
  lemma TaskKeepsCallLimitIff(l: Limits, n: nat, k: nat, c: nat, most: nat)
    requires l.maxCalls > 0 && l.maxCost >= 0.0 && k > 0 && most == l.maxCalls - 1 + k
    ensures (forall segments | |segments| == n && AllBounded(l, segments, k, c) :: Total(CallsIn(l), segments) <= l.maxCalls)
            <==> Times(n, most) <= l.maxCalls
  {
    CallBoundIsReached(l, k, c);
    var worst := AlikeSegments(l, CallsIn(l), OneByOne(l.maxCalls - 1) + (Starts(k) + Returns(k, 0)), n, k, c, most);
    forall segments | |segments| == n && AllBounded(l, segments, k, c) ensures Total(CallsIn(l), segments) <= Times(n, most) {
      SegmentsOvershoot(l, segments, k, c, most);
    }
  }

  /** ... and within max_tokens, with at most c tokens a call, if and only if n times the most tokens of
      one segment does. */
  lemma TaskKeepsTokenLimitIff(l: Limits, n: nat, k: nat, c: nat, most: nat)
    requires l.maxTokens > 0 && c > 0 && k > 0 && CostLeavesRoom(l, TokensBefore(l, c)) && most == MostTokens(l, k, c)
    ensures (forall segments | |segments| == n && AllBounded(l, segments, k, c) :: Total(TokensIn(l), segments) <= l.maxTokens)
            <==> Times(n, most) <= l.maxTokens
  {
    TokenBoundIsReached(l, k, c);
    var worst := AlikeSegments(l, TokensIn(l), Fill(TokensBefore(l, c), c) + (Starts(k) + Returns(k, c)), n, k, c, most);
    forall segments | |segments| == n && AllBounded(l, segments, k, c) ensures Total(TokensIn(l), segments) <= Times(n, most) {
      SegmentsTokenOvershoot(l, segments, k, c, most);
    }
  }
}
