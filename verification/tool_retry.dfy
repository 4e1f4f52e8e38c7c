/** The bounded retry loops around one tool call. */
module ToolRetry {
  import opened Common

  /** How one execution of a tool ends. */
  datatype Execution = Returns(output: string) | TimesOut | Raises(error: string, retryable: bool)

  /** What one attempt meets: whether the call is found cancelled at its two checks (the second one
      stands between creating the tool's coroutine and starting it), and how the execution ends. */
  datatype Attempt = Attempt(cancelledBefore: bool, cancelledAfter: bool, execution: Execution)

  datatype ToolOutput = Succeeded(data: string) | FailedWith(error: string)

  const CANCELLED := "工具调用已取消"
  const NO_ATTEMPT := "工具执行失败"
  const BACKOFF_MS := 1000

  function Pow2(n: nat): (p: nat)
    ensures p >= 1
  {
    if n == 0 then 1 else 2 * Pow2(n - 1)
  }

  predicate IsCancelled(a: Attempt) {
    a.cancelledBefore || a.cancelledAfter
  }

  /** A further attempt is made only after this. */
  predicate WorthRetrying(a: Attempt, idempotent: bool) {
    !IsCancelled(a) && a.execution.Raises? && a.execution.retryable && idempotent
  }

  /** What the last attempt gives. */
  function Given(a: Attempt, timeoutMessage: string): ToolOutput {
    if IsCancelled(a) then FailedWith(CANCELLED)
    else
      match a.execution
      case Returns(output) => Succeeded(output)
      case TimesOut => FailedWith(timeoutMessage)
      case Raises(error, _) => FailedWith(error)
  }

  /** How often a loop goes round again, from attempt number from on: exactly while an attempt is
      worth retrying and attempts are left. */
  function Retries(worth: nat -> bool, from: nat, maxRetries: nat): (retries: nat)
    requires from <= maxRetries
    ensures from <= retries <= maxRetries
    ensures forall a | from <= a < retries :: worth(a)
    ensures retries == maxRetries || !worth(retries)
    decreases maxRetries - from
  {
    if from == maxRetries || !worth(from) then from else Retries(worth, from + 1, maxRetries)
  }

  /** The tool with its environment: executions and time slept are counted. */
  class ToolRun {
    const attempts: nat -> Attempt
    var executions: nat
    var slept: nat

    constructor (attempts: nat -> Attempt)
      ensures this.attempts == attempts && executions == 0 && slept == 0
    {
      this.attempts, executions, slept := attempts, 0, 0;
    }

    function Worth(idempotent: bool): nat -> bool {
      (a: nat) => WorthRetrying(attempts(a), idempotent)
    }

    function Transient(): nat -> bool {
      (a: nat) => attempts(a).execution.Raises? && attempts(a).execution.retryable
    }

    /** One attempt; the tool is only started when neither check finds the call cancelled. */
    method Try(a: Attempt, timeoutMessage: string) returns (output: ToolOutput)
      modifies this`executions
      ensures output == Given(a, timeoutMessage)
      ensures executions == old(executions) + (if IsCancelled(a) then 0 else 1)
    {
      if a.cancelledBefore {
        return FailedWith(CANCELLED);
      }
      if a.cancelledAfter {
        return FailedWith(CANCELLED);
      }
      executions := executions + 1;
      match a.execution {
        case Returns(data) => return Succeeded(data);
        case TimesOut => return FailedWith(timeoutMessage);
        case Raises(error, _) => return FailedWith(error);
      }
    }

    /** The retry loop of the tool executor; milliseconds are slept. The result is that of attempt
        number retries, counted from 0. */
    method ExecuteWithPolicy(maxRetries: int, idempotent: bool, timeoutMessage: string)
      returns (output: ToolOutput, retries: nat)
      modifies this`executions, this`slept
      ensures retries == if maxRetries < 0 then 0 else Retries(Worth(idempotent), 0, maxRetries)
      ensures output == if maxRetries < 0 then FailedWith(NO_ATTEMPT) else Given(attempts(retries), timeoutMessage)
      ensures executions == old(executions) + retries + (if maxRetries < 0 || IsCancelled(attempts(retries)) then 0 else 1)
      ensures slept == old(slept) + BACKOFF_MS * (Pow2(retries) - 1)
    {
      retries, output := 0, FailedWith(NO_ATTEMPT);
      for attempt := 0 to if maxRetries < 0 then 0 else maxRetries + 1
        invariant attempt > 0 ==> maxRetries >= attempt
        invariant attempt == 0 ==> output == FailedWith(NO_ATTEMPT)
        invariant retries == attempt && executions == old(executions) + attempt
        invariant maxRetries >= 0 ==> Retries(Worth(idempotent), attempt, maxRetries) == Retries(Worth(idempotent), 0, maxRetries)
        invariant slept == old(slept) + BACKOFF_MS * (Pow2(attempt) - 1)
      {
        var a := attempts(attempt);
        output := Try(a, timeoutMessage);
        if IsCancelled(a) || !a.execution.Raises? {
          return;
        }
        if !(a.execution.retryable && idempotent) {
          break;
        }
        if attempt >= maxRetries {
          break;
        }
        slept := slept + BACKOFF_MS * Pow2(attempt);
        retries := retries + 1;
      }
    }

    /** The retry loop for unregistered tools: a transient error is retried whether the tool is
        idempotent or not. None stands for the exception raised in the end, which may be a timeout
        (without a text, so never transient). Seconds are slept. */
    method InvokeWithRetry(maxRetries: nat) returns (output: Option<string>, retries: nat)
      modifies this`executions, this`slept
      ensures retries == Retries(Transient(), 0, maxRetries)
      ensures output == if attempts(retries).execution.Returns? then Some(attempts(retries).execution.output) else None
      ensures executions == old(executions) + retries + 1
      ensures slept == old(slept) + Pow2(retries) - 1
    {
      retries := 0;
      for attempt := 0 to maxRetries + 1
        invariant retries == attempt <= maxRetries && executions == old(executions) + attempt
        invariant Retries(Transient(), attempt, maxRetries) == Retries(Transient(), 0, maxRetries)
        invariant slept == old(slept) + Pow2(attempt) - 1
      {
        executions := executions + 1;
        match attempts(attempt).execution {
          case Returns(data) =>
            return Some(data), retries;
          case TimesOut =>
            return None, retries;
          case Raises(_, transient) =>
            if !transient || attempt >= maxRetries {
              return None, retries;
            }
        }
        slept := slept + Pow2(attempt);
        retries := retries + 1;
      }
    }
  }

  // ---- bounds ----

  lemma {:induction false} Pow2Monotone(a: nat, b: nat)
    requires a <= b
    ensures Pow2(a) <= Pow2(b)
  {
    if a < b {
      Pow2Monotone(a, b - 1);
    }
  }

  /** Backoff never exceeds 1000 * (2^max_retries - 1) milliseconds, and a tool that is not
      idempotent is never tried again, so it is executed once unless the call is found cancelled. */
  lemma BackoffBound(tool: ToolRun, idempotent: bool, maxRetries: nat)
    ensures var r := Retries(tool.Worth(idempotent), 0, maxRetries);
            && BACKOFF_MS * (Pow2(r) - 1) <= BACKOFF_MS * (Pow2(maxRetries) - 1)
            && (!idempotent ==> r == 0)
  {
    Pow2Monotone(Retries(tool.Worth(idempotent), 0, maxRetries), maxRetries);
  }

  /** A further attempt was made only after one that was not cancelled and raised a transient error, of a
      tool that is idempotent; and the last one was no such attempt, or the allowance was used up. */
  lemma RetriedOnlyTransient(tool: ToolRun, idempotent: bool, maxRetries: nat)
    ensures var r := Retries(tool.Worth(idempotent), 0, maxRetries);
            && (r > 0 ==> idempotent)
            && (forall a | 0 <= a < r :: Transient(tool.attempts(a)) && !tool.attempts(a).cancelledBefore && !tool.attempts(a).cancelledAfter)
            && (r < maxRetries ==>
                  !idempotent || !Transient(tool.attempts(r)) || tool.attempts(r).cancelledBefore || tool.attempts(r).cancelledAfter)
  {
    var worth := tool.Worth(idempotent);
    var r := Retries(worth, 0, maxRetries);
    forall a | 0 <= a < r
      ensures idempotent && Transient(tool.attempts(a)) && !tool.attempts(a).cancelledBefore && !tool.attempts(a).cancelledAfter
    {
      assert worth(a);
    }
    assert r == maxRetries || !worth(r);
  }

  predicate Transient(a: Attempt) {
    a.execution.Raises? && a.execution.retryable
  }

  /** What an attempt gives: the tool's output, its error, the message of a time-out, or that it was
      cancelled, which comes first. */
  lemma AttemptGives(a: Attempt, timeoutMessage: string)
    ensures var output := Given(a, timeoutMessage);
            && (output.Succeeded? <==> !a.cancelledBefore && !a.cancelledAfter && a.execution.Returns?)
            && (output.Succeeded? ==> output.data == a.execution.output)
            && (a.cancelledBefore || a.cancelledAfter ==> output == FailedWith("工具调用已取消"))
            && (output.FailedWith? && !a.cancelledBefore && !a.cancelledAfter ==>
                  output.error == if a.execution.TimesOut? then timeoutMessage else a.execution.error)
  {
  }

  /** More allowance never changes an outcome that did not need it. */
  lemma {:induction false} MoreRetriesSameOutcome(worth: nat -> bool, from: nat, maxRetries: nat, more: nat)
    requires from <= maxRetries <= more
    requires !worth(Retries(worth, from, maxRetries))
    ensures Retries(worth, from, more) == Retries(worth, from, maxRetries)
    decreases maxRetries - from
  {
    if from < maxRetries && worth(from) {
      MoreRetriesSameOutcome(worth, from + 1, maxRetries, more);
    }
  }
}
