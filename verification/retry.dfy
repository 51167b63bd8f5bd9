/** The bounded retry loop `generateWithRetry` (server.ts:164-179). The generative
    provider is a parameter: `provider(k)` is how the k-th call goes. A call either
    throws (a provider error, or `JSON.parse` rejecting the text), or returns text
    that parses to an object; empty text parses as `{}`. */
module Retry {
  import opened Values

  datatype Attempt = Threw(error: string) | EmptyText | Parsed(data: Object)

  /** The loop's answer: the parsed object, or the last error thrown (`undefined`,
      None, when no call was made). */
  datatype Generation = Generated(data: Object) | Exhausted(lastError: Option<string>)

  /** How many provider calls were made, and what came of them. */
  datatype RetryRun = RetryRun(calls: nat, result: Generation)

  const DefaultRetries: int := 3

  predicate Succeeds(a: Attempt) {
    !a.Threw?
  }

  /** `JSON.parse(response.text || '{}')` for an attempt that did not throw. */
  function DataOf(a: Attempt): Object
    requires Succeeds(a)
  {
    match a
    case EmptyText => map[]
    case Parsed(d) => d
  }

  /** The number of iterations `for (let i = 0; i < retries; i++)` allows. */
  function Budget(retries: int): nat {
    if retries < 0 then 0 else retries
  }

  function GenerateWithRetry(provider: nat -> Attempt, retries: int): (r: RetryRun)
    ensures r.calls <= Budget(retries)
    ensures r.result.Generated? ==>
      && 0 < r.calls
      && Succeeds(provider(r.calls - 1))
      && r.result.data == DataOf(provider(r.calls - 1))
      && forall k :: 0 <= k < r.calls - 1 ==> !Succeeds(provider(k))
    ensures r.result.Exhausted? ==>
      && r.calls == Budget(retries)
      && (forall k :: 0 <= k < Budget(retries) ==> !Succeeds(provider(k)))
      && r.result.lastError == (if Budget(retries) == 0 then None else Some(provider(Budget(retries) - 1).error))
  {
    Attempts(provider, Budget(retries), 0, None)
  }

  /** Iterations `i` .. `n - 1` of the loop, with `lastError` caught so far. */
  function Attempts(provider: nat -> Attempt, n: nat, i: nat, lastError: Option<string>): (r: RetryRun)
    requires i <= n
    ensures i <= r.calls <= n
    ensures r.result.Generated? ==>
      && i < r.calls
      && Succeeds(provider(r.calls - 1))
      && r.result.data == DataOf(provider(r.calls - 1))
      && forall k :: i <= k < r.calls - 1 ==> !Succeeds(provider(k))
    ensures r.result.Exhausted? ==>
      && r.calls == n
      && (forall k :: i <= k < n ==> !Succeeds(provider(k)))
      && r.result.lastError == (if n == i then lastError else Some(provider(n - 1).error))
    decreases n - i
  {
    if i == n then RetryRun(n, Exhausted(lastError))
    else
      match provider(i)
      case Threw(e) => Attempts(provider, n, i + 1, Some(e))
      case EmptyText => RetryRun(i + 1, Generated(map[]))
      case Parsed(d) => RetryRun(i + 1, Generated(d))
  }

  /** When any call within the budget would succeed, the loop succeeds, and it returns
      the result of the first successful call. */
  lemma FirstSuccessWins(provider: nat -> Attempt, retries: int, k: nat)
    requires k < Budget(retries) && Succeeds(provider(k))
    requires forall j :: 0 <= j < k ==> !Succeeds(provider(j))
    ensures GenerateWithRetry(provider, retries) == RetryRun(k + 1, Generated(DataOf(provider(k))))
  {
  }

  /** With the default budget of three, three throwing calls exhaust the loop, which
      rethrows the third error; a fourth call is never made. */
  lemma ThreeFailuresExhaust(provider: nat -> Attempt)
    requires provider(0).Threw? && provider(1).Threw? && provider(2).Threw?
    ensures GenerateWithRetry(provider, DefaultRetries) == RetryRun(3, Exhausted(Some(provider(2).error)))
  {
  }
}
