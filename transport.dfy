/** What an HTTP GET can come back with, and the success counter shared by the
    three HTTP probes (sup.go's `checkEndpointHttps` and the `checkLink` of
    httpPing.go and of ping.go). The network is not modelled: a `Get` says what
    attempt `i` of a probe loop over a URL returned. */
module Transport {

  /** One attempt: `http.Get` returned an error, or a response with a status. */
  datatype Outcome = TransportError(cause: string) | Response(status: int)

  const StatusOK := 200
  const StatusForbidden := 403

  /** `get(url, i)` is the outcome of attempt `i` (counting from 0) of a probe
      loop that GETs `url`; every probe of the same URL sees the same outcomes. */
  type Get = (string, nat) -> Outcome

  /** Which statuses an attempt may come back with and still count:
      200 or 403 (sup.go, httpPing.go), or 200 alone (ping.go). */
  datatype Acceptance = OkOrForbidden | OkOnly

  predicate Succeeded(o: Outcome, acceptance: Acceptance) {
    o.Response? &&
    (o.status == StatusOK || (acceptance == OkOrForbidden && o.status == StatusForbidden))
  }

  /** How often a `for i := 0; i < tries; i++` loop runs. */
  function AttemptCount(tries: int): (n: nat)
    ensures tries <= 0 ==> n == 0
    ensures tries > 0 ==> n == tries
  {
    if tries > 0 then tries else 0
  }

  /** The number of successful attempts among the first `n` GETs of `url`. */
  function SuccessCount(get: Get, url: string, n: nat, acceptance: Acceptance): (k: nat)
    ensures k <= n
  {
    if n == 0 then 0
    else SuccessCount(get, url, n - 1, acceptance) + (if Succeeded(get(url, n - 1), acceptance) then 1 else 0)
  }

  /** The counter reaches `n` exactly when every one of the `n` attempts succeeded. */
  lemma {:induction false} AllSucceeded(get: Get, url: string, n: nat, acceptance: Acceptance)
    ensures SuccessCount(get, url, n, acceptance) == n <==>
            forall i :: 0 <= i < n ==> Succeeded(get(url, i), acceptance)
  {
    if n > 0 {
      AllSucceeded(get, url, n - 1, acceptance);
    }
  }

  /** The counter stays at 0 exactly when none of the `n` attempts succeeded. */
  lemma {:induction false} NoneSucceeded(get: Get, url: string, n: nat, acceptance: Acceptance)
    ensures SuccessCount(get, url, n, acceptance) == 0 <==>
            forall i :: 0 <= i < n ==> !Succeeded(get(url, i), acceptance)
  {
    if n > 0 {
      NoneSucceeded(get, url, n - 1, acceptance);
    }
  }

  /** Accepting 403 as well as 200 never lowers the count; the two counters
      agree unless some attempt came back 403, and then the stricter one is lower. */
  lemma {:induction false} ForbiddenMakesTheDifference(get: Get, url: string, n: nat)
    ensures SuccessCount(get, url, n, OkOnly) <= SuccessCount(get, url, n, OkOrForbidden)
    ensures (forall i :: 0 <= i < n ==> get(url, i) != Response(StatusForbidden)) ==>
              SuccessCount(get, url, n, OkOnly) == SuccessCount(get, url, n, OkOrForbidden)
    ensures (exists i :: 0 <= i < n && get(url, i) == Response(StatusForbidden)) ==>
              SuccessCount(get, url, n, OkOnly) < SuccessCount(get, url, n, OkOrForbidden)
  {
    if n > 0 {
      ForbiddenMakesTheDifference(get, url, n - 1);
      if get(url, n - 1) != Response(StatusForbidden) {
        if exists i :: 0 <= i < n && get(url, i) == Response(StatusForbidden) {
          var i :| 0 <= i < n && get(url, i) == Response(StatusForbidden);
          assert i < n - 1;
        }
      }
    }
  }
}
