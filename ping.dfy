/** ping.go: the older HTTP probe. It counts only status 200, always fetches
    the same fixed URL whatever endpoint it is given, and tells a degraded
    endpoint (some attempts succeeded) from a down one (none did). */
module PingProbe {
  import opened Options
  import opened Text
  import opened Transport

  /** The URL `ping` fetches, whatever the endpoint. */
  const ProbeUrl := "https://example.com"

  /** `checkLink`: GETs `url` `tries` times and counts the attempts that
      returned no error and a status of exactly 200; a 403 is a failure. */
  method CheckLink(url: string, tries: int, get: Get) returns (successfulAttempts: int)
    ensures successfulAttempts == SuccessCount(get, url, AttemptCount(tries), OkOnly)
    ensures 0 <= successfulAttempts <= AttemptCount(tries)
    ensures tries <= 0 ==> successfulAttempts == 0
  {
    successfulAttempts := 0;
    var i := 0;
    while i < tries
      invariant 0 <= i <= AttemptCount(tries)
      invariant successfulAttempts == SuccessCount(get, url, i, OkOnly)
    {
      var resp := get(url, i);
      if resp.TransportError? {
        // the request failed: this attempt does not count
      } else if resp.status != StatusOK {
        // any status but 200, 403 included: this attempt does not count
      } else {
        successfulAttempts := successfulAttempts + 1;
      }
      i := i + 1;
    }
  }

  /** `ping`: three verdicts. Up when all `tries` attempts on `ProbeUrl`
      returned 200; "experiencing issues" when some but not all did; "down"
      when none did. The endpoint only appears in the success message. */
  method Ping(endpoint: string, tries: int, get: Get) returns (msg: string, err: Option<string>)
    ensures err.None? <==>
            tries >= 0 && forall i :: 0 <= i < tries ==> get(ProbeUrl, i) == Response(StatusOK)
    ensures err.None? ==>
            msg == endpoint + " is up! " + IntToString(tries) + " packets transmitted and received"
    ensures err.Some? ==> msg == ""
    ensures err.Some? && (exists i :: 0 <= i < tries && get(ProbeUrl, i) == Response(StatusOK)) ==>
            err.value == "the endpoint is experiencing issues! " +
                         IntToString(SuccessCount(get, ProbeUrl, AttemptCount(tries), OkOnly)) +
                         " successful attempts out of " + IntToString(tries) + " tries"
    ensures err.Some? && (forall i :: 0 <= i < tries ==> get(ProbeUrl, i) != Response(StatusOK)) ==>
            err.value == "this endpoint is down after " + IntToString(tries) + " attempts"
  {
    var url := ProbeUrl;
    var successfulAttempts := CheckLink(url, tries, get);
    AllSucceeded(get, url, AttemptCount(tries), OkOnly);
    NoneSucceeded(get, url, AttemptCount(tries), OkOnly);
    if successfulAttempts == tries {
      return endpoint + " is up! " + IntToString(tries) + " packets transmitted and received", None;
    }
    if successfulAttempts > 0 {
      return "", Some("the endpoint is experiencing issues! " + IntToString(successfulAttempts) +
                      " successful attempts out of " + IntToString(tries) + " tries");
    } else {
      return "", Some("this endpoint is down after " + IntToString(tries) + " attempts");
    }
  }
}
