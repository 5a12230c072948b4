/** httpPing.go: an HTTPS probe that counts 200 and 403 as success and calls
    the endpoint down on any shortfall, partial or total. */
module HttpPingProbe {
  import opened Options
  import opened Text
  import opened Transport

  /** `checkLink`: GETs `https://url` `tries` times and counts the attempts that
      returned no error and a status of 200 or 403. */
  method CheckLink(url: string, tries: int, get: Get) returns (successfulAttempts: int)
    ensures successfulAttempts == SuccessCount(get, "https://" + url, AttemptCount(tries), OkOrForbidden)
    ensures 0 <= successfulAttempts <= AttemptCount(tries)
    ensures tries <= 0 ==> successfulAttempts == 0
  {
    successfulAttempts := 0;
    var i := 0;
    while i < tries
      invariant 0 <= i <= AttemptCount(tries)
      invariant successfulAttempts == SuccessCount(get, "https://" + url, i, OkOrForbidden)
    {
      var resp := get("https://" + url, i);
      if resp.TransportError? {
        // the request failed: this attempt does not count
      } else if resp.status != StatusOK && resp.status != StatusForbidden {
        // any other status: this attempt does not count
      } else {
        successfulAttempts := successfulAttempts + 1;
      }
      i := i + 1;
    }
  }

  /** `httpPing`: up exactly when all `tries` attempts succeeded; any shortfall
      gives the same "down" error, with an empty message beside it. */
  method HttpPing(endpoint: string, tries: int, get: Get) returns (msg: string, err: Option<string>)
    ensures err.None? <==>
            tries >= 0 && forall i :: 0 <= i < tries ==> Succeeded(get("https://" + endpoint, i), OkOrForbidden)
    ensures err.None? ==>
            msg == endpoint + " is up! " + IntToString(tries) + " packets transmitted and received"
    ensures err.Some? ==>
            msg == "" && err.value == "endpoint " + endpoint + " is down after " + IntToString(tries) + " attempts"
  {
    var successfulAttempts := CheckLink(endpoint, tries, get);
    AllSucceeded(get, "https://" + endpoint, AttemptCount(tries), OkOrForbidden);
    if successfulAttempts == tries {
      return endpoint + " is up! " + IntToString(tries) + " packets transmitted and received", None;
    }
    return "", Some("endpoint " + endpoint + " is down after " + IntToString(tries) + " attempts");
  }
}
