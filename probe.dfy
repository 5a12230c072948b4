/** sup.go, the per-endpoint part: the supported-platform check, the two probe
    strategies (native ping and HTTPS GET) and the checker that picks one and
    produces the endpoint's `CheckResult`. Running `ping` is not modelled: a
    `Run` says what the command with a given argument list produced. */
module Probe {
  import opened Options
  import opened Text
  import opened Transport

  /** `CheckResult`: the endpoint, the error that explains a down verdict
      (`None` for Go's nil) and the verdict. */
  datatype CheckResult = CheckResult(endpoint: string, err: Option<string>, up: bool)

  /** What `exec.Command(...).Output()` gave back: an error (the command could
      not start, or it exited with a non-zero status), or its standard output. */
  datatype CommandResult = CommandError(cause: string) | CommandOutput(stdout: string)

  /** `run(argv)` is what running the command line `argv` produced. */
  type Run = seq<string> -> CommandResult

  /** The platforms the native ping probe knows the output of. */
  const TestedOS: seq<string> := ["darwin", "linux", "windows"]

  /** `checkOS`: hands the platform back, with an error when it is untested. */
  function CheckOS(goos: string): (r: (string, Option<string>))
    ensures r.0 == goos
    ensures r.1.None? <==> goos == "darwin" || goos == "linux" || goos == "windows"
    ensures r.1.Some? ==> r.1.value == "untested OS: " + goos
  {
    if goos in TestedOS then (goos, None) else (goos, Some("untested OS: " + goos))
  }

  /** The command line `checkEndpointPing` runs: `-n` gives the count on
      Windows, `-c` everywhere else. */
  function PingCommand(endpoint: string, tries: int, goos: string): (argv: seq<string>)
    ensures |argv| == 4 && argv[0] == "ping" && argv[1] == endpoint && argv[3] == IntToString(tries)
    ensures argv[2] == "-n" <==> goos == "windows"
    ensures argv[2] == "-c" <==> goos != "windows"
  {
    var triesArg := if goos == "windows" then "-n" else "-c";
    ["ping", endpoint, triesArg, IntToString(tries)]
  }

  function LinuxMarker(tries: int): string {
    IntToString(tries) + " packets transmitted, " + IntToString(tries) + " received"
  }

  function MacMarker(tries: int): string {
    IntToString(tries) + " packets transmitted, " + IntToString(tries) + " packets received"
  }

  function WindowsMarker(tries: int): string {
    "    Packets: Sent = " + IntToString(tries) + ", Received = " + IntToString(tries)
  }

  /** The line ping prints when every packet it sent came back, per platform;
      any platform that is neither Windows nor macOS gets the Linux form. */
  function SuccessMarker(goos: string, tries: int): string {
    if goos == "windows" then WindowsMarker(tries)
    else if goos == "darwin" then MacMarker(tries)
    else LinuxMarker(tries)
  }

  /** `checkEndpointPing`: up exactly when the command ran and its output
      contains the platform's all-packets-received line. */
  function CheckEndpointPing(endpoint: string, tries: int, goos: string, run: Run): (r: CheckResult)
    ensures r.endpoint == endpoint
    ensures r.err.None? <==> r.up
    ensures var out := run(PingCommand(endpoint, tries, goos));
            r.up <==> out.CommandOutput? && Occurs(out.stdout, SuccessMarker(goos, tries))
    ensures var out := run(PingCommand(endpoint, tries, goos));
            out.CommandError? ==> r.err == Some(out.cause)
    ensures var out := run(PingCommand(endpoint, tries, goos));
            out.CommandOutput? && !r.up ==> r.err == Some(endpoint + " failed to return all packets")
  {
    match run(PingCommand(endpoint, tries, goos))
    case CommandError(cause) => CheckResult(endpoint, Some(cause), false)
    case CommandOutput(output) =>
      var successOutput := SuccessMarker(goos, tries);
      ContainsIffOccurs(output, successOutput);
      if !Contains(output, successOutput) then
        CheckResult(endpoint, Some(endpoint + " failed to return all packets"), false)
      else
        CheckResult(endpoint, None, true)
  }

  /** The result `checkEndpointHttps` produces, stated over the success count. */
  function HttpsResult(endpoint: string, tries: int, get: Get): CheckResult {
    if SuccessCount(get, "https://" + endpoint, AttemptCount(tries), OkOrForbidden) == tries then
      CheckResult(endpoint, None, true)
    else
      CheckResult(endpoint, Some(endpoint + " was not up for all " + IntToString(tries) + " attempts"), false)
  }

  /** The HTTPS verdict is up exactly when `tries` is not negative and every
      one of the `tries` GETs returned 200 or 403; so no tries at all is up
      and a negative count is down. */
  lemma HttpsResultUp(endpoint: string, tries: int, get: Get)
    ensures HttpsResult(endpoint, tries, get).up <==>
            tries >= 0 && forall i :: 0 <= i < tries ==> Succeeded(get("https://" + endpoint, i), OkOrForbidden)
    ensures HttpsResult(endpoint, tries, get).err.None? <==> HttpsResult(endpoint, tries, get).up
  {
    AllSucceeded(get, "https://" + endpoint, AttemptCount(tries), OkOrForbidden);
  }

  /** `checkEndpointHttps`: counts the GETs of `https://endpoint` that returned
      200 or 403 and reports the endpoint up only if all `tries` did. */
  method CheckEndpointHttps(endpoint: string, tries: int, get: Get) returns (r: CheckResult)
    ensures r == HttpsResult(endpoint, tries, get)
    ensures r.endpoint == endpoint && (r.err.None? <==> r.up)
    ensures r.up <==>
            tries >= 0 && forall i :: 0 <= i < tries ==> Succeeded(get("https://" + endpoint, i), OkOrForbidden)
  {
    var successfulAttempts := 0;
    var i := 0;
    while i < tries
      invariant 0 <= i <= AttemptCount(tries)
      invariant successfulAttempts == SuccessCount(get, "https://" + endpoint, i, OkOrForbidden)
    {
      var resp := get("https://" + endpoint, i);
      if resp.TransportError? {
        // the request failed: the endpoint is down for this attempt
      } else if resp.status != StatusOK && resp.status != StatusForbidden {
        // a status other than 200 or 403: down for this attempt
      } else {
        successfulAttempts := successfulAttempts + 1;
      }
      i := i + 1;
    }
    HttpsResultUp(endpoint, tries, get);
    if successfulAttempts != tries {
      return CheckResult(endpoint, Some(endpoint + " was not up for all " + IntToString(tries) + " attempts"), false);
    }
    return CheckResult(endpoint, None, true);
  }

  /** The result `checkEndpoint` produces for one endpoint. */
  function EndpointResult(endpoint: string, tries: int, goos: string, https: bool, get: Get, run: Run): (r: CheckResult)
    ensures r.endpoint == endpoint
    ensures r.err.None? <==> r.up
  {
    HttpsResultUp(endpoint, tries, get);
    if https then HttpsResult(endpoint, tries, get) else CheckEndpointPing(endpoint, tries, goos, run)
  }

  /** `checkEndpoint`: runs the HTTPS probe when `https` is set and the native
      ping probe otherwise, and yields exactly one result for the endpoint. */
  method CheckEndpoint(endpoint: string, tries: int, goos: string, https: bool, get: Get, run: Run)
    returns (r: CheckResult)
    ensures r == EndpointResult(endpoint, tries, goos, https, get, run)
    ensures https ==>
            (r.up <==> tries >= 0 && forall i :: 0 <= i < tries ==> Succeeded(get("https://" + endpoint, i), OkOrForbidden))
    ensures !https ==> r == CheckEndpointPing(endpoint, tries, goos, run)
  {
    if https {
      r := CheckEndpointHttps(endpoint, tries, get);
    } else {
      r := CheckEndpointPing(endpoint, tries, goos, run);
    }
  }
}
