# whatsup: a verified model of the endpoint check-and-summarize core

whatsup checks whether a list of endpoints is up and posts a summary card to a
Microsoft Teams webhook. Each endpoint is probed in one of two ways. The native
probe runs the platform's `ping` and looks for the line that says every packet
came back. The HTTPS probe sends `tries` GET requests and counts the ones that
succeed. One goroutine checks each endpoint. The results are collected and the
down ones are filtered out. They are then reduced to a `CheckSummary`
(`AllUp`, `Msg`), and the summary picks the colour, the title and the webhook
of the card.

This project models that logic in Dafny, with every piece of I/O turned into an
input:

- `Transport.Get`: `get(url, i)` is the outcome of attempt `i` (counting from
  0) of a probe loop that GETs `url`. That is either a transport error or a
  status code. Every probe of the same URL sees the same outcomes.
- `Probe.Run`: `run(argv)` is what `exec.Command(argv...).Output()` returned.
  That is either an error or the standard output. The error covers a command
  that could not start and one that exited with a non-zero status.
- The platform (`runtime.GOOS` in the source) is a parameter.
- The goroutines of `checkEndpoints` finish in an order the program does not
  control. That order is an input: a permutation of the endpoint positions.

Modules follow the source:

- `Text`: Go's `%d` (`IntToString`, with a parser it round-trips with) and
  `strings.Contains` (`Contains`, with an index-based reference definition
  `Occurs`).
- `Transport`: attempt outcomes and the success counter shared by the three
  HTTP probes.
- `HttpPingProbe`: `httpPing.go`.
- `PingProbe`: `ping.go`. Both files declare `checkLink` in one package, so
  they are separate modules here.
- `Probe`, `Dispatch`, `Summary`, `Notify`, `Whatsup`: `sup.go`, split by
  component. These cover the platform check and the two probes, the
  dispatcher, filtering and summarizing, the card, and `Sup`.
- `Scenarios`: worked examples with exact texts.

Notes on the code's behaviour:

- The all-up message is `"All N endpoints are up, and were checked using M."`.
- The label M is inverted in the code (sup.go:182-186). The HTTPS probe
  reports `"ping"` and the native probe reports `"HTTPS GET"`. `Summary.CheckMethod`
  keeps that inversion.
- A try count is any Go `int`. Zero tries is up for the HTTPS probes. A
  negative count is down, because the counter (0) never equals it.
- The native probe's marker for any platform other than Windows or macOS is
  the Linux one. `Sup` only reaches the probe on the three tested platforms.
- `checkEndpoints` promises one result per endpoint, in no particular order.
  `Dispatch.CheckEndpoints` states that the results are the per-endpoint
  results picked along the completion order, so their multiset equals the
  multiset of per-endpoint results. The verdict, the down count and the all-up
  message do not depend on that order (`Summary.SummaryOrderIndependent`).
  Only the order of the down lines does.

## Model

| member | source | states |
|---|---|---|
| `Text.IntToStringRoundTrip` | sup.go:66-68 | the decimal text Go's `%d` prints for any int reads back as that int, so no information is lost in markers and messages |
| `Text.IntToStringInjective` | sup.go:66-68 | two try counts print the same only if they are equal, so each count has its own marker |
| `Text.ContainsIffOccurs` | sup.go:79 | the prefix-scanning `Contains` is true exactly when the substring occurs at some index, the meaning of `strings.Contains` |
| `Transport.SuccessCount` | sup.go:90-110 | the success counter after n attempts never exceeds n |
| `Transport.AllSucceeded` | httpPing.go:38 | the counter equals n exactly when every one of the n attempts succeeded |
| `Transport.NoneSucceeded` | ping.go:45-49 | the counter is 0 exactly when none of the n attempts succeeded |
| `Transport.ForbiddenMakesTheDifference` | httpPing.go:20 | counting 403 as well as 200 never lowers the count; both counts agree when no attempt returned 403, and the 200-only count is strictly lower when one did |
| `HttpPingProbe.CheckLink` | httpPing.go:8-32 | returns the number of the first `max(tries,0)` GETs of `https://url` that had no error and a status of 200 or 403; the result lies in `0..max(tries,0)`, and is 0 when `tries <= 0` |
| `HttpPingProbe.HttpPing` | httpPing.go:34-47 | succeeds iff `tries >= 0` and every attempt returned 200 or 403, with the message naming the endpoint and `tries`; any shortfall, partial or total, gives the one error "endpoint E is down after T attempts" with an empty message; so `tries == 0` succeeds |
| `PingProbe.CheckLink` | ping.go:8-34 | returns the number of the first `max(tries,0)` GETs of `url` that had no error and status exactly 200 (a 403 is a failure); the result lies in `0..max(tries,0)` |
| `PingProbe.Ping` | ping.go:36-50 | probes the fixed `https://example.com` whatever the endpoint; succeeds iff every attempt returned 200; otherwise the "experiencing issues! s successful attempts out of t tries" error when some attempt succeeded, and "this endpoint is down after t attempts" when none did |
| `Probe.CheckOS` | sup.go:39-48 | returns the platform unchanged, with no error exactly for "darwin", "linux" and "windows" and the error "untested OS: X" otherwise |
| `Probe.PingCommand` | sup.go:52-59 | the command run is `ping <endpoint> <flag> <tries>`, with flag `-n` exactly on "windows" and `-c` on every other platform |
| `Probe.CheckEndpointPing` | sup.go:51-86 | up iff the command produced output and that output contains the platform's marker ("T packets transmitted, T received" on Linux and by default, "T packets transmitted, T packets received" on "darwin", "    Packets: Sent = T, Received = T" on "windows"); the error is the command's error, or "E failed to return all packets"; error is nil iff up |
| `Probe.HttpsResultUp` | sup.go:112-118 | the HTTPS verdict is up iff `tries >= 0` and every one of the `tries` GETs returned 200 or 403; the error is nil iff up |
| `Probe.CheckEndpointHttps` | sup.go:89-119 | the counting loop yields exactly the HTTPS verdict: the endpoint itself, up iff all `tries` attempts returned 200 or 403, and otherwise the error "E was not up for all T attempts" |
| `Probe.EndpointResult` | sup.go:122-128 | one result per endpoint: its `Endpoint` is the input endpoint and its error is nil iff it is up |
| `Probe.CheckEndpoint` | sup.go:122-128 | runs the HTTPS probe when `https` is set, and then is up iff all attempts returned 200 or 403; runs the native ping probe otherwise |
| `Dispatch.PickCompletionOrder` | sup.go:143-150 | collecting results along any completion order gives as many results as endpoints and the same multiset of results |
| `Dispatch.CheckEndpoints` | sup.go:131-153 | returns exactly `len(endpoints)` results; their multiset equals the multiset of per-endpoint results, and their order is the completion order |
| `Summary.DownCounts` | sup.go:159-163 | the filtered list holds every down result exactly as often as the input does, and no up result |
| `Summary.DownAppend` | sup.go:159-163 | filtering keeps the original relative order: filtering a concatenation concatenates the filtered parts |
| `Summary.DownEmpty` | sup.go:165-171 | nothing is filtered out exactly when every result is up |
| `Summary.FilterDownEndpoints` | sup.go:156-172 | returns the down results in input order, and an error iff at least one result is down; with none down, an empty list and nil; the error text is "k endpoints are down" |
| `Summary.ReportOfDown` | sup.go:196-198 | the report is built result by result: a down result adds its one "Endpoint: e ... Error: c" line, an up result adds nothing |
| `Summary.SummaryMentionsCount` | sup.go:189-194 | the all-up message contains the total count (so "0" for no endpoints); the down message contains the number down |
| `Summary.SummaryOrderIndependent` | sup.go:176-190 | two collections of the same results give the same verdict, the same number down and, when all are up, the same summary |
| `Summary.SummaryOfCollected` | sup.go:176-200 | for results collected in any order: `AllUp` iff every result is up; the all-up message counts all of them; otherwise the header counts the down results, followed by one line per down result in collected order, and those down results are exactly the original down results |
| `Summary.Summarize` | sup.go:178-200 | builds, line by line, exactly the summary `SummaryOf` describes, with `AllUp` iff no result is down; `SummaryOf` gives "All N endpoints are up, and were checked using M." (M is "ping" when `https`, "HTTPS GET" otherwise) or the header "**k endpoints are down!**\n\n\n\n" followed by one "Endpoint: e ... Error: c" line per down result |
| `Summary.CheckAndSummarizeEndpoints` | sup.go:175-201 | `AllUp` iff every endpoint's own check is up, whatever the completion order; the all-up message counts all endpoints; the down header counts the down endpoints, followed by their lines in completion order, exactly the down results |
| `Notify.TeamsNotification` | sup.go:206-237 | the card has exactly the six fields, a `MessageCard` with `summary` equal to `title` and `text` equal to the summary message; when all are up it is colour `#0ac404`, the "Endpoints Up" title and the success URL, otherwise `#e81515`, the "ENDPOINTS DOWN" title and the failure URL; the colour tells the verdict back |
| `Whatsup.Sup` | sup.go:261-278 | fails with "untested OS: X" and checks nothing unless the platform is one of the three; otherwise prints the summary of the collected results and posts exactly the card `TeamsNotification` builds for that summary (colour, title and webhook chosen by the verdict), whose text is the printed summary; the success URL is chosen iff every endpoint is up |
| `Scenarios.PingAllReceived` | sup.go:66-85 | on Linux with three tries, output "3 packets transmitted, 3 received" gives an up result with no error |
| `Scenarios.PingPacketLost` | sup.go:79-82 | on Linux with three tries, output "3 packets transmitted, 2 received" gives a down result with "a.test failed to return all packets" |
| `Scenarios.HttpsOneServerError` | sup.go:92-118 | three GETs with a 500 on the second are down with "a.test was not up for all 3 attempts"; a 403 among 200s is up |
| `Scenarios.OneOfTwoDown` | sup.go:192-200 | with one endpoint up and one down, the message is the header for 1 and one line, for the down endpoint only |
| `Scenarios.NoEndpoints` | sup.go:188-190 | with no results the summary is all up, "All 0 endpoints are up, ..." |
| `Scenarios.TwoEndpointsOneDown` | sup.go:131-200 | the whole check on a.test and b.test over HTTPS with two tries, b.test's second GET answering 500 and b.test finishing first, gives a down summary: the header for 1 and one line for b.test with "b.test was not up for all 2 attempts" |

## Left out

- Network I/O: the `http.Get` calls (sup.go:93, httpPing.go:12, ping.go:12) are inputs (`Transport.Get`). Response bodies are never closed in the source; that leak is not modelled.
- Process execution: `exec.Command(...).Output()` (sup.go:59) is an input (`Probe.Run`). Go's error text for a failed command is an opaque cause string.
- Hanging requests and commands: the default `http.Client` and `exec.Command` have no deadline, so one endpoint that never answers keeps its goroutine alive and `wg.Wait()` (sup.go:143) blocks forever; `checkEndpoints` and `Sup` then never return. `Transport.Get` and `Probe.Run` always return, so the model describes only runs that end, and `Dispatch.CheckEndpoints`' one result per endpoint holds for those runs.
- Duplicate endpoints: `get` and `run` are functions of the URL (and attempt number) and of the command line, so an endpoint listed twice always gets two identical results. In the source its two goroutines make separate GETs or pings, whose outcomes can differ.
- Concurrency: the goroutines, the `sync.WaitGroup` and the buffered channel of `checkEndpoints` (sup.go:132-150). They are replaced by a sequential loop over an input completion order.
- The webhook POST and its status check (sup.go:238-257), and the "error sending message" wrapping in `Sup` (sup.go:271-275). The model stops at the chosen URL and card.
- JSON: `json.Marshal` of the card (sup.go:228-231) and `ParseConfig` (sup.go:281-285). The card is modelled as the map before encoding, and `Config` as already parsed.
- `runtime.GOOS` (sup.go:41): the platform is a parameter.
- The `fmt.Printf` logging in both `checkLink` variants (httpPing.go:15-26, ping.go:15-28). It affects no result.
- `fmt.Println` in `Sup` (sup.go:269): modelled as the printed text `Sup` returns.
- whatsup/main.go (reading config.json, `log.Fatalf`, the final `Printf`) is not part of this model; it is command-line glue.
- Integer width: Go's `int` is 64-bit. The model uses unbounded integers. No arithmetic in the core can wrap: the loop index and the success counter start at 0 and never exceed `tries` (sup.go:92,109; httpPing.go:11,27; ping.go:11,29), so they stay within the range of the configured `int`, and `%d` and `strconv.Itoa` print every 64-bit value exactly, as `IntToString` does.
- Text encoding: strings are sequences of Unicode characters. The byte-level conversion `string(output)` of the command output is not modelled.
