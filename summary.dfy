/** sup.go, the reduction: `filterDownEndpoints` keeps the down results, and
    `checkAndSummarizeEndpoints` turns the collected results into one verdict
    and one message. */
module Summary {
  import opened Options
  import opened Text
  import opened Transport
  import opened Probe
  import opened Dispatch

  /** `CheckSummary`: the overall verdict and the report text. */
  datatype CheckSummary = CheckSummary(allUp: bool, msg: string)

  /** The down results, in the order they were collected. */
  function Down(results: seq<CheckResult>): seq<CheckResult> {
    if results == [] then []
    else
      var last := results[|results| - 1];
      Down(results[..|results| - 1]) + (if last.up then [] else [last])
  }

  /** `Down` keeps every down result as often as it occurs and no up result. */
  lemma {:induction false} DownCounts(results: seq<CheckResult>)
    ensures forall x :: multiset(Down(results))[x] == if x.up then 0 else multiset(results)[x]
  {
    if results != [] {
      var init, last := results[..|results| - 1], results[|results| - 1];
      assert results == init + [last];
      DownCounts(init);
    }
  }

  /** `Down` keeps the collected order: filtering a concatenation is
      concatenating the filtered parts. */
  lemma {:induction false} DownAppend(a: seq<CheckResult>, b: seq<CheckResult>)
    ensures Down(a + b) == Down(a) + Down(b)
  {
    if b == [] {
      assert a + b == a;
    } else {
      var init := b[..|b| - 1];
      assert (a + b)[..|a + b| - 1] == a + init;
      DownAppend(a, init);
    }
  }

  /** Nothing is filtered out exactly when every result is up. */
  lemma {:induction false} DownEmpty(results: seq<CheckResult>)
    ensures Down(results) == [] <==> forall i :: 0 <= i < |results| ==> results[i].up
  {
    DownCounts(results);
    if Down(results) == [] {
      forall i | 0 <= i < |results| ensures results[i].up {
        assert results[i] in multiset(results);
        if !results[i].up {
          assert multiset(Down(results))[results[i]] > 0;
        }
      }
    } else {
      var x := Down(results)[0];
      assert multiset(Down(results))[x] > 0;
      assert x in results;
    }
  }

  /** `filterDownEndpoints`: the down results in collected order, and an error
      that counts them when there is at least one. */
  method FilterDownEndpoints(results: seq<CheckResult>) returns (downEndpoints: seq<CheckResult>, err: Option<string>)
    ensures downEndpoints == Down(results)
    ensures err.None? <==> forall i :: 0 <= i < |results| ==> results[i].up
    ensures err.None? ==> downEndpoints == []
    ensures err.Some? ==> err.value == IntToString(|downEndpoints|) + " endpoints are down"
  {
    downEndpoints := [];
    var i := 0;
    while i < |results|
      invariant 0 <= i <= |results|
      invariant downEndpoints == Down(results[..i])
    {
      assert results[..i + 1][..i] == results[..i];
      if !results[i].up {
        downEndpoints := downEndpoints + [results[i]];
      }
      i := i + 1;
    }
    assert results[..i] == results;
    DownEmpty(results);
    var numDown := |downEndpoints|;
    if numDown == 0 {
      return [], None;
    } else {
      return downEndpoints, Some(IntToString(numDown) + " endpoints are down");
    }
  }

  /** The probe name the all-up message reports. As in the source, it is
      "ping" when the HTTPS probe ran and "HTTPS GET" when native ping ran. */
  function CheckMethod(https: bool): string {
    if https then "ping" else "HTTPS GET"
  }

  function AllUpMessage(n: int, https: bool): string {
    "All " + IntToString(n) + " endpoints are up, and were checked using " + CheckMethod(https) + "."
  }

  function DownHeader(k: int): string {
    "**" + IntToString(k) + " endpoints are down!**\n\n\n\n"
  }

  /** Go's `%s` of an error: its text, or `%!s(<nil>)` for a nil error. */
  function ErrorText(err: Option<string>): string {
    match err
    case None => "%!s(<nil>)"
    case Some(e) => e
  }

  function DownLine(r: CheckResult): string {
    "Endpoint: " + r.endpoint + " | Error: " + ErrorText(r.err) + " \n\n"
  }

  /** The lines `line` gives for each element, concatenated in order. */
  function Concat<T>(line: T -> string, xs: seq<T>): string {
    if xs == [] then "" else Concat(line, xs[..|xs| - 1]) + line(xs[|xs| - 1])
  }

  lemma {:induction false} ConcatAppend<T>(line: T -> string, a: seq<T>, b: seq<T>)
    ensures Concat(line, a + b) == Concat(line, a) + Concat(line, b)
  {
    if b == [] {
      assert a + b == a;
    } else {
      var init, last := b[..|b| - 1], b[|b| - 1];
      assert (a + b)[..|a + b| - 1] == a + init;
      ConcatAppend(line, a, init);
    }
  }

  lemma ConcatSingle<T>(line: T -> string, x: T)
    ensures Concat(line, [x]) == line(x)
  {
  }

  /** One line per result, in the order given. */
  function Report(down: seq<CheckResult>): string {
    Concat(DownLine, down)
  }

  /** A report grows by one line per result: after a message that ends in
      the report of the first `i` results, appending the next line gives a
      message ending in the report of the first `i + 1`. */
  lemma ReportSnoc(header: string, down: seq<CheckResult>, i: nat)
    requires i < |down|
    ensures header + Report(down[..i]) + DownLine(down[i]) == header + Report(down[..i + 1])
  {
    assert down[..i + 1][..i] == down[..i];
  }

  /** The report over the down results is built result by result: each down
      result adds its own line and each up result adds nothing. */
  lemma ReportOfDown(a: seq<CheckResult>, b: seq<CheckResult>, r: CheckResult)
    ensures Report(Down(a + b)) == Report(Down(a)) + Report(Down(b))
    ensures Report(Down([r])) == if r.up then "" else DownLine(r)
  {
    DownAppend(a, b);
    ConcatAppend(DownLine, Down(a), Down(b));
    assert [r][..0] == [];
    ConcatSingle(DownLine, r);
  }

  /** The summary the source computes from the collected results. */
  function SummaryOf(results: seq<CheckResult>, https: bool): CheckSummary {
    var down := Down(results);
    if down == [] then CheckSummary(true, AllUpMessage(|results|, https))
    else CheckSummary(false, DownHeader(|down|) + Report(down))
  }

  /** The summary states the count it is about: the number of results when
      all are up (so "0" for no endpoints), the number down otherwise. */
  lemma SummaryMentionsCount(results: seq<CheckResult>, https: bool)
    ensures SummaryOf(results, https).allUp ==> Occurs(SummaryOf(results, https).msg, IntToString(|results|))
    ensures !SummaryOf(results, https).allUp ==>
              Occurs(SummaryOf(results, https).msg, IntToString(|Down(results)|))
  {
    if Down(results) == [] {
      var n := IntToString(|results|);
      OccursAtEnd("All ", n);
      OccursExtend("All " + n, n, " endpoints are up, and were checked using ");
      OccursExtend("All " + n + " endpoints are up, and were checked using ", n, CheckMethod(https));
      OccursExtend("All " + n + " endpoints are up, and were checked using " + CheckMethod(https), n, ".");
    } else {
      var down := Down(results);
      var k := IntToString(|down|);
      OccursAtEnd("**", k);
      OccursExtend("**" + k, k, " endpoints are down!**\n\n\n\n");
      OccursExtend(DownHeader(|down|), k, Report(down));
    }
  }

  /** Two collections of the same results have the same down results, as often
      each, and so the same number of them. */
  lemma DownSameResults(a: seq<CheckResult>, b: seq<CheckResult>)
    requires multiset(a) == multiset(b)
    ensures multiset(Down(a)) == multiset(Down(b))
    ensures |Down(a)| == |Down(b)| && |a| == |b|
  {
    DownCounts(a);
    DownCounts(b);
    assert multiset(Down(a)) == multiset(Down(b));
    assert |Down(a)| == |multiset(Down(a))| == |multiset(Down(b))| == |Down(b)|;
    assert |a| == |multiset(a)| == |multiset(b)| == |b|;
  }

  /** The verdict, the number of results down and the all-up message do not
      depend on the order the results were collected in. */
  lemma SummaryOrderIndependent(a: seq<CheckResult>, b: seq<CheckResult>, https: bool)
    requires multiset(a) == multiset(b)
    ensures SummaryOf(a, https).allUp == SummaryOf(b, https).allUp
    ensures multiset(Down(a)) == multiset(Down(b)) && |Down(a)| == |Down(b)|
    ensures SummaryOf(a, https).allUp ==> SummaryOf(a, https) == SummaryOf(b, https)
  {
    DownSameResults(a, b);
  }

  /** The summary of results collected in any order, stated in terms of the
      results in their original order: all up iff each of them is, the all-up
      message counts all of them, and the down header counts their down ones. */
  lemma SummaryOfCollected(collected: seq<CheckResult>, results: seq<CheckResult>, https: bool)
    requires multiset(collected) == multiset(results)
    ensures SummaryOf(collected, https).allUp <==> forall i :: 0 <= i < |results| ==> results[i].up
    ensures SummaryOf(collected, https).allUp ==> SummaryOf(collected, https).msg == AllUpMessage(|results|, https)
    ensures !SummaryOf(collected, https).allUp ==>
              SummaryOf(collected, https).msg == DownHeader(|Down(results)|) + Report(Down(collected))
    ensures multiset(Down(collected)) == multiset(Down(results))
  {
    DownSameResults(collected, results);
    DownEmpty(results);
    if Down(collected) == [] {
      assert Down(results) == [];
    }
  }

  /** The summary step of `checkAndSummarizeEndpoints`: filter, then write
      either the all-up message or the header and one line per down result. */
  method Summarize(results: seq<CheckResult>, https: bool) returns (summary: CheckSummary)
    ensures summary == SummaryOf(results, https)
    ensures summary.allUp <==> forall i :: 0 <= i < |results| ==> results[i].up
  {
    var downResults, err := FilterDownEndpoints(results);
    if err.None? {
      return CheckSummary(true, AllUpMessage(|results|, https));
    }
    var header := DownHeader(|downResults|);
    var msg := header;
    var i := 0;
    while i < |downResults|
      invariant 0 <= i <= |downResults|
      invariant msg == header + Report(downResults[..i])
    {
      var d := downResults[i];
      ReportSnoc(header, downResults, i);
      msg := msg + DownLine(d);
      i := i + 1;
    }
    assert downResults[..i] == downResults;
    DownEmpty(results);
    return CheckSummary(false, msg);
  }

  /** `checkAndSummarizeEndpoints`: check every endpoint, then summarize. The
      verdict and the all-up message are those of the results in input order;
      only the order of the down lines follows the completion order. */
  method CheckAndSummarizeEndpoints(endpoints: seq<string>, goos: string, tries: int, https: bool,
                                    get: Get, run: Run, order: seq<nat>)
    returns (summary: CheckSummary)
    requires IsCompletionOrder(order, |endpoints|)
    ensures InRange(order, |endpoints|) &&
            summary == SummaryOf(Pick(ExpectedResults(endpoints, goos, tries, https, get, run), order), https)
    ensures summary.allUp <==>
            forall i :: 0 <= i < |endpoints| ==> EndpointResult(endpoints[i], tries, goos, https, get, run).up
    ensures summary.allUp ==> summary.msg == AllUpMessage(|endpoints|, https)
    ensures !summary.allUp ==>
            summary.msg == DownHeader(|Down(ExpectedResults(endpoints, goos, tries, https, get, run))|) +
                           Report(Down(Pick(ExpectedResults(endpoints, goos, tries, https, get, run), order)))
    ensures multiset(Down(Pick(ExpectedResults(endpoints, goos, tries, https, get, run), order))) ==
            multiset(Down(ExpectedResults(endpoints, goos, tries, https, get, run)))
  {
    var results := CheckEndpoints(endpoints, goos, tries, https, get, run, order);
    summary := Summarize(results, https);
    ghost var expected := ExpectedResults(endpoints, goos, tries, https, get, run);
    SummaryOfCollected(results, expected, https);
    assert (forall i :: 0 <= i < |expected| ==> expected[i].up) <==>
           forall i :: 0 <= i < |endpoints| ==> EndpointResult(endpoints[i], tries, goos, https, get, run).up;
  }
}
