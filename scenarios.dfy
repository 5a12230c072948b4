/** Worked cases: concrete inputs with the exact results and texts the model
    gives for them. Texts are written in the pieces the source's format
    strings produce. */
module Scenarios {
  import opened Options
  import opened Text
  import opened Transport
  import opened Probe
  import opened Dispatch
  import opened Summary

  lemma LinuxMarkerForThree()
    ensures SuccessMarker("linux", 3) == "3" + " packets transmitted, " + "3" + " received"
  {
  }

  /** On Linux, three tries whose output reports three of three packets back
      are up. */
  lemma PingAllReceived(run: Run)
    requires run(PingCommand("a.test", 3, "linux")) ==
             CommandOutput("3" + " packets transmitted, " + "3" + " received")
    ensures CheckEndpointPing("a.test", 3, "linux", run) == CheckResult("a.test", None, true)
  {
  }

  /** On Linux, output reporting two of three packets back is down. */
  lemma PingPacketLost(run: Run)
    requires run(PingCommand("a.test", 3, "linux")) ==
             CommandOutput("3" + " packets transmitted, " + "2" + " received")
    ensures CheckEndpointPing("a.test", 3, "linux", run) ==
            CheckResult("a.test", Some("a.test" + " failed to return all packets"), false)
  {
    var out := run(PingCommand("a.test", 3, "linux")).stdout;
    var marker := SuccessMarker("linux", 3);
    LinuxMarkerForThree();
    assert |out| == |marker|;
    assert !OccursAt(out, marker, 0) by {
      assert out[0..|marker|][23] != marker[23];
    }
  }

  /** Three GETs with a 500 on the second: down, with the attempt count in the
      error. A 403 among 200s still counts as up. */
  lemma HttpsOneServerError(get: Get, get': Get)
    requires forall i :: get("https://a.test", i) == if i == 1 then Response(500) else Response(StatusOK)
    requires forall i :: get'("https://a.test", i) == if i == 0 then Response(StatusForbidden) else Response(StatusOK)
    ensures HttpsResult("a.test", 3, get) ==
            CheckResult("a.test", Some("a.test" + " was not up for all " + "3" + " attempts"), false)
    ensures HttpsResult("a.test", 3, get') == CheckResult("a.test", None, true)
  {
    assert IntToString(3) == "3";
    assert "https://" + "a.test" == "https://a.test";
    HttpsResultUp("a.test", 3, get);
    assert !Succeeded(get("https://a.test", 1), OkOrForbidden);
    HttpsResultUp("a.test", 3, get');
  }

  lemma DownOfUpThenDown(a: CheckResult, b: CheckResult)
    requires a.up && !b.up
    ensures Down([a, b]) == [b] && Report([b]) == DownLine(b)
  {
    assert [a, b][..1] == [a] && [a][..0] == [] && [b][..0] == [];
    assert Down([a]) == [];
    ConcatSingle(DownLine, b);
  }

  /** Two endpoints, the second down: one line, for the second endpoint only. */
  lemma OneOfTwoDown(https: bool)
    ensures SummaryOf([CheckResult("a.test", None, true), CheckResult("b.test", Some("timeout"), false)], https) ==
            CheckSummary(false, ("**" + "1" + " endpoints are down!**\n\n\n\n") +
                                ("Endpoint: " + "b.test" + " | Error: " + "timeout" + " \n\n"))
  {
    var b := CheckResult("b.test", Some("timeout"), false);
    DownOfUpThenDown(CheckResult("a.test", None, true), b);
    assert IntToString(1) == "1";
  }

  /** No endpoints at all: all up, with a count of zero. */
  lemma NoEndpoints(https: bool)
    ensures SummaryOf([], https) ==
            CheckSummary(true, "All " + "0" + " endpoints are up, and were checked using " + CheckMethod(https) + ".")
  {
  }

  /** A down result followed by an up one: the summary has the header for one
      and the down result's line. */
  lemma SummaryOfDownThenUp(a: CheckResult, b: CheckResult, https: bool)
    requires !a.up && b.up
    ensures SummaryOf([a, b], https) == CheckSummary(false, DownHeader(1) + DownLine(a))
  {
    assert [a, b][..1] == [a] && [a][..0] == [];
    assert Down([a]) == [a];
    assert Down([a, b]) == [a];
    ConcatSingle(DownLine, a);
  }

  /** Two GETs of a.test that all return 200 are up; two of b.test with a
      500 on the second are down. */
  lemma TwoHttpsResults(get: Get)
    requires forall i :: get("https://a.test", i) == Response(StatusOK)
    requires forall i :: get("https://b.test", i) == if i == 1 then Response(500) else Response(StatusOK)
    ensures HttpsResult("a.test", 2, get) == CheckResult("a.test", None, true)
    ensures HttpsResult("b.test", 2, get) ==
            CheckResult("b.test", Some("b.test" + " was not up for all " + "2" + " attempts"), false)
  {
    assert IntToString(2) == "2";
    assert "https://" + "a.test" == "https://a.test" && "https://" + "b.test" == "https://b.test";
    HttpsResultUp("a.test", 2, get);
    HttpsResultUp("b.test", 2, get);
    assert !Succeeded(get("https://b.test", 1), OkOrForbidden);
  }

  /** The texts of the two-endpoint run below, written out. */
  lemma TwoEndpointsSummary(get: Get, run: Run)
    requires forall i :: get("https://a.test", i) == Response(StatusOK)
    requires forall i :: get("https://b.test", i) == if i == 1 then Response(500) else Response(StatusOK)
    ensures InRange([1, 0], 2)
    ensures SummaryOf(Pick(ExpectedResults(["a.test", "b.test"], "linux", 2, true, get, run), [1, 0]), true) ==
            CheckSummary(false, ("**" + "1" + " endpoints are down!**\n\n\n\n") +
                                ("Endpoint: " + "b.test" + " | Error: " +
                                 ("b.test" + " was not up for all " + "2" + " attempts") + " \n\n"))
  {
    var expected := ExpectedResults(["a.test", "b.test"], "linux", 2, true, get, run);
    TwoHttpsResults(get);
    var ra, rb := expected[0], expected[1];
    assert ra == HttpsResult("a.test", 2, get) && rb == HttpsResult("b.test", 2, get);
    assert Pick(expected, [1, 0]) == [rb, ra] by {
      assert [1, 0][..1] == [1] && [1][..0] == [];
    }
    SummaryOfDownThenUp(rb, ra, true);
    assert IntToString(1) == "1";
  }

  /** The whole check on two endpoints over HTTPS with two tries each: b.test
      answers 500 to its second GET, and its goroutine finishes first. The
      summary is down, with one line for b.test carrying its probe error. */
  method TwoEndpointsOneDown(get: Get, run: Run) returns (summary: CheckSummary)
    requires forall i :: get("https://a.test", i) == Response(StatusOK)
    requires forall i :: get("https://b.test", i) == if i == 1 then Response(500) else Response(StatusOK)
    ensures summary ==
            CheckSummary(false, ("**" + "1" + " endpoints are down!**\n\n\n\n") +
                                ("Endpoint: " + "b.test" + " | Error: " +
                                 ("b.test" + " was not up for all " + "2" + " attempts") + " \n\n"))
  {
    assert Indices(2) == [0, 1];
    summary := CheckAndSummarizeEndpoints(["a.test", "b.test"], "linux", 2, true, get, run, [1, 0]);
    TwoEndpointsSummary(get, run);
  }
}
