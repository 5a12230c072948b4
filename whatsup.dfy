/** sup.go, `Sup`: check the platform, check and summarize every endpoint,
    print the summary and pick the card to post. The printing is the text
    handed back; the POST itself is not modelled. */
module Whatsup {
  import opened Options
  import opened Transport
  import opened Probe
  import opened Dispatch
  import opened Summary
  import opened Notify

  /** `Config`: the two webhooks, the endpoints, the try count and the probe
      selector, as the configuration file gives them. */
  datatype Config = Config(
    teamsWebhookUrlSuccess: string,
    teamsWebhookUrlFailure: string,
    endpoints: seq<string>,
    tries: int,
    https: bool)

  /** `Sup`: on an untested platform nothing is checked, printed or posted and
      the platform error is returned. Otherwise the summary text is printed and
      the card for the verdict goes to the webhook the verdict selects. */
  method Sup(cfg: Config, goos: string, get: Get, run: Run, order: seq<nat>)
    returns (printed: Option<string>, post: Option<Notification>, err: Option<string>)
    requires IsCompletionOrder(order, |cfg.endpoints|)
    ensures err.Some? <==> !(goos == "darwin" || goos == "linux" || goos == "windows")
    ensures err.Some? ==> err.value == "untested OS: " + goos && printed.None? && post.None?
    ensures err.None? ==>
              printed.Some? && post.Some? && "text" in post.value.card && post.value.card["text"] == printed.value
    ensures err.None? ==>
              InRange(order, |cfg.endpoints|) &&
              printed.value == SummaryOf(Pick(ExpectedResults(cfg.endpoints, goos, cfg.tries, cfg.https, get, run),
                                              order), cfg.https).msg
    ensures err.None? ==>
              var allUp := forall i :: 0 <= i < |cfg.endpoints| ==>
                             EndpointResult(cfg.endpoints[i], cfg.tries, goos, cfg.https, get, run).up;
              post.value.url == (if allUp then cfg.teamsWebhookUrlSuccess else cfg.teamsWebhookUrlFailure) &&
              (allUp ==> printed.value == AllUpMessage(|cfg.endpoints|, cfg.https))
    ensures err.None? ==>
              post.value == TeamsNotification(cfg.teamsWebhookUrlSuccess, cfg.teamsWebhookUrlFailure,
                                              SummaryOf(Pick(ExpectedResults(cfg.endpoints, goos, cfg.tries, cfg.https,
                                                                             get, run), order), cfg.https))
  {
    var (os, osErr) := CheckOS(goos);
    if osErr.Some? {
      return None, None, osErr;
    }
    var checkSummary := CheckAndSummarizeEndpoints(cfg.endpoints, os, cfg.tries, cfg.https, get, run, order);
    var notification := TeamsNotification(cfg.teamsWebhookUrlSuccess, cfg.teamsWebhookUrlFailure, checkSummary);
    return Some(checkSummary.msg), Some(notification), None;
  }
}
