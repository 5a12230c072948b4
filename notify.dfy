/** sup.go, `sendSummaryMessageToTeams` up to the POST: the colour, the title,
    the message card and the webhook the card goes to. Encoding the card as
    JSON and sending it are not modelled. */
module Notify {
  import opened Summary

  const SuccessColor := "#0ac404"
  const FailureColor := "#e81515"
  const SuccessTitle := "\U{1F44D} Endpoints Up"
  const FailureTitle := "\U{1F525} ENDPOINTS DOWN"

  /** The card, and the webhook URL it is posted to. */
  datatype Notification = Notification(url: string, card: map<string, string>)

  /** The verdict a card announces, read back from its colour. */
  function CardVerdict(card: map<string, string>): bool {
    "themeColor" in card && card["themeColor"] == SuccessColor
  }

  /** `sendSummaryMessageToTeams` before the POST: green, "Endpoints Up" and
      the success webhook when everything is up; red, "ENDPOINTS DOWN" and the
      failure webhook otherwise. The card carries the summary text unchanged. */
  function TeamsNotification(webhookUrlSuccess: string, webhookUrlFailure: string, checkSummary: CheckSummary)
    : (n: Notification)
    ensures n.card.Keys == {"@type", "@context", "summary", "themeColor", "title", "text"}
    ensures n.card["@type"] == "MessageCard" && n.card["@context"] == "http://schema.org/extensions"
    ensures n.card["summary"] == n.card["title"] && n.card["text"] == checkSummary.msg
    ensures CardVerdict(n.card) == checkSummary.allUp
    ensures checkSummary.allUp ==>
              n.url == webhookUrlSuccess && n.card["themeColor"] == SuccessColor && n.card["title"] == SuccessTitle
    ensures !checkSummary.allUp ==>
              n.url == webhookUrlFailure && n.card["themeColor"] == FailureColor && n.card["title"] == FailureTitle
  {
    var (color, title, success) :=
      if checkSummary.allUp then (SuccessColor, SuccessTitle, true) else (FailureColor, FailureTitle, false);
    var card := map[
      "@type" := "MessageCard",
      "@context" := "http://schema.org/extensions",
      "summary" := title,
      "themeColor" := color,
      "title" := title,
      "text" := checkSummary.msg
    ];
    var url := if success then webhookUrlSuccess else webhookUrlFailure;
    Notification(url, card)
  }
}
