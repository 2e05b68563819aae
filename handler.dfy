/**
 * `stage_1_thread_handler`: one article's call to `summarize_article`, the
 * nine labelled fields read out of the reply, and the tagged list it hands
 * back to the dispatcher, including on every failure.
 */
module Handler {
  import opened Optional
  import opened Text
  import Stages

  /** The labels whose lines the reply is searched for, in row order. */
  const Labels: seq<string> := [
    "Title:",
    "Category:",
    "Summary:",
    "Importance 1 day:",
    "Reasoning for 1 day score:",
    "Importance 1 week:",
    "Reasoning for 1 week score:",
    "Importance 1 month:",
    "Reasoning for 1 month score:"
  ]

  const FieldCount: nat := 9

  /** One pending article: its text and the site name and link that travel with it. */
  datatype Item = Item(article: string, siteName: string, link: string)

  /**
   * The list the handler returns. A summary is
   * `[article, reply, nine fields, site_name, link, cb]`; a failure is
   * `[er, 'Error', article, site_name, link]` or
   * `[apikey, 'APIKey_Error', article, site_name, link]`; `NoResult` is `None`.
   */
  datatype HandlerResult =
    | Summarized(item: Item, reply: string, fields: seq<Option<string>>, usage: Stages.Usage)
    | ErrorResult(item: Item)
    | KeyErrorResult(apikey: string, item: Item)
    | NoResult

  /** Index of the first line that starts with `label`. */
  function MatchIndex(lines: seq<string>, lbl: string): (r: Option<nat>)
    ensures r.Some? ==> r.value < |lines| && StartsWith(lines[r.value], lbl)
    ensures r.Some? ==> forall j :: 0 <= j < r.value ==> !StartsWith(lines[j], lbl)
    ensures r.None? <==> forall j :: 0 <= j < |lines| ==> !StartsWith(lines[j], lbl)
  {
    if lines == [] then None
    else if StartsWith(lines[0], lbl) then Some(0)
    else
      match MatchIndex(lines[1..], lbl)
      case Some(j) => Some(j + 1)
      case None => None
  }

  /** The first line starting with `label` is the one at `i`. */
  lemma MatchIndexAt(lines: seq<string>, lbl: string, i: nat)
    requires i < |lines| && StartsWith(lines[i], lbl)
    requires forall j :: 0 <= j < i ==> !StartsWith(lines[j], lbl)
    ensures MatchIndex(lines, lbl) == Some(i)
  {
    var r := MatchIndex(lines, lbl);
    assert r.Some?;
  }

  /** The field for `label`: the stripped rest of the first line starting with it, or `None`. */
  function Field(lines: seq<string>, lbl: string): (r: Option<string>)
    ensures r.None? <==> forall j :: 0 <= j < |lines| ==> !StartsWith(lines[j], lbl)
    ensures r.Some? ==> Strip(r.value) == r.value
  {
    match MatchIndex(lines, lbl)
    case Some(i) => StripIdempotent(lines[i][|lbl|..]); Some(Strip(lines[i][|lbl|..]))
    case None => None
  }

  /** The nine fields of a reply, in label order. */
  function ReplyFields(reply: string): (fields: seq<Option<string>>)
    ensures |fields| == FieldCount
    ensures forall k :: 0 <= k < FieldCount && fields[k].Some? ==> Strip(fields[k].value) == fields[k].value
  {
    var lines := Split(reply, '\n');
    seq(FieldCount, k requires 0 <= k < FieldCount => Field(lines, Labels[k]))
  }

  /** A field is present exactly when some line of the reply starts with its label. */
  lemma FieldPresence(reply: string, k: nat)
    requires k < FieldCount
    ensures var lines := Split(reply, '\n');
      ReplyFields(reply)[k].None? <==> forall j :: 0 <= j < |lines| ==> !StartsWith(lines[j], Labels[k])
  {
  }

  /**
   * The loops that fill `item_dict`: for each label, scan the lines of the
   * reply and keep the stripped text after the label on the first line that
   * starts with it.
   */
  method ParseFields(reply: string) returns (fields: seq<Option<string>>)
    ensures |fields| == FieldCount
    ensures forall k :: 0 <= k < FieldCount ==>
      fields[k] == Field(Split(reply, '\n'), Labels[k])
  {
    var lines := Split(reply, '\n');
    fields := [];
    var k := 0;
    while k < |Labels|
      invariant 0 <= k <= |Labels|
      invariant |fields| == k
      invariant forall m :: 0 <= m < k ==> fields[m] == Field(lines, Labels[m])
    {
      var value := ScanField(lines, Labels[k]);
      fields := fields + [value];
      k := k + 1;
    }
  }

  /** The inner loop for one label: the first line starting with `lbl` wins. */
  method ScanField(lines: seq<string>, lbl: string) returns (value: Option<string>)
    ensures value == Field(lines, lbl)
  {
    value := None;
    var j := 0;
    while j < |lines| && value.None?
      invariant 0 <= j <= |lines|
      invariant value.None? ==> forall m :: 0 <= m < j ==> !StartsWith(lines[m], lbl)
      invariant value.Some? ==> 0 < j && StartsWith(lines[j - 1], lbl)
      invariant value.Some? ==> forall m :: 0 <= m < j - 1 ==> !StartsWith(lines[m], lbl)
      invariant value.Some? ==> value == Some(Strip(lines[j - 1][|lbl|..]))
    {
      if StartsWith(lines[j], lbl) {
        value := Some(Strip(lines[j][|lbl|..]));
      }
      j := j + 1;
    }
    if value.Some? {
      MatchIndexAt(lines, lbl, j - 1);
    }
  }

  /**
   * What the handler returns for an article, given what `summarize_article`
   * returned or raised for it (`outcome`).
   */
  function Handle(apikey: string, item: Item, outcome: Stages.SummaryOutcome): (r: HandlerResult)
    ensures r.Summarized? <==> outcome.Summary?
    ensures r.Summarized? ==>
      (r.item == item && r.reply == outcome.reply && r.usage == outcome.usage && r.fields == ReplyFields(outcome.reply))
    ensures r.KeyErrorResult? <==>
      outcome.AuthenticationFailed? || (outcome.RateLimited? && outcome.errorType == "insufficient_quota")
    ensures r.KeyErrorResult? ==> r.apikey == apikey
    ensures r.NoResult? <==>
      outcome.RateLimited? && outcome.errorType != "insufficient_quota" && outcome.errorCode != "rate_limit_exceeded"
    ensures r.ErrorResult? <==>
      outcome.InvalidRequest? || outcome.OtherError?
      || (outcome.RateLimited? && outcome.errorType != "insufficient_quota" && outcome.errorCode == "rate_limit_exceeded")
    ensures !r.NoResult? ==> r.item == item
  {
    match outcome
    case Summary(reply, usage) => Summarized(item, reply, ReplyFields(reply), usage)
    case InvalidRequest(_) => ErrorResult(item)
    case RateLimited(errorType, errorCode) =>
      if errorType == "insufficient_quota" then KeyErrorResult(apikey, item)
      else if errorCode == "rate_limit_exceeded" then ErrorResult(item)
      else NoResult
    case AuthenticationFailed => KeyErrorResult(apikey, item)
    case OtherError => ErrorResult(item)
  }

  /** `stage_1_thread_handler`, with the summary call's outcome as input. */
  method ThreadHandler(apikey: string, item: Item, outcome: Stages.SummaryOutcome) returns (r: HandlerResult)
    ensures r == Handle(apikey, item, outcome)
  {
    if outcome.Summary? {
      var fields := ParseFields(outcome.reply);
      r := Summarized(item, outcome.reply, fields, outcome.usage);
    } else {
      r := Handle(apikey, item, outcome);
    }
  }
}
