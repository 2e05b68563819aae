/**
 * The self-contained logic of the LLM wrapper functions: how
 * `summarize_article` sizes its model, splitter and chain from the article's
 * token count, how `categorize` lays out its two title blocks and cuts the
 * reply, and the timeframe phrase of `prediction`. Every call into the LLM
 * library is an oracle: a function parameter giving what the call returns or raises.
 */
module Stages {
  import opened Text
  import opened Optional

  /** Token usage reported by the OpenAI callback of a chain run. */
  datatype Usage = Usage(promptTokens: nat, completionTokens: nat)

  /** What one run of an LLM chain gives back: its text, or the exception it raises. */
  datatype LlmOutcome =
    | Reply(text: string, usage: Usage)
    | InvalidRequestRaised
    | RateLimitRaised(errorType: string, errorCode: string)
    | AuthenticationRaised
    | OtherRaised

  /** What `summarize_article` returns (`[summary, cb]`) or raises. */
  datatype SummaryOutcome =
    | Summary(reply: string, usage: Usage)
    | InvalidRequest(message: string)
    | RateLimited(errorType: string, errorCode: string)
    | AuthenticationFailed
    | OtherError

  datatype SplitterKind = CharacterSplitter | TokenSplitter

  datatype Splitter = Splitter(kind: SplitterKind, chunkSize: nat, encodingModel: string)

  /** The model settings `summarize_article` chooses for an article. */
  datatype SummaryParams = SummaryParams(model: string, maxTokens: nat, splitter: Splitter)

  datatype Chain = StuffChain | MapReduceChain

  const SmallModel := "gpt-3.5-turbo"
  const LargeModel := "gpt-3.5-turbo-16k"
  /** Chunk size and completion budget of the small model. */
  const SmallChunk: nat := 1248
  /** Chunk size of the large model. */
  const LargeChunk: nat := 11088
  /** Completion budget of the large model. */
  const LargeMaxTokens: nat := 3696

  /**
   * The model, completion budget and splitter for an article of
   * `tokenCount` tokens: the small model below 1248 tokens, the 16k model
   * from there on, and a token splitter only from 11088 tokens on.
   */
  function SummarizeParams(tokenCount: nat): (p: SummaryParams)
    ensures p.model == LargeModel <==> tokenCount >= SmallChunk
    ensures p.model == SmallModel <==> tokenCount < SmallChunk
    ensures p.splitter.encodingModel == p.model
    ensures p.splitter.kind == TokenSplitter <==> tokenCount >= LargeChunk
    ensures p.splitter.kind == CharacterSplitter ==> tokenCount < p.splitter.chunkSize
    ensures p.model == SmallModel ==> p.maxTokens == SmallChunk && p.splitter.chunkSize == SmallChunk
    ensures p.model == LargeModel ==> p.maxTokens == LargeMaxTokens && p.splitter.chunkSize == LargeChunk
  {
    if tokenCount < SmallChunk then
      SummaryParams(SmallModel, SmallChunk, Splitter(CharacterSplitter, SmallChunk, SmallModel))
    else
      var kind := if tokenCount >= LargeChunk then TokenSplitter else CharacterSplitter;
      SummaryParams(LargeModel, LargeMaxTokens, Splitter(kind, LargeChunk, LargeModel))
  }

  /** A single chunk is summarized by the stuff chain, any other number by map-reduce. */
  function ChainFor(chunkCount: nat): (c: Chain)
    ensures c == StuffChain <==> chunkCount == 1
  {
    if chunkCount == 1 then StuffChain else MapReduceChain
  }

  /** The message of the InvalidRequestError that `summarize_article` raises again. */
  function InvalidRequestMessage(model: string, tokenCount: nat): (msg: string)
    ensures '\n' !in model ==> Split(msg, '\n') == ["model: " + model, "token_count: " + DecimalString(tokenCount)]
  {
    var head, tail := "model: " + model, "token_count: " + DecimalString(tokenCount);
    assert '\n' !in tail by {
      forall k | 0 <= k < |tail| ensures tail[k] != '\n' {
        if k >= 13 {
          assert tail[k] == DecimalString(tokenCount)[k - 13];
        }
      }
    }
    SplitTwo(head, tail, '\n');
    head + "\n" + tail
  }

  /**
   * `summarize_article`: `tokenCount` and `chunkCount` are what the tokenizer
   * and the splitter report, `run` is the chain run for the chosen settings.
   * An invalid request is raised again naming the model and the token count;
   * everything else the chain gives or raises passes through.
   */
  function SummarizeArticle(tokenCount: nat, chunkCount: nat, run: (SummaryParams, Chain) -> LlmOutcome): (o: SummaryOutcome)
    ensures var out := run(SummarizeParams(tokenCount), ChainFor(chunkCount));
      && (o.Summary? <==> out.Reply?)
      && (out.Reply? ==> o.reply == out.text && o.usage == out.usage)
      && (o.InvalidRequest? <==> out.InvalidRequestRaised?)
      && (o.InvalidRequest? ==> o.message == InvalidRequestMessage(SummarizeParams(tokenCount).model, tokenCount))
      && (out.RateLimitRaised? ==> o == RateLimited(out.errorType, out.errorCode))
      && (o.AuthenticationFailed? <==> out.AuthenticationRaised?)
      && (o.OtherError? <==> out.OtherRaised?)
  {
    var params := SummarizeParams(tokenCount);
    match run(params, ChainFor(chunkCount))
    case Reply(text, usage) => Summary(text, usage)
    case InvalidRequestRaised => InvalidRequest(InvalidRequestMessage(params.model, tokenCount))
    case RateLimitRaised(t, c) => RateLimited(t, c)
    case AuthenticationRaised => AuthenticationFailed
    case OtherRaised => OtherError
  }

  // ---------------------------------------------------------------------------
  // categorize: prompt blocks and reply truncation

  /** Each text followed by a newline. */
  function Terminated(texts: seq<string>): (lines: seq<string>)
    ensures |lines| == |texts|
    ensures forall i :: 0 <= i < |texts| ==> lines[i] == texts[i] + "\n"
  {
    seq(|texts|, i requires 0 <= i < |texts| => texts[i] + "\n")
  }

  /** Concatenating newline-terminated texts is joining them with newlines, with an empty last line. */
  lemma {:induction false} ConcatTerminated(texts: seq<string>)
    ensures Concat(Terminated(texts)) == Join(texts + [""], '\n')
  {
    if texts != [] {
      ConcatTerminated(texts[1..]);
      assert Terminated(texts) == [texts[0] + "\n"] + Terminated(texts[1..]);
      ConcatAppend([texts[0] + "\n"], Terminated(texts[1..]));
      assert Concat([texts[0] + "\n"]) == Concat([]) + (texts[0] + "\n");
      assert (texts + [""])[1..] == texts[1..] + [""];
    }
  }

  /** The text of line `i` (from 0) of the primary block: `{i+1} {title}`. */
  function PrimaryText(i: nat, title: string): string {
    DecimalString(i + 1) + " " + title
  }

  function PrimaryTexts(titles: seq<string>): (texts: seq<string>)
    ensures |texts| == |titles|
    ensures forall i :: 0 <= i < |titles| ==> texts[i] == PrimaryText(i, titles[i])
  {
    seq(|titles|, i requires 0 <= i < |titles| => PrimaryText(i, titles[i]))
  }

  /** The text of a line of the secondary block: `- {title}`. */
  function SecondaryText(title: string): string {
    "- " + title
  }

  function SecondaryTexts(titles: seq<string>): (texts: seq<string>)
    ensures |texts| == |titles|
    ensures forall i :: 0 <= i < |titles| ==> texts[i] == SecondaryText(titles[i])
  {
    seq(|titles|, i requires 0 <= i < |titles| => SecondaryText(titles[i]))
  }

  /** One more newline-terminated text extends the concatenation by that line. */
  lemma ConcatTerminatedStep(texts: seq<string>, i: nat)
    requires i < |texts|
    ensures Concat(Terminated(texts[..i + 1])) == Concat(Terminated(texts[..i])) + (texts[i] + "\n")
  {
    var longer := Terminated(texts[..i + 1]);
    assert longer[..|longer| - 1] == Terminated(texts[..i]);
  }

  /** The primary block `categorize` builds: one numbered, newline-terminated line per title, in order. */
  method PrimaryBlock(primaries: seq<string>) returns (primary: string)
    ensures primary == Concat(Terminated(PrimaryTexts(primaries)))
  {
    ghost var texts := PrimaryTexts(primaries);
    primary := "";
    var i := 0;
    while i < |primaries|
      invariant 0 <= i <= |primaries|
      invariant primary == Concat(Terminated(texts[..i]))
    {
      ConcatTerminatedStep(texts, i);
      var line := DecimalString(i + 1) + " " + primaries[i] + "\n";
      assert line == texts[i] + "\n";
      primary := primary + line;
      i := i + 1;
    }
    assert texts[..i] == texts;
  }

  /** The secondary block `categorize` builds: one `- title` line per title, in order. */
  method SecondaryBlock(secondaries: seq<string>) returns (secondary: string)
    ensures secondary == Concat(Terminated(SecondaryTexts(secondaries)))
  {
    ghost var texts := SecondaryTexts(secondaries);
    secondary := "";
    var i := 0;
    while i < |secondaries|
      invariant 0 <= i <= |secondaries|
      invariant secondary == Concat(Terminated(texts[..i]))
    {
      ConcatTerminatedStep(texts, i);
      var line := "- " + secondaries[i] + "\n";
      assert line == texts[i] + "\n";
      secondary := secondary + line;
      i := i + 1;
    }
    assert texts[..i] == texts;
  }

  /**
   * Read back line by line, the primary block has exactly one line
   * `{i+1} {title}` per title, in order, then the empty text after the last newline.
   */
  lemma PrimaryBlockLines(primaries: seq<string>)
    requires forall i :: 0 <= i < |primaries| ==> '\n' !in primaries[i]
    ensures Split(Concat(Terminated(PrimaryTexts(primaries))), '\n') == PrimaryTexts(primaries) + [""]
  {
    var texts := PrimaryTexts(primaries);
    ConcatTerminated(texts);
    forall i | 0 <= i < |texts + [""]|
      ensures '\n' !in (texts + [""])[i]
    {
      if i < |texts| {
        var d := DecimalString(i + 1);
        assert texts[i] == d + " " + primaries[i];
        assert forall k :: 0 <= k < |d| ==> IsDigit(d[k]);
      }
    }
    SplitJoin(texts + [""], '\n');
  }

  /** The same for the secondary block: one `- title` line per title; no titles give "". */
  lemma SecondaryBlockLines(secondaries: seq<string>)
    requires forall i :: 0 <= i < |secondaries| ==> '\n' !in secondaries[i]
    ensures Split(Concat(Terminated(SecondaryTexts(secondaries))), '\n') == SecondaryTexts(secondaries) + [""]
    ensures secondaries == [] ==> Concat(Terminated(SecondaryTexts(secondaries))) == ""
  {
    var texts := SecondaryTexts(secondaries);
    ConcatTerminated(texts);
    forall i | 0 <= i < |texts + [""]|
      ensures '\n' !in (texts + [""])[i]
    {
      if i < |texts| {
        assert texts[i] == "- " + secondaries[i];
      }
    }
    SplitJoin(texts + [""], '\n');
  }

  /** The marker that closes the JSON list `categorize` asks for. */
  const Closing := "]}]"

  /** `result.split(']}]')[0] + ']}]'`: the reply cut after its first closing marker, or completed with one. */
  function TruncateReply(reply: string): (r: string)
    ensures |r| >= |Closing| && r[|r| - |Closing|..] == Closing
    ensures Find(reply, Closing).Some? ==> |r| <= |reply| && r == reply[..|r|]
    ensures Find(reply, Closing).Some? ==> forall k :: 0 <= k < |r| - |Closing| ==> !OccursAt(r, Closing, k)
    ensures Find(reply, Closing).None? ==> r == reply + Closing
  {
    match Find(reply, Closing)
    case Some(k) =>
      var r := reply[..k] + Closing;
      assert r == reply[..k + |Closing|];
      forall j | 0 <= j < |r| - |Closing|
        ensures !OccursAt(r, Closing, j)
      {
        assert !OccursAt(reply, Closing, j);
        assert r[j..j + |Closing|] == reply[j..j + |Closing|];
      }
      r
    case None => reply + Closing
  }

  /** A reply that already held the marker is a fixed point of the truncation once cut. */
  lemma TruncateReplyIdempotent(reply: string)
    requires Find(reply, Closing).Some?
    ensures TruncateReply(TruncateReply(reply)) == TruncateReply(reply)
  {
    var r := TruncateReply(reply);
    assert OccursAt(r, Closing, |r| - |Closing|);
    assert Find(r, Closing) == Some(|r| - |Closing|);
  }

  /**
   * Without the marker, the completion can create an earlier one: a reply
   * ending in `]}` comes back with the marker twice, and cutting again shortens it.
   */
  lemma TruncateReplyNotIdempotent()
    ensures TruncateReply("x]}") == "x]}]}]"
    ensures TruncateReply(TruncateReply("x]}")) == "x]}]"
  {
    assert "x]}"[0..3][0] != Closing[0];
    assert Find("x]}", Closing) == None;
    assert OccursAt("x]}]}]", Closing, 1);
    assert "x]}]}]"[0..3][0] != Closing[0];
    assert Find("x]}]}]", Closing) == Some(1);
  }

  /** What `categorize` returns (`[result, cb]`) or raises. */
  datatype CategorizeOutcome =
    | Categorized(result: string, usage: Usage)
    | CatInvalidRequest
    | CatRateLimited(errorType: string, errorCode: string)
    | CatAuthenticationFailed
    | CatOtherError

  /**
   * `categorize`: builds the two title blocks, hands them to the chain
   * (`run`), and cuts the reply after its first closing marker. Exceptions of
   * the chain are not caught here.
   */
  method Categorize(primaries: seq<string>, secondaries: seq<string>, run: (string, string) -> LlmOutcome)
    returns (o: CategorizeOutcome)
    ensures var out := run(Concat(Terminated(PrimaryTexts(primaries))), Concat(Terminated(SecondaryTexts(secondaries))));
      && (o.Categorized? <==> out.Reply?)
      && (out.Reply? ==> o.result == TruncateReply(out.text) && o.usage == out.usage)
      && (o.CatInvalidRequest? <==> out.InvalidRequestRaised?)
      && (out.RateLimitRaised? ==> o == CatRateLimited(out.errorType, out.errorCode))
      && (o.CatAuthenticationFailed? <==> out.AuthenticationRaised?)
      && (o.CatOtherError? <==> out.OtherRaised?)
  {
    var primary := PrimaryBlock(primaries);
    var secondary := SecondaryBlock(secondaries);
    match run(primary, secondary)
    case Reply(text, usage) => o := Categorized(TruncateReply(text), usage);
    case InvalidRequestRaised => o := CatInvalidRequest;
    case RateLimitRaised(t, c) => o := CatRateLimited(t, c);
    case AuthenticationRaised => o := CatAuthenticationFailed;
    case OtherRaised => o := CatOtherError;
  }

  // ---------------------------------------------------------------------------
  // prediction: the timeframe phrase

  /** The phrase `prediction` puts into its prompt for a timeframe; anything unknown reads as one day. */
  function TimeframePhrase(timeframe: string): (phrase: string)
    ensures timeframe == "week" ==> phrase == "on a 1-week time frame"
    ensures timeframe == "month" ==> phrase == "on a 1-month time frame"
    ensures timeframe != "week" && timeframe != "month" ==> phrase == "on a 1-day time frame"
  {
    var time := "on a 1-day time frame";
    if timeframe == "month" then "on a 1-month time frame"
    else if timeframe == "week" then "on a 1-week time frame"
    else time
  }
}
