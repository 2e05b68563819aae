/**
 * The `Analyzer` of the batch pipeline: its credential pool and key files,
 * the stage-1 dispatch rounds that turn gathered articles into checkpoint
 * rows, and stage 2, which ranks each known category's titles and keeps the
 * topic clusters the categorisation returns.
 *
 * The database, the LLM, `random.choice` and `json.loads` are parameters:
 * `db` maps a collection name to its documents, `summarize` and `llm` give
 * the outcome of a model call, `choice` the index a random choice draws,
 * `decode` what `json.loads` makes of a text (`None` for a decode error).
 */
module Analyzer {
  import opened Optional
  import opened Text
  import Keys
  import Stages
  import opened Handler
  import Checkpoint
  import Ranking

  /** The collections `stage_1` reads, in the order of `collections[1..10]`. */
  const CollectionNames: seq<string> := [
    "lawandcrimes",
    "web3",
    "entertainments",
    "sports",
    "artandfashions",
    "bizandfinances",
    "politics",
    "scienceandteches",
    "lifestyleandhealths",
    "gamings"
  ]

  /** The documents of the named collections, collection after collection. */
  function Gathered(db: string -> seq<Item>, names: seq<string>): (articles: seq<Item>)
    ensures forall i, j :: 0 <= i < |names| && 0 <= j < |db(names[i])| ==> db(names[i])[j] in articles
    ensures forall x :: x in articles ==> exists i :: 0 <= i < |names| && x in db(names[i])
  {
    if names == [] then []
    else
      var prev := Gathered(db, names[..|names| - 1]);
      var last := names[|names| - 1];
      assert forall i :: 0 <= i < |names| - 1 ==> names[..|names| - 1][i] == names[i];
      prev + db(last)
  }

  // ---------------------------------------------------------------------------
  // Routing a handler result in the stage-1 collector

  /** What the collector does with one result. */
  datatype Route =
    | WriteRow(row: seq<string>)
    | Requeue(item: Item)
    | RetireAndRequeue(apikey: string, item: Item)
    | Crash                                    // `None[1]`: TypeError ends `stage_1`

  /** A result as the handler produces it: a summary always has its nine fields. */
  predicate WellFormed(r: HandlerResult) {
    r.Summarized? ==> |r.fields| == FieldCount
  }

  /**
   * The collector routing by what the result is: a summary is written, a
   * key error retires its key and requeues the article, any other error
   * requeues it, and a missing result crashes the stage.
   */
  function RouteOf(r: HandlerResult): (route: Route)
    requires WellFormed(r)
    ensures route.WriteRow? <==> r.Summarized?
    ensures route.Crash? <==> r.NoResult?
    ensures route.WriteRow? ==> |route.row| == Checkpoint.ColumnCount && Checkpoint.RowItem(route.row) == r.item
    ensures route.Requeue? ==> r.ErrorResult? && route.item == r.item
    ensures route.RetireAndRequeue? ==> r.KeyErrorResult? && route == RetireAndRequeue(r.apikey, r.item)
  {
    match r
    case Summarized(_, _, _, _) => WriteRow(Checkpoint.SummaryRow(r))
    case ErrorResult(item) => Requeue(item)
    case KeyErrorResult(apikey, item) => RetireAndRequeue(apikey, item)
    case NoResult => Crash
  }

  /**
   * Every article handed to the handler comes out of the collector exactly
   * once, unchanged: as the row written for it or as the item requeued;
   * only a rate-limit error of an unexpected kind crashes the stage.
   */
  lemma RouteAccounts(apikey: string, item: Item, outcome: Stages.SummaryOutcome)
    ensures var route := RouteOf(Handle(apikey, item, outcome));
      && (route.Crash? <==> outcome.RateLimited? && outcome.errorType != "insufficient_quota" && outcome.errorCode != "rate_limit_exceeded")
      && (route.WriteRow? ==> Checkpoint.RowItem(route.row) == item)
      && (route.Requeue? ==> route.item == item)
      && (route.RetireAndRequeue? ==> route == RetireAndRequeue(apikey, item))
  {
  }

  /** Element 1 of the handler's list, which the collector compares with the tags. */
  function Tag(r: HandlerResult): string
    requires !r.NoResult?
  {
    match r
    case Summarized(_, reply, _, _) => reply
    case ErrorResult(_) => "Error"
    case KeyErrorResult(_, _) => "APIKey_Error"
  }

  /**
   * The collector as written: it tests element 1 against the tags, so a
   * summary whose reply is exactly a tag is taken for a failure; element 0
   * (the article) is then retired as a key and elements 2-4 (the Title,
   * Category and Summary fields, `None` shown as "") are requeued as an article.
   */
  function RouteAsWritten(r: HandlerResult): (route: Route)
    requires WellFormed(r)
    ensures r.Summarized? && r.reply != "Error" && r.reply != "APIKey_Error" ==> route == RouteOf(r)
    ensures !r.Summarized? ==> route == RouteOf(r)
  {
    if r.NoResult? then Crash
    else
      var requeued := if r.Summarized? then
        Item(Checkpoint.Cell(r.fields[0]), Checkpoint.Cell(r.fields[1]), Checkpoint.Cell(r.fields[2]))
      else r.item;
      var first := match r
        case Summarized(item, _, _, _) => item.article
        case KeyErrorResult(apikey, _) => apikey
        case ErrorResult(_) => "";
      if Tag(r) == "APIKey_Error" then RetireAndRequeue(first, requeued)
      else if Tag(r) == "Error" then Requeue(requeued)
      else WriteRow(Checkpoint.SummaryRow(r))
  }

  /** A reply with no labelled line has no fields. */
  lemma NoFieldsInError()
    ensures ReplyFields("Error") == seq(FieldCount, k => None)
  {
    SplitNoSeparator("Error", '\n');
    forall k | 0 <= k < FieldCount ensures Field(["Error"], Labels[k]) == None {
      assert !StartsWith("Error", Labels[k]);
      assert ["Error"][1..] == [];
    }
  }

  /**
   * The summary of an article whose model reply is exactly `Error` is not
   * written: the collector requeues an empty article in its place, and the
   * real article is lost.
   */
  lemma ErrorReplyIsRequeued(item: Item, usage: Stages.Usage)
    ensures var r := Handle("key", item, Stages.Summary("Error", usage));
      && RouteAsWritten(r) == Requeue(Item("", "", ""))
      && RouteOf(r) == WriteRow(Checkpoint.SummaryRow(r))
  {
    NoFieldsInError();
  }

  // ---------------------------------------------------------------------------
  // Rows and the key files

  /** The articles of complete checkpoint rows. */
  function RowItems(rows: seq<seq<string>>): (items: seq<Item>)
    requires forall j :: 0 <= j < |rows| ==> |rows[j]| >= Checkpoint.ColumnCount
    ensures |items| == |rows|
    ensures forall j :: 0 <= j < |rows| ==> items[j] == Checkpoint.RowItem(rows[j])
  {
    seq(|rows|, j requires 0 <= j < |rows| => Checkpoint.RowItem(rows[j]))
  }

  /**
   * The lines `for key in keys: write(key + '\n')` leaves in a file. A file
   * is modelled as the sequence of its lines, each with its newline, as
   * `readlines()` returns them.
   */
  method WriteLines(keys: seq<string>) returns (lines: seq<string>)
    ensures lines == Stages.Terminated(keys)
  {
    lines := [];
    var i := 0;
    while i < |keys|
      invariant 0 <= i <= |keys|
      invariant lines == Stages.Terminated(keys[..i])
    {
      lines := lines + [keys[i] + "\n"];
      i := i + 1;
    }
    assert keys[..i] == keys;
  }

  lemma TerminatedAppend(a: seq<string>, b: seq<string>)
    ensures Stages.Terminated(a + b) == Stages.Terminated(a) + Stages.Terminated(b)
  {
  }

  datatype Stage1Outcome =
    | Finished       // no article is pending
    | PoolFailed     // a round began with no key: `Pool(processes=0)` raises
    | Crashed        // a handler returned `None`
    | OutOfRounds    // articles still pending after the last round modelled

  /** What `stage_2_category` did: returned a value (`None` or `[result, cb]`) or raised. */
  datatype CategoryCall = Returned(result: Option<string>) | Raised

  datatype Stage2Outcome =
    | Completed
    | NoHeader                  // the stage-1 file is empty: `next(csv_reader)` raises
    | Aborted(category: string) // `result[0]` on `None` or `[]`: the remaining categories are not run

  /** The primary block `categorize` sends for these titles. */
  function PrimaryBlockText(primaries: seq<string>): string {
    Concat(Stages.Terminated(Stages.PrimaryTexts(primaries)))
  }

  /** The secondary block `categorize` sends for these titles. */
  function SecondaryBlockText(secondaries: seq<string>): string {
    Concat(Stages.Terminated(Stages.SecondaryTexts(secondaries)))
  }

  /** The outcome of the categorisation call at `depth`, with the key drawn from `keys`. */
  function Attempt(keys: seq<string>, primaries: seq<string>, secondaries: seq<string>, depth: nat,
                   choice: nat -> nat, llm: (nat, string, string, string) -> Stages.LlmOutcome): Stages.LlmOutcome
    requires keys != []
  {
    llm(depth, keys[choice(depth) % |keys|], PrimaryBlockText(primaries), SecondaryBlockText(secondaries))
  }

  /** The key choices `stage_2_category` makes for one category, by recursion depth. */
  function CategoryChoice(choice: (string, nat) -> nat, category: string): nat -> nat {
    (d: nat) => choice(category, d)
  }

  /** The model calls `stage_2_category` makes for one category. */
  function CategoryLlm(llm: (string, nat, string, string, string) -> Stages.LlmOutcome, category: string)
    : (nat, string, string, string) -> Stages.LlmOutcome
  {
    (d: nat, k: string, p: string, s: string) => llm(category, d, k, p, s)
  }

  /** A call that retried returns `None` whatever the retry did, unless the retry raised. */
  function Discarded(c: CategoryCall): CategoryCall {
    if c.Raised? then Raised else Returned(None)
  }

  /**
   * `stage_2_category` from pool `keys` at recursion depth `depth`: what it
   * returns or raises, and the keys it retires, in order. `fuel` bounds the
   * recursion as Python's recursion limit does (running out raises).
   */
  function CategoryRetry(keys: seq<string>, primaries: seq<string>, secondaries: seq<string>, depth: nat, fuel: nat,
                         choice: nat -> nat, llm: (nat, string, string, string) -> Stages.LlmOutcome): (r: (CategoryCall, seq<string>))
    ensures keys == [] || fuel == 0 ==> r == (Raised, [])
    ensures r.0.Returned? && r.0.result.Some? ==> r.1 == []
    ensures |r.1| <= fuel
    decreases fuel
  {
    if keys == [] || fuel == 0 then (Raised, [])
    else
      var key := keys[choice(depth) % |keys|];
      match Attempt(keys, primaries, secondaries, depth, choice, llm)
      case Reply(text, _) => (Returned(Some(Stages.TruncateReply(text))), [])
      case InvalidRequestRaised => (Returned(None), [])
      case AuthenticationRaised =>
        var rest := Keys.RemoveFirst(keys, key);
        var retry := CategoryRetry(rest, primaries, secondaries, depth + 1, fuel - 1, choice, llm);
        (Discarded(retry.0), [key] + retry.1)
      case RateLimitRaised(errorType, errorCode) =>
        if errorType == "insufficient_quota" || errorCode == "rate_limit_exceeded" then
          var retry := CategoryRetry(keys, primaries, secondaries, depth + 1, fuel - 1, choice, llm);
          (Discarded(retry.0), retry.1)
        else (Returned(None), [])
      case OtherRaised => (Raised, [])
  }

  /** An authentication error retires the drawn key and retries, one level deeper, without it. */
  lemma RetryAfterAuthentication(keys: seq<string>, primaries: seq<string>, secondaries: seq<string>,
                                 depth: nat, fuel: nat, choice: nat -> nat,
                                 llm: (nat, string, string, string) -> Stages.LlmOutcome)
    requires keys != [] && fuel > 0
    requires Attempt(keys, primaries, secondaries, depth, choice, llm).AuthenticationRaised?
    ensures var key := keys[choice(depth) % |keys|];
      var retry := CategoryRetry(Keys.RemoveFirst(keys, key), primaries, secondaries, depth + 1, fuel - 1, choice, llm);
      CategoryRetry(keys, primaries, secondaries, depth, fuel, choice, llm) == (Discarded(retry.0), [key] + retry.1)
  {
  }

  /** A retryable rate-limit error retries, one level deeper, with the same pool. */
  lemma RetryAfterRateLimit(keys: seq<string>, primaries: seq<string>, secondaries: seq<string>,
                            depth: nat, fuel: nat, choice: nat -> nat,
                            llm: (nat, string, string, string) -> Stages.LlmOutcome)
    requires keys != [] && fuel > 0
    requires Attempt(keys, primaries, secondaries, depth, choice, llm).RateLimitRaised?
    requires Attempt(keys, primaries, secondaries, depth, choice, llm).errorType == "insufficient_quota"
      || Attempt(keys, primaries, secondaries, depth, choice, llm).errorCode == "rate_limit_exceeded"
    ensures var retry := CategoryRetry(keys, primaries, secondaries, depth + 1, fuel - 1, choice, llm);
      CategoryRetry(keys, primaries, secondaries, depth, fuel, choice, llm) == (Discarded(retry.0), retry.1)
  {
  }

  /**
   * Only keys of the pool are retired, each at most once: the retired keys
   * were each still in the pool at their turn, so there are never more of
   * them than keys.
   */
  lemma {:induction false} CategoryRetryRetires(keys: seq<string>, primaries: seq<string>, secondaries: seq<string>,
                                                depth: nat, fuel: nat, choice: nat -> nat,
                                                llm: (nat, string, string, string) -> Stages.LlmOutcome)
    ensures var r := CategoryRetry(keys, primaries, secondaries, depth, fuel, choice, llm);
      Keys.RetiresPresent(keys, r.1) && |r.1| <= |keys|
    decreases fuel
  {
    if keys != [] && fuel > 0 {
      var key := keys[choice(depth) % |keys|];
      var attempt := Attempt(keys, primaries, secondaries, depth, choice, llm);
      if attempt.AuthenticationRaised? {
        RetryAfterAuthentication(keys, primaries, secondaries, depth, fuel, choice, llm);
        var rest := Keys.RemoveFirst(keys, key);
        CategoryRetryRetires(rest, primaries, secondaries, depth + 1, fuel - 1, choice, llm);
        var retry := CategoryRetry(rest, primaries, secondaries, depth + 1, fuel - 1, choice, llm);
        assert ([key] + retry.1)[1..] == retry.1;
      } else if attempt.RateLimitRaised? && (attempt.errorType == "insufficient_quota" || attempt.errorCode == "rate_limit_exceeded") {
        RetryAfterRateLimit(keys, primaries, secondaries, depth, fuel, choice, llm);
        CategoryRetryRetires(keys, primaries, secondaries, depth + 1, fuel - 1, choice, llm);
      } else {
        assert CategoryRetry(keys, primaries, secondaries, depth, fuel, choice, llm).1 == [];
      }
    }
  }

  /**
   * A result comes back only from the first attempt: `stage_2_category`
   * returns a reply exactly when its own call to `categorize` succeeds, and
   * then it is that reply, truncated. An empty pool or an exhausted
   * recursion raises and retires nothing.
   */
  lemma CategoryRetryResult(keys: seq<string>, primaries: seq<string>, secondaries: seq<string>,
                            depth: nat, fuel: nat, choice: nat -> nat,
                            llm: (nat, string, string, string) -> Stages.LlmOutcome)
    ensures var r := CategoryRetry(keys, primaries, secondaries, depth, fuel, choice, llm);
      && (keys == [] || fuel == 0 ==> r == (Raised, []))
      && ((r.0.Returned? && r.0.result.Some?) <==>
            keys != [] && fuel > 0 && Attempt(keys, primaries, secondaries, depth, choice, llm).Reply?)
      && (r.0.Returned? && r.0.result.Some? ==>
            r.0.result.value == Stages.TruncateReply(Attempt(keys, primaries, secondaries, depth, choice, llm).text))
  {
  }

  /** An authentication error retires the key that was drawn, before anything the retry retires. */
  lemma CategoryRetryAuthentication(keys: seq<string>, primaries: seq<string>, secondaries: seq<string>,
                                    depth: nat, fuel: nat, choice: nat -> nat,
                                    llm: (nat, string, string, string) -> Stages.LlmOutcome)
    requires keys != [] && fuel > 0
    requires Attempt(keys, primaries, secondaries, depth, choice, llm).AuthenticationRaised?
    ensures var r := CategoryRetry(keys, primaries, secondaries, depth, fuel, choice, llm);
      |r.1| > 0 && r.1[0] == keys[choice(depth) % |keys|] && !(r.0.Returned? && r.0.result.Some?)
  {
  }

  /** An `insufficient_quota` error retires nothing: the retry starts from the same pool. */
  lemma QuotaKeepsKey(keys: seq<string>, primaries: seq<string>, secondaries: seq<string>, depth: nat, fuel: nat,
                      choice: nat -> nat, llm: (nat, string, string, string) -> Stages.LlmOutcome)
    requires keys != [] && fuel > 0
    requires Attempt(keys, primaries, secondaries, depth, choice, llm).RateLimitRaised?
    requires Attempt(keys, primaries, secondaries, depth, choice, llm).errorType == "insufficient_quota"
    ensures CategoryRetry(keys, primaries, secondaries, depth, fuel, choice, llm).1 ==
      CategoryRetry(keys, primaries, secondaries, depth + 1, fuel - 1, choice, llm).1
  {
  }

  /** The key state `log_invalid_key` works on: the pool and the lines of the two key files. */
  datatype KeyFiles = KeyFiles(apikeys: seq<string>, keysFile: seq<string>, invalidFile: seq<string>)

  /** `log_invalid_key(k)` on a key state: nothing happens unless `k` is in the pool. */
  function RetireKey(f: KeyFiles, k: string): (g: KeyFiles)
    ensures k !in f.apikeys ==> g == f
    ensures k in f.apikeys ==> |g.apikeys| == |f.apikeys| - 1 && g.invalidFile == f.invalidFile + [k + "\n"]
  {
    if k in f.apikeys then
      var keys := Keys.RemoveFirst(f.apikeys, k);
      KeyFiles(keys, Stages.Terminated(keys), f.invalidFile + [k + "\n"])
    else f
  }

  /** The key state after `log_invalid_key` for each key of `retired`, in order. */
  function RetireAll(f: KeyFiles, retired: seq<string>): (g: KeyFiles)
    ensures |g.apikeys| <= |f.apikeys|
    ensures f.invalidFile <= g.invalidFile
    ensures AllPresent(f, retired) ==> |g.apikeys| + |retired| == |f.apikeys| && |g.invalidFile| == |f.invalidFile| + |retired|
    decreases retired
  {
    if retired == [] then f else RetireAll(RetireKey(f, retired[0]), retired[1..])
  }

  /** Every key of `retired` was still in the pool when it was retired. */
  predicate AllPresent(f: KeyFiles, retired: seq<string>)
    decreases retired
  {
    retired == [] || (retired[0] in f.apikeys && AllPresent(RetireKey(f, retired[0]), retired[1..]))
  }

  /** Retiring `a` and then `b` is retiring `a + b`. */
  lemma {:induction false} RetireAllAppend(f: KeyFiles, a: seq<string>, b: seq<string>)
    ensures RetireAll(f, a + b) == RetireAll(RetireAll(f, a), b)
    ensures AllPresent(f, a) && AllPresent(RetireAll(f, a), b) ==> AllPresent(f, a + b)
    decreases a
  {
    if a == [] {
      assert a + b == b;
    } else {
      assert (a + b)[0] == a[0];
      assert (a + b)[1..] == a[1..] + b;
      RetireAllAppend(RetireKey(f, a[0]), a[1..], b);
    }
  }

  lemma RetireAllOne(f: KeyFiles, k: string)
    ensures RetireAll(f, [k]) == RetireKey(f, k)
    ensures AllPresent(f, [k]) <==> k in f.apikeys
  {
    assert [k][1..] == [];
  }

  /** The pool after a run of retirements is the pool with those keys removed, one after the other. */
  lemma {:induction false} RetireAllKeys(f: KeyFiles, retired: seq<string>)
    requires AllPresent(f, retired)
    ensures Keys.RetiresPresent(f.apikeys, retired)
    ensures RetireAll(f, retired).apikeys == Keys.Retire(f.apikeys, retired)
    decreases retired
  {
    if retired != [] {
      RetireAllKeys(RetireKey(f, retired[0]), retired[1..]);
    }
  }

  /** The invalid-key file gains one line per retired key, in the order they were retired. */
  lemma {:induction false} RetireAllLog(f: KeyFiles, retired: seq<string>)
    requires AllPresent(f, retired)
    ensures RetireAll(f, retired).invalidFile == f.invalidFile + Stages.Terminated(retired)
    decreases retired
  {
    if retired == [] {
      assert f.invalidFile + Stages.Terminated(retired) == f.invalidFile;
    } else {
      var k, rest := retired[0], retired[1..];
      RetireAllLog(RetireKey(f, k), rest);
      assert retired == [k] + rest;
      LogCons(f.invalidFile, k, rest);
    }
  }

  /** A log that gains the line of `k` and then those of `rest` has gained the lines of `[k] + rest`. */
  lemma LogCons(log: seq<string>, k: string, rest: seq<string>)
    ensures (log + [k + "\n"]) + Stages.Terminated(rest) == log + Stages.Terminated([k] + rest)
  {
    TerminatedAppend([k], rest);
    assert Stages.Terminated([k]) == [k + "\n"];
  }

  /** Once anything was retired, the key file holds exactly the remaining pool, one key per line. */
  lemma {:induction false} RetireAllKeyFile(f: KeyFiles, retired: seq<string>)
    requires AllPresent(f, retired) && retired != []
    ensures RetireAll(f, retired).keysFile == Stages.Terminated(RetireAll(f, retired).apikeys)
    decreases retired
  {
    if retired[1..] != [] {
      RetireAllKeyFile(RetireKey(f, retired[0]), retired[1..]);
    }
  }

  /** The articles from `j` on are article `j` and the articles after it. */
  lemma DropOne(items: seq<Item>, j: nat)
    requires j < |items|
    ensures multiset(items[j..]) == multiset{items[j]} + multiset(items[j + 1..])
  {
    assert items[j..] == [items[j]] + items[j + 1..];
  }

  /** Appending a complete row adds its article to the articles of the rows after the header. */
  lemma Written(rows: seq<seq<string>>, row: seq<string>)
    requires |rows| >= 1 && forall k :: 1 <= k < |rows| ==> |rows[k]| == Checkpoint.ColumnCount
    requires |row| == Checkpoint.ColumnCount
    ensures multiset(RowItems((rows + [row])[1..])) == multiset(RowItems(rows[1..])) + multiset{Checkpoint.RowItem(row)}
  {
    assert (rows + [row])[1..] == rows[1..] + [row];
    assert RowItems((rows + [row])[1..]) == RowItems(rows[1..]) + [Checkpoint.RowItem(row)];
  }

  // ---------------------------------------------------------------------------
  // The stage-1 collector and rounds, as functions of the handler's results

  /** What the collector has built: the checkpoint rows, the articles requeued, the keys retired. */
  datatype Collector = Collector(rows: seq<seq<string>>, pending: seq<Item>, retired: seq<string>)

  /**
   * The collector's step for one result, `pool` being the keys still active:
   * a summary appends its row, an error requeues its article, and a key
   * error requeues it and retires the key when the key is still in the pool.
   */
  function CollectStep(c: Collector, r: HandlerResult, pool: seq<string>): (d: Collector)
    requires WellFormed(r)
    ensures c.rows <= d.rows && c.pending <= d.pending && c.retired <= d.retired
    ensures |d.rows| + |d.pending| == |c.rows| + |c.pending| + (if r.NoResult? then 0 else 1)
    ensures |d.retired| <= |c.retired| + 1
  {
    match RouteOf(r)
    case WriteRow(row) => c.(rows := c.rows + [row])
    case Requeue(item) => c.(pending := c.pending + [item])
    case RetireAndRequeue(k, item) =>
      Collector(c.rows, c.pending + [item], c.retired + (if k in pool then [k] else []))
    case Crash => c
  }

  /**
   * The collection loop of one round over `results`, the results for
   * `items` in submission order, from a pool that started as `keys`: the
   * first missing result crashes the stage, leaving its article and the
   * uncollected ones pending.
   */
  function CollectAll(keys: seq<string>, c: Collector, items: seq<Item>, results: seq<HandlerResult>): (r: (bool, Collector))
    requires |results| == |items|
    requires forall i :: 0 <= i < |results| ==> WellFormed(results[i])
    ensures c.rows <= r.1.rows && c.pending <= r.1.pending && c.retired <= r.1.retired
    ensures |r.1.rows| + |r.1.pending| == |c.rows| + |c.pending| + |items|
    ensures r.0 ==> |r.1.pending| > |c.pending|
    decreases |results|
  {
    if results == [] then (false, c)
    else if results[0].NoResult? then (true, c.(pending := c.pending + items))
    else CollectAll(keys, CollectStep(c, results[0], Keys.Retire(keys, c.retired)), items[1..], results[1..])
  }

  /** A round's collection crashes exactly when one of its results is missing. */
  lemma {:induction false} CollectAllCrashes(keys: seq<string>, c: Collector, items: seq<Item>, results: seq<HandlerResult>)
    requires |results| == |items|
    requires forall i :: 0 <= i < |results| ==> WellFormed(results[i])
    ensures CollectAll(keys, c, items, results).0 <==> exists i :: 0 <= i < |results| && results[i].NoResult?
    decreases |results|
  {
    if results != [] && !results[0].NoResult? {
      var rest := results[1..];
      CollectAllCrashes(keys, CollectStep(c, results[0], Keys.Retire(keys, c.retired)), items[1..], rest);
      if exists i :: 0 <= i < |results| && results[i].NoResult? {
        var i :| 0 <= i < |results| && results[i].NoResult?;
        assert rest[i - 1] == results[i];
      }
    }
  }

  /** The handler's results for one round: article `i` summarized with its assigned key. */
  function RoundResults(keys: seq<string>, items: seq<Item>, round: nat, choice: (nat, nat) -> nat,
                        summarize: (nat, nat, string, Item) -> Stages.SummaryOutcome): (results: seq<HandlerResult>)
    requires keys != []
    ensures |results| == |items|
    ensures forall i :: 0 <= i < |items| ==> WellFormed(results[i])
    ensures forall i :: 0 <= i < |items| ==> !results[i].NoResult? ==> results[i].item == items[i]
  {
    var results := seq(|items|, i requires 0 <= i < |items| =>
      Handle(Keys.AssignedKey(keys, i, |items|, choice(round, i)), items[i],
             summarize(round, i, Keys.AssignedKey(keys, i, |items|, choice(round, i)), items[i])));
    forall i | 0 <= i < |items|
      ensures WellFormed(results[i]) && (!results[i].NoResult? ==> results[i].item == items[i])
    {
      var k := Keys.AssignedKey(keys, i, |items|, choice(round, i));
      assert results[i] == Handle(k, items[i], summarize(round, i, k, items[i]));
    }
    results
  }

  /**
   * `stage_1` from round `round` on: a round runs while articles are
   * pending, and fails when the pool left from `keys` is empty; a crash
   * ends the stage; `maxRounds` bounds the rounds modelled.
   */
  function Rounds(keys: seq<string>, round: nat, maxRounds: nat, c: Collector, choice: (nat, nat) -> nat,
                  summarize: (nat, nat, string, Item) -> Stages.SummaryOutcome): (r: (Stage1Outcome, Collector))
    ensures r.0.Finished? <==> r.1.pending == []
    ensures |r.1.rows| + |r.1.pending| == |c.rows| + |c.pending|
    ensures c.rows <= r.1.rows && c.retired <= r.1.retired
    decreases maxRounds - round
  {
    if c.pending == [] then (Finished, c)
    else if round >= maxRounds then (OutOfRounds, c)
    else
      var pool := Keys.Retire(keys, c.retired);
      if Keys.PoolSize(|pool|) == 0 then (PoolFailed, c)
      else
        var collected := CollectAll(keys, c.(pending := []), c.pending, RoundResults(pool, c.pending, round, choice, summarize));
        if collected.0 then (Crashed, collected.1)
        else Rounds(keys, round + 1, maxRounds, collected.1, choice, summarize)
  }

  /** `CollectAll` from result `j` on: the result at `j` either crashes or is collected before the rest. */
  lemma CollectAllStep(keys: seq<string>, c: Collector, items: seq<Item>, results: seq<HandlerResult>, j: nat)
    requires |results| == |items| && j < |results|
    requires forall i :: 0 <= i < |results| ==> WellFormed(results[i])
    ensures results[j].NoResult? ==>
      CollectAll(keys, c, items[j..], results[j..]) == (true, c.(pending := c.pending + items[j..]))
    ensures !results[j].NoResult? ==>
      CollectAll(keys, c, items[j..], results[j..]) ==
        CollectAll(keys, CollectStep(c, results[j], Keys.Retire(keys, c.retired)), items[j + 1..], results[j + 1..])
  {
    assert results[j..][0] == results[j];
    assert results[j..][1..] == results[j + 1..] && items[j..][1..] == items[j + 1..];
  }

  /** A round that runs: its collection decides whether the stage crashes or goes on to the next round. */
  lemma RoundsStep(keys: seq<string>, round: nat, maxRounds: nat, c: Collector, choice: (nat, nat) -> nat,
                   summarize: (nat, nat, string, Item) -> Stages.SummaryOutcome)
    requires c.pending != [] && round < maxRounds && Keys.Retire(keys, c.retired) != []
    ensures var collected := CollectAll(keys, c.(pending := []), c.pending,
                                        RoundResults(Keys.Retire(keys, c.retired), c.pending, round, choice, summarize));
      Rounds(keys, round, maxRounds, c, choice, summarize) ==
        if collected.0 then (Crashed, collected.1) else Rounds(keys, round + 1, maxRounds, collected.1, choice, summarize)
  {
  }

  /** A summary's step appends its row and nothing else. */
  lemma CollectStepSummary(c: Collector, r: HandlerResult, pool: seq<string>)
    requires Checkpoint.IsSummary(r)
    ensures WellFormed(r) && CollectStep(c, r, pool) == c.(rows := c.rows + [Checkpoint.SummaryRow(r)])
  {
  }

  lemma AppendOneThen(rows: seq<seq<string>>, row: seq<string>, more: seq<seq<string>>)
    ensures (rows + [row]) + more == rows + ([row] + more)
  {
  }

  /** A round in which every result is a summary writes their rows, in order, and requeues and retires nothing. */
  lemma {:induction false} CollectAllSummaries(keys: seq<string>, c: Collector, items: seq<Item>, results: seq<HandlerResult>)
    requires |results| == |items|
    requires forall i :: 0 <= i < |results| ==> Checkpoint.IsSummary(results[i])
    ensures forall i :: 0 <= i < |results| ==> WellFormed(results[i])
    ensures CollectAll(keys, c, items, results) == (false, Collector(c.rows + Checkpoint.SummaryRows(results), c.pending, c.retired))
    decreases |results|
  {
    if results != [] {
      var next := c.(rows := c.rows + [Checkpoint.SummaryRow(results[0])]);
      CollectStepSummary(c, results[0], Keys.Retire(keys, c.retired));
      assert forall i :: 0 <= i < |results[1..]| ==> results[1..][i] == results[i + 1];
      CollectAllSummaries(keys, next, items[1..], results[1..]);
      assert CollectAll(keys, c, items, results) == CollectAll(keys, next, items[1..], results[1..]);
      Checkpoint.SummaryRowsCons(results);
      AppendOneThen(c.rows, Checkpoint.SummaryRow(results[0]), Checkpoint.SummaryRows(results[1..]));
    } else {
      var none := Checkpoint.SummaryRows(results);
      assert |none| == 0;
      assert c.rows + none == c.rows;
    }
  }

  /**
   * When every article of the first round is summarized, `stage_1` finishes
   * after that round with one row per article, in gathering order, and
   * retires no key.
   */
  lemma RoundsAllSummarized(keys: seq<string>, maxRounds: nat, items: seq<Item>, choice: (nat, nat) -> nat,
                            summarize: (nat, nat, string, Item) -> Stages.SummaryOutcome)
    requires keys != [] && maxRounds > 0 && items != []
    requires forall i :: 0 <= i < |items| ==>
      summarize(0, i, Keys.AssignedKey(keys, i, |items|, choice(0, i)), items[i]).Summary?
    ensures var results := RoundResults(keys, items, 0, choice, summarize);
      && (forall i :: 0 <= i < |results| ==> Checkpoint.IsSummary(results[i]))
      && Rounds(keys, 0, maxRounds, Collector([Checkpoint.Header], items, []), choice, summarize)
           == (Finished, Collector([Checkpoint.Header] + Checkpoint.SummaryRows(results), [], []))
  {
    var results := RoundResults(keys, items, 0, choice, summarize);
    CollectAllSummaries(keys, Collector([Checkpoint.Header], [], []), items, results);
  }

  /** A stage that fails for want of keys has articles pending and has retired every key of the pool. */
  lemma {:induction false} RoundsPoolFailed(keys: seq<string>, round: nat, maxRounds: nat, c: Collector,
                                            choice: (nat, nat) -> nat,
                                            summarize: (nat, nat, string, Item) -> Stages.SummaryOutcome)
    ensures var r := Rounds(keys, round, maxRounds, c, choice, summarize);
      r.0 == PoolFailed ==> r.1.pending != [] && Keys.Retire(keys, r.1.retired) == []
    decreases maxRounds - round
  {
    if c.pending != [] && round < maxRounds {
      var pool := Keys.Retire(keys, c.retired);
      if Keys.PoolSize(|pool|) != 0 {
        var collected := CollectAll(keys, c.(pending := []), c.pending, RoundResults(pool, c.pending, round, choice, summarize));
        if !collected.0 {
          RoundsPoolFailed(keys, round + 1, maxRounds, collected.1, choice, summarize);
        }
      }
    }
  }

  // ---------------------------------------------------------------------------
  // The stage-2 loop, as a function of the order the categories are visited in

  /** Where the stage-2 loop stands: how it ended so far, the rows written, the keys retired. */
  datatype Stage2Run = Stage2Run(outcome: Stage2Outcome, lines: seq<Checkpoint.Stage2Line>, retired: seq<string>)

  /** The rows a category's call writes: its row exactly when the reply decodes to a truthy value. */
  function RowsFor(category: string, selection: Ranking.Selection, call: CategoryCall,
                   decode: string -> Option<Checkpoint.JsonValue>): (lines: seq<Checkpoint.Stage2Line>)
    ensures |lines| <= 1
    ensures lines != [] <==>
      call.Returned? && call.result.Some? && decode(call.result.value).Some? && Checkpoint.Truthy(decode(call.result.value).value)
    ensures lines != [] ==>
      lines[0] == Checkpoint.CategoryRow(category, selection.primaries, selection.secondaries, decode(call.result.value).value)
  {
    if call.Returned? && call.result.Some? && decode(call.result.value).Some? && Checkpoint.Truthy(decode(call.result.value).value) then
      [Checkpoint.CategoryRow(category, selection.primaries, selection.secondaries, decode(call.result.value).value)]
    else []
  }

  /**
   * The loop body for one category, `pool` being the keys still active: an
   * unknown category is skipped; a known one is ranked and categorised, its
   * retired keys are added, and a call that raises or returns `None` aborts
   * the stage; otherwise its row is written when the reply decodes truthy.
   */
  function VisitStep(run: Stage2Run, pool: seq<string>, category: string, titles: seq<Ranking.TitleRecord>, fuel: nat,
                     choice: (string, nat) -> nat, llm: (string, nat, string, string, string) -> Stages.LlmOutcome,
                     decode: string -> Option<Checkpoint.JsonValue>): (r: Stage2Run)
    ensures run.lines <= r.lines && |r.lines| <= |run.lines| + 1 && run.retired <= r.retired
    ensures r.outcome == run.outcome || r.outcome == Aborted(category)
  {
    if category !in Ranking.KnownCategories then run
    else
      var selection := Ranking.RankCategory(titles, category);
      var r := CategoryRetry(pool, selection.primaries, selection.secondaries, 0, fuel,
                             CategoryChoice(choice, category), CategoryLlm(llm, category));
      if r.0.Raised? || r.0.result.None? then Stage2Run(Aborted(category), run.lines, run.retired + r.1)
      else Stage2Run(run.outcome, run.lines + RowsFor(category, selection, r.0, decode), run.retired + r.1)
  }

  /** The stage-2 loop over the categories in `order`, from pool `keys`; nothing runs after an abort. */
  function Visits(keys: seq<string>, order: seq<string>, titles: seq<Ranking.TitleRecord>, fuel: nat,
                  choice: (string, nat) -> nat, llm: (string, nat, string, string, string) -> Stages.LlmOutcome,
                  decode: string -> Option<Checkpoint.JsonValue>): (r: Stage2Run)
    ensures |r.lines| <= |order|
    decreases |order|
  {
    if order == [] then Stage2Run(Completed, [], [])
    else
      var prev := Visits(keys, order[..|order| - 1], titles, fuel, choice, llm, decode);
      if prev.outcome.Aborted? then prev
      else VisitStep(prev, Keys.Retire(keys, prev.retired), order[|order| - 1], titles, fuel, choice, llm, decode)
  }

  /** Visiting one more category after `order`. */
  lemma VisitsSnoc(keys: seq<string>, order: seq<string>, category: string, titles: seq<Ranking.TitleRecord>, fuel: nat,
                   choice: (string, nat) -> nat, llm: (string, nat, string, string, string) -> Stages.LlmOutcome,
                   decode: string -> Option<Checkpoint.JsonValue>)
    ensures var prev := Visits(keys, order, titles, fuel, choice, llm, decode);
      Visits(keys, order + [category], titles, fuel, choice, llm, decode) ==
        if prev.outcome.Aborted? then prev
        else VisitStep(prev, Keys.Retire(keys, prev.retired), category, titles, fuel, choice, llm, decode)
  {
    assert (order + [category])[..|order|] == order;
  }

  /** An unknown category is skipped: the loop state does not change. */
  lemma VisitsSkip(keys: seq<string>, order: seq<string>, category: string, titles: seq<Ranking.TitleRecord>, fuel: nat,
                   choice: (string, nat) -> nat, llm: (string, nat, string, string, string) -> Stages.LlmOutcome,
                   decode: string -> Option<Checkpoint.JsonValue>)
    requires Visits(keys, order, titles, fuel, choice, llm, decode).outcome.Completed?
    requires category !in Ranking.KnownCategories
    ensures Visits(keys, order + [category], titles, fuel, choice, llm, decode) == Visits(keys, order, titles, fuel, choice, llm, decode)
  {
    VisitsSnoc(keys, order, category, titles, fuel, choice, llm, decode);
  }

  /**
   * A known category after a loop that has not aborted: its call, from the
   * keys left, aborts the loop or writes its rows, and adds its retired keys.
   */
  lemma VisitsKnown(keys: seq<string>, order: seq<string>, category: string, titles: seq<Ranking.TitleRecord>, fuel: nat,
                    choice: (string, nat) -> nat, llm: (string, nat, string, string, string) -> Stages.LlmOutcome,
                    decode: string -> Option<Checkpoint.JsonValue>,
                    lines: seq<Checkpoint.Stage2Line>, retired: seq<string>, call: CategoryCall, more: seq<string>)
    requires Visits(keys, order, titles, fuel, choice, llm, decode) == Stage2Run(Completed, lines, retired)
    requires category in Ranking.KnownCategories
    requires var selection := Ranking.RankCategory(titles, category);
      (call, more) == CategoryRetry(Keys.Retire(keys, retired), selection.primaries, selection.secondaries, 0, fuel,
                                    CategoryChoice(choice, category), CategoryLlm(llm, category))
    ensures Visits(keys, order + [category], titles, fuel, choice, llm, decode) ==
      if call.Raised? || call.result.None? then Stage2Run(Aborted(category), lines, retired + more)
      else Stage2Run(Completed, lines + RowsFor(category, Ranking.RankCategory(titles, category), call, decode), retired + more)
  {
    VisitsSnoc(keys, order, category, titles, fuel, choice, llm, decode);
  }

  /** Appending a new category keeps the visiting order free of repeats. */
  lemma DistinctSnoc(order: seq<string>, category: string)
    requires Keys.Distinct(order) && category !in order
    ensures Keys.Distinct(order + [category])
  {
    var longer := order + [category];
    forall i, j | 0 <= i < j < |longer| ensures longer[i] != longer[j] {
      assert longer[i] == order[i];
      if j < |order| {
        assert longer[j] == order[j];
      }
    }
  }

  /**
   * The keys the loop retires were each still in the pool at their turn:
   * every category's retry draws only from the keys the earlier ones left.
   */
  lemma {:induction false} VisitsRetires(keys: seq<string>, order: seq<string>, titles: seq<Ranking.TitleRecord>, fuel: nat,
                                         choice: (string, nat) -> nat, llm: (string, nat, string, string, string) -> Stages.LlmOutcome,
                                         decode: string -> Option<Checkpoint.JsonValue>)
    ensures var run := Visits(keys, order, titles, fuel, choice, llm, decode);
      Keys.RetiresPresent(keys, run.retired) && |run.retired| <= |keys|
    decreases |order|
  {
    if order != [] {
      var init, category := order[..|order| - 1], order[|order| - 1];
      var prev := Visits(keys, init, titles, fuel, choice, llm, decode);
      VisitsRetires(keys, init, titles, fuel, choice, llm, decode);
      if !prev.outcome.Aborted? && category in Ranking.KnownCategories {
        var pool := Keys.Retire(keys, prev.retired);
        var selection := Ranking.RankCategory(titles, category);
        var more := CategoryRetry(pool, selection.primaries, selection.secondaries, 0, fuel,
                                  CategoryChoice(choice, category), CategoryLlm(llm, category)).1;
        CategoryRetryRetires(pool, selection.primaries, selection.secondaries, 0, fuel,
                             CategoryChoice(choice, category), CategoryLlm(llm, category));
        Keys.RetireAppend(keys, prev.retired, more);
        Keys.RetireMultiset(keys, prev.retired);
        assert |multiset(keys)| == |multiset(pool)| + |multiset(prev.retired)|;
      }
    }
  }

  /**
   * A completed loop aborted nowhere: after every prefix of the visiting
   * order, the loop had not aborted, so no visited category's call raised
   * or returned `None`.
   */
  lemma {:induction false} VisitsCompleted(keys: seq<string>, order: seq<string>, titles: seq<Ranking.TitleRecord>, fuel: nat,
                                           choice: (string, nat) -> nat, llm: (string, nat, string, string, string) -> Stages.LlmOutcome,
                                           decode: string -> Option<Checkpoint.JsonValue>)
    requires Visits(keys, order, titles, fuel, choice, llm, decode).outcome.Completed?
    ensures forall k :: 0 <= k <= |order| ==> Visits(keys, order[..k], titles, fuel, choice, llm, decode).outcome.Completed?
    decreases |order|
  {
    if order != [] {
      var init := order[..|order| - 1];
      var prev := Visits(keys, init, titles, fuel, choice, llm, decode);
      VisitsNeverNoHeader(keys, init, titles, fuel, choice, llm, decode);
      VisitsCompleted(keys, init, titles, fuel, choice, llm, decode);
      forall k | 0 <= k <= |order| ensures Visits(keys, order[..k], titles, fuel, choice, llm, decode).outcome.Completed? {
        if k < |order| {
          assert order[..k] == init[..k];
        } else {
          assert order[..k] == order;
        }
      }
    }
  }

  /** The loop itself never reports a missing header. */
  lemma {:induction false} VisitsNeverNoHeader(keys: seq<string>, order: seq<string>, titles: seq<Ranking.TitleRecord>, fuel: nat,
                                               choice: (string, nat) -> nat, llm: (string, nat, string, string, string) -> Stages.LlmOutcome,
                                               decode: string -> Option<Checkpoint.JsonValue>)
    ensures !Visits(keys, order, titles, fuel, choice, llm, decode).outcome.NoHeader?
    decreases |order|
  {
    if order != [] {
      VisitsNeverNoHeader(keys, order[..|order| - 1], titles, fuel, choice, llm, decode);
    }
  }

  /** An aborted loop names a known category it visited. */
  lemma {:induction false} VisitsAborted(keys: seq<string>, order: seq<string>, titles: seq<Ranking.TitleRecord>, fuel: nat,
                                         choice: (string, nat) -> nat, llm: (string, nat, string, string, string) -> Stages.LlmOutcome,
                                         decode: string -> Option<Checkpoint.JsonValue>)
    ensures var run := Visits(keys, order, titles, fuel, choice, llm, decode);
      run.outcome.Aborted? ==> run.outcome.category in order && run.outcome.category in Ranking.KnownCategories
    decreases |order|
  {
    if order != [] {
      var init := order[..|order| - 1];
      VisitsAborted(keys, init, titles, fuel, choice, llm, decode);
      var run := Visits(keys, order, titles, fuel, choice, llm, decode);
      if run.outcome.Aborted? && run.outcome.category in init {
        var k :| 0 <= k < |init| && init[k] == run.outcome.category;
        assert order[k] == init[k];
      }
    }
  }

  class Analyzer {
    /** The active keys. */
    var apikeys: seq<string>
    /** The text of `keys/keys.txt`. */
    var keysFile: seq<string>
    /** The text of `keys/invalid_keys.txt`. */
    var invalidFile: seq<string>

    /** The constructor, given the lines `readlines()` returns for the key file and the invalid-key log. */
    constructor(keyLines: seq<string>, invalidLines: seq<string>)
      ensures apikeys == Keys.LoadKeys(keyLines)
      ensures keysFile == keyLines && invalidFile == invalidLines
    {
      apikeys := Keys.LoadKeys(keyLines);
      keysFile := keyLines;
      invalidFile := invalidLines;
    }

    /**
     * `log_invalid_key`: a present key loses its first occurrence, the key
     * file is rewritten with the remaining keys and the key is appended to
     * the invalid-key log; an absent key changes nothing.
     */
    method LogInvalidKey(apikey: string)
      modifies this
      ensures apikey in old(apikeys) ==>
        && apikeys == Keys.RemoveFirst(old(apikeys), apikey)
        && keysFile == Stages.Terminated(apikeys)
        && invalidFile == old(invalidFile) + [apikey + "\n"]
      ensures apikey !in old(apikeys) ==>
        apikeys == old(apikeys) && keysFile == old(keysFile) && invalidFile == old(invalidFile)
      ensures Files() == RetireKey(old(Files()), apikey)
    {
      if apikey in apikeys {
        apikeys := Keys.RemoveFirst(apikeys, apikey);
        keysFile := WriteLines(apikeys);
        invalidFile := invalidFile + [apikey + "\n"];
      }
    }

    /** The pool and the two key files, as one value. */
    function Files(): KeyFiles
      reads this
    {
      KeyFiles(apikeys, keysFile, invalidFile)
    }

    /** The key state is `start` after retiring `retired`, in order, each key still in the pool at its turn. */
    ghost predicate KeyState(start: KeyFiles, retired: seq<string>)
      reads this
    {
      Files() == RetireAll(start, retired) && AllPresent(start, retired)
    }

    /** `log_invalid_key(k)` in a stage that keeps the list of keys it retired. */
    method Retire(k: string, ghost start: KeyFiles, retired: seq<string>) returns (retired': seq<string>)
      requires KeyState(start, retired)
      modifies this
      ensures KeyState(start, retired')
      ensures retired' == (if k in old(apikeys) then retired + [k] else retired)
    {
      retired' := retired;
      if k in apikeys {
        retired' := retired + [k];
        RetireAllAppend(start, retired, [k]);
        RetireAllOne(Files(), k);
      }
      LogInvalidKey(k);
    }

    /** The collection loop of `stage_1`: every document of every collection, as an article. */
    method GatherArticles(db: string -> seq<Item>) returns (articles: seq<Item>)
      ensures articles == Gathered(db, CollectionNames)
    {
      articles := [];
      var c := 0;
      while c < |CollectionNames|
        invariant 0 <= c <= |CollectionNames|
        invariant articles == Gathered(db, CollectionNames[..c])
      {
        var documents := db(CollectionNames[c]);
        assert CollectionNames[..c + 1][..c] == CollectionNames[..c];
        ghost var before := articles;
        var d := 0;
        while d < |documents|
          invariant 0 <= d <= |documents|
          invariant articles == before + documents[..d]
        {
          assert documents[..d + 1] == documents[..d] + [documents[d]];
          articles := articles + [documents[d]];
          d := d + 1;
        }
        assert documents[..d] == documents;
        c := c + 1;
      }
      assert CollectionNames[..c] == CollectionNames;
    }

    /**
     * One round's submissions: article `i` of the pending list gets its key
     * by round-robin over the pool, or a random member when the pool is
     * larger than the list, and the handler's result for it.
     */
    static method SubmitRound(keys: seq<string>, items: seq<Item>, round: nat,
                              choice: (nat, nat) -> nat, summarize: (nat, nat, string, Item) -> Stages.SummaryOutcome)
      returns (results: seq<HandlerResult>)
      requires |keys| > 0
      ensures |results| == |items|
      ensures forall i :: 0 <= i < |items| ==>
        results[i] == Handle(Keys.AssignedKey(keys, i, |items|, choice(round, i)), items[i],
                             summarize(round, i, Keys.AssignedKey(keys, i, |items|, choice(round, i)), items[i]))
      ensures results == RoundResults(keys, items, round, choice, summarize)
    {
      results := [];
      var i := 0;
      while i < |items|
        invariant 0 <= i <= |items| && |results| == i
        invariant forall j :: 0 <= j < i ==>
          results[j] == Handle(Keys.AssignedKey(keys, j, |items|, choice(round, j)), items[j],
                               summarize(round, j, Keys.AssignedKey(keys, j, |items|, choice(round, j)), items[j]))
      {
        var apikey := keys[i % |keys|];
        if |keys| > |items| {
          apikey := keys[choice(round, i) % |keys|];
        }
        var r := ThreadHandler(apikey, items[i], summarize(round, i, apikey, items[i]));
        results := results + [r];
        i := i + 1;
      }
    }

    /** A checkpoint file of `summarized` complete rows after the header. */
    static predicate Checkpointed(rows: seq<seq<string>>, summarized: nat) {
      && |rows| == 1 + summarized && rows[0] == Checkpoint.Header
      && (forall j :: 1 <= j < |rows| ==> |rows[j]| == Checkpoint.ColumnCount)
    }

    /**
     * Every article of `all` is accounted for once: by a row of the
     * checkpoint, as pending, or among the `rest` not yet collected.
     */
    static predicate Accounted(rows: seq<seq<string>>, summarized: nat, pending: seq<Item>, rest: seq<Item>, all: seq<Item>) {
      && Checkpointed(rows, summarized)
      && summarized + |pending| + |rest| == |all|
      && multiset(RowItems(rows[1..])) + multiset(pending) + multiset(rest) == multiset(all)
    }

    /** Collecting the article at `j` moves it from the uncollected rest to the rows or the pending list. */
    static lemma AccountedCollect(rows: seq<seq<string>>, summarized: nat, pending: seq<Item>, items: seq<Item>, j: nat,
                                  all: seq<Item>, rows': seq<seq<string>>, summarized': nat, pending': seq<Item>)
      requires j < |items| && Accounted(rows, summarized, pending, items[j..], all)
      requires Checkpointed(rows', summarized')
      requires summarized' + |pending'| == summarized + |pending| + 1
      requires multiset(RowItems(rows'[1..])) + multiset(pending') ==
        multiset(RowItems(rows[1..])) + multiset(pending) + multiset{items[j]}
      ensures Accounted(rows', summarized', pending', items[j + 1..], all)
    {
      DropOne(items, j);
    }

    /** A crash leaves the uncollected rest pending. */
    static lemma AccountedCrash(rows: seq<seq<string>>, summarized: nat, pending: seq<Item>, rest: seq<Item>, all: seq<Item>)
      requires Accounted(rows, summarized, pending, rest, all)
      ensures summarized + |pending + rest| == |all|
      ensures multiset(RowItems(rows[1..])) + multiset(pending + rest) == multiset(all)
    {
    }

    /**
     * The collector's step for one result: a summary appends its row, a
     * failure requeues its article, a key error also retires its key, and a
     * missing result crashes the stage.
     */
    method CollectOne(item: Item, r: HandlerResult, rows: seq<seq<string>>, summarized: nat, pending: seq<Item>,
                      retired: seq<string>, ghost start: KeyFiles)
      returns (crashed: bool, rows': seq<seq<string>>, summarized': nat, pending': seq<Item>, retired': seq<string>)
      requires WellFormed(r) && (!r.NoResult? ==> r.item == item)
      requires Checkpointed(rows, summarized)
      requires KeyState(start, retired)
      modifies this
      ensures crashed <==> r.NoResult?
      ensures Checkpointed(rows', summarized')
      ensures KeyState(start, retired')
      ensures !crashed ==> summarized' + |pending'| == summarized + |pending| + 1
      ensures !crashed ==>
        multiset(RowItems(rows'[1..])) + multiset(pending') == multiset(RowItems(rows[1..])) + multiset(pending) + multiset{item}
      ensures crashed ==> rows' == rows && summarized' == summarized && pending' == pending && retired' == retired
      ensures RouteOf(r).WriteRow? ==>
        rows' == rows + [RouteOf(r).row] && pending' == pending && retired' == retired
      ensures RouteOf(r).Requeue? ==>
        pending' == pending + [item] && rows' == rows && retired' == retired
      ensures RouteOf(r).RetireAndRequeue? ==>
        && pending' == pending + [item] && rows' == rows
        && retired' == retired + (if r.apikey in old(apikeys) then [r.apikey] else [])
      ensures !crashed ==> Collector(rows', pending', retired') == CollectStep(Collector(rows, pending, retired), r, old(apikeys))
    {
      crashed, rows', summarized', pending', retired' := false, rows, summarized, pending, retired;
      match RouteOf(r) {
        case Crash =>
          crashed := true;
        case RetireAndRequeue(apikey, requeued) =>
          retired' := Retire(apikey, start, retired);
          pending' := pending + [requeued];
        case Requeue(requeued) =>
          pending' := pending + [requeued];
        case WriteRow(row) =>
          Written(rows, row);
          rows' := rows + [row];
          summarized' := summarized + 1;
      }
    }

    /**
     * The collection loop of one round: the results are read in submission
     * order; a missing result stops the stage (`crashed`), the articles not
     * yet collected staying pending.
     */
    method CollectRound(items: seq<Item>, results: seq<HandlerResult>, rows: seq<seq<string>>, summarized: nat,
                        retired: seq<string>, ghost all: seq<Item>,
                        ghost start: KeyFiles)
      returns (crashed: bool, rows': seq<seq<string>>, summarized': nat, pending: seq<Item>, retired': seq<string>)
      requires |results| == |items|
      requires forall i :: 0 <= i < |items| ==> WellFormed(results[i]) && (!results[i].NoResult? ==> results[i].item == items[i])
      requires Checkpointed(rows, summarized)
      requires summarized + |items| == |all|
      requires multiset(RowItems(rows[1..])) + multiset(items) == multiset(all)
      requires KeyState(start, retired)
      modifies this
      ensures Checkpointed(rows', summarized')
      ensures summarized' + |pending| == |all|
      ensures multiset(RowItems(rows'[1..])) + multiset(pending) == multiset(all)
      ensures KeyState(start, retired')
      ensures crashed ==> pending != []
      ensures (crashed, Collector(rows', pending, retired')) ==
        CollectAll(start.apikeys, Collector(rows, [], retired), items, results)
    {
      rows', summarized', pending, retired' := rows, summarized, [], retired;
      crashed := false;
      var j := 0;
      assert items[j..] == items && results[j..] == results;
      while j < |results|
        invariant 0 <= j <= |results|
        invariant Accounted(rows', summarized', pending, items[j..], all)
        invariant KeyState(start, retired')
        invariant CollectAll(start.apikeys, Collector(rows', pending, retired'), items[j..], results[j..]) ==
          CollectAll(start.apikeys, Collector(rows, [], retired), items, results)
      {
        crashed, rows', summarized', pending, retired' :=
          CollectAt(j, items, results, rows', summarized', pending, retired', all, start,
                    CollectAll(start.apikeys, Collector(rows, [], retired), items, results));
        if crashed {
          return;
        }
        j := j + 1;
      }
      assert multiset(items[j..]) == multiset{};
    }

    /**
     * One turn of the collection loop, `goal` being what the whole loop
     * collects: the result at `j` is collected, or it crashes the stage and
     * leaves its article and every later one pending.
     */
    method CollectAt(j: nat, items: seq<Item>, results: seq<HandlerResult>, rows: seq<seq<string>>, summarized: nat,
                     pending: seq<Item>, retired: seq<string>, ghost all: seq<Item>, ghost start: KeyFiles,
                     ghost goal: (bool, Collector))
      returns (crashed: bool, rows': seq<seq<string>>, summarized': nat, pending': seq<Item>, retired': seq<string>)
      requires |results| == |items| && j < |results|
      requires forall i :: 0 <= i < |items| ==> WellFormed(results[i]) && (!results[i].NoResult? ==> results[i].item == items[i])
      requires Accounted(rows, summarized, pending, items[j..], all)
      requires KeyState(start, retired)
      requires CollectAll(start.apikeys, Collector(rows, pending, retired), items[j..], results[j..]) == goal
      modifies this
      ensures KeyState(start, retired')
      ensures crashed <==> results[j].NoResult?
      ensures !crashed ==> Accounted(rows', summarized', pending', items[j + 1..], all)
      ensures !crashed ==>
        CollectAll(start.apikeys, Collector(rows', pending', retired'), items[j + 1..], results[j + 1..]) == goal
      ensures crashed ==>
        && Checkpointed(rows', summarized') && summarized' + |pending'| == |all|
        && multiset(RowItems(rows'[1..])) + multiset(pending') == multiset(all)
        && pending' != [] && goal == (true, Collector(rows', pending', retired'))
    {
      RetireAllKeys(start, retired);
      CollectAllStep(start.apikeys, Collector(rows, pending, retired), items, results, j);
      crashed, rows', summarized', pending', retired' :=
        CollectOne(items[j], results[j], rows, summarized, pending, retired, start);
      if crashed {
        AccountedCrash(rows', summarized', pending', items[j..], all);
        pending' := pending' + items[j..];
      } else {
        AccountedCollect(rows, summarized, pending, items, j, all, rows', summarized', pending');
      }
    }

    /**
     * `stage_1`: gathers the articles, writes the header, and runs rounds
     * until no article is pending; each round submits every pending article
     * and collects the results. `maxRounds` bounds the rounds modelled.
     *
     * `rows` is the new checkpoint file; `pending` is what is still owed a
     * row when the stage ends; `retired` lists the keys retired, in order.
     * Every gathered article is accounted for exactly once, by a row or as pending.
     */
    method Stage1(db: string -> seq<Item>, maxRounds: nat, choice: (nat, nat) -> nat,
                  summarize: (nat, nat, string, Item) -> Stages.SummaryOutcome)
      returns (outcome: Stage1Outcome, rows: seq<seq<string>>, summarized: nat, pending: seq<Item>, retired: seq<string>)
      modifies this
      ensures Checkpointed(rows, summarized)
      ensures summarized + |pending| == |Gathered(db, CollectionNames)|
      ensures multiset(RowItems(rows[1..])) + multiset(pending) == multiset(Gathered(db, CollectionNames))
      ensures outcome.Finished? <==> pending == []
      ensures outcome.Finished? ==> multiset(RowItems(rows[1..])) == multiset(Gathered(db, CollectionNames))
      ensures outcome.PoolFailed? ==> apikeys == []
      ensures KeyState(old(Files()), retired)
      ensures (outcome, Collector(rows, pending, retired)) ==
        Rounds(old(apikeys), 0, maxRounds, Collector([Checkpoint.Header], Gathered(db, CollectionNames), []), choice, summarize)
    {
      var articles := GatherArticles(db);
      ghost var all := articles;
      ghost var start := Files();
      rows := [Checkpoint.Header];
      summarized := 0;
      retired := [];
      pending := articles;
      var round := 0;
      while pending != []
        invariant round <= maxRounds
        invariant Accounted(rows, summarized, pending, [], all)
        invariant KeyState(start, retired)
        invariant Rounds(start.apikeys, round, maxRounds, Collector(rows, pending, retired), choice, summarize) ==
          Rounds(start.apikeys, 0, maxRounds, Collector([Checkpoint.Header], all, []), choice, summarize)
        decreases maxRounds - round
      {
        RetireAllKeys(start, retired);
        if round == maxRounds {
          outcome := OutOfRounds;
          return;
        }
        if Keys.PoolSize(|apikeys|) == 0 {
          outcome := PoolFailed;
          return;
        }
        RoundsStep(start.apikeys, round, maxRounds, Collector(rows, pending, retired), choice, summarize);
        var crashed;
        crashed, rows, summarized, pending, retired := RunRound(round, rows, summarized, pending, retired, all, start, choice, summarize);
        if crashed {
          outcome := Crashed;
          return;
        }
        round := round + 1;
      }
      outcome := Finished;
    }

    /** One round of `stage_1`: submit every pending article, then collect the results in order. */
    method RunRound(round: nat, rows: seq<seq<string>>, summarized: nat, pending: seq<Item>, retired: seq<string>,
                    ghost all: seq<Item>, ghost start: KeyFiles, choice: (nat, nat) -> nat,
                    summarize: (nat, nat, string, Item) -> Stages.SummaryOutcome)
      returns (crashed: bool, rows': seq<seq<string>>, summarized': nat, pending': seq<Item>, retired': seq<string>)
      requires apikeys != [] && Accounted(rows, summarized, pending, [], all) && KeyState(start, retired)
      modifies this
      ensures Accounted(rows', summarized', pending', [], all) && KeyState(start, retired')
      ensures crashed ==> pending' != []
      ensures (crashed, Collector(rows', pending', retired')) ==
        CollectAll(start.apikeys, Collector(rows, [], retired), pending, RoundResults(old(apikeys), pending, round, choice, summarize))
    {
      var results := SubmitRound(apikeys, pending, round, choice, summarize);
      var none: seq<Item> := [];
      assert multiset(pending) + multiset(none) == multiset(pending);
      crashed, rows', summarized', pending', retired' := CollectRound(pending, results, rows, summarized, retired, all, start);
      assert pending' + [] == pending';
    }

    /**
     * `stage_2_category` at recursion depth `depth`: draws a key, calls
     * `categorize`, and on an authentication error retires the key and
     * retries; on a rate-limit error of either expected kind it retries with
     * the same pool. Only a first-attempt success is returned.
     */
    method Stage2Category(primaries: seq<string>, secondaries: seq<string>, depth: nat, fuel: nat,
                          choice: nat -> nat, llm: (nat, string, string, string) -> Stages.LlmOutcome)
      returns (call: CategoryCall, retired: seq<string>)
      modifies this
      decreases fuel, 1
      ensures (call, retired) == CategoryRetry(old(apikeys), primaries, secondaries, depth, fuel, choice, llm)
      ensures KeyState(old(Files()), retired)
    {
      ghost var keys, start := apikeys, Files();
      if |apikeys| == 0 || fuel == 0 {
        return Raised, [];
      }
      var apikey := apikeys[choice(depth) % |apikeys|];
      var outcome := Stages.Categorize(primaries, secondaries, (p, s) => llm(depth, apikey, p, s));
      ghost var attempt := Attempt(keys, primaries, secondaries, depth, choice, llm);
      assert attempt == llm(depth, apikey, PrimaryBlockText(primaries), SecondaryBlockText(secondaries));
      match outcome {
        case Categorized(result, _) =>
          call, retired := Returned(Some(result)), [];
          assert (call, retired) == CategoryRetry(keys, primaries, secondaries, depth, fuel, choice, llm);
        case CatInvalidRequest =>
          call, retired := Returned(None), [];
          assert (call, retired) == CategoryRetry(keys, primaries, secondaries, depth, fuel, choice, llm);
        case CatAuthenticationFailed =>
          RetryAfterAuthentication(keys, primaries, secondaries, depth, fuel, choice, llm);
          call, retired := RetryWithout(apikey, primaries, secondaries, depth, fuel, choice, llm);
        case CatRateLimited(errorType, errorCode) =>
          if errorType == "insufficient_quota" || errorCode == "rate_limit_exceeded" {
            RetryAfterRateLimit(keys, primaries, secondaries, depth, fuel, choice, llm);
            call, retired := Stage2Category(primaries, secondaries, depth + 1, fuel - 1, choice, llm);
            call := Discarded(call);
            assert (call, retired) == CategoryRetry(keys, primaries, secondaries, depth, fuel, choice, llm);
          } else {
            call, retired := Returned(None), [];
            assert (call, retired) == CategoryRetry(keys, primaries, secondaries, depth, fuel, choice, llm);
          }
        case CatOtherError =>
          call, retired := Raised, [];
          assert (call, retired) == CategoryRetry(keys, primaries, secondaries, depth, fuel, choice, llm);
      }
    }

    /**
     * The authentication-error branch of `stage_2_category`: retires the
     * drawn key `apikey` and retries one level deeper with the smaller pool.
     */
    method RetryWithout(apikey: string, primaries: seq<string>, secondaries: seq<string>, depth: nat, fuel: nat,
                        choice: nat -> nat, llm: (nat, string, string, string) -> Stages.LlmOutcome)
      returns (call: CategoryCall, retired: seq<string>)
      requires apikey in apikeys && fuel > 0
      modifies this
      decreases fuel, 0
      ensures var retry := CategoryRetry(Keys.RemoveFirst(old(apikeys), apikey), primaries, secondaries, depth + 1, fuel - 1, choice, llm);
        (call, retired) == (Discarded(retry.0), [apikey] + retry.1)
      ensures KeyState(old(Files()), retired)
    {
      ghost var start := Files();
      LogInvalidKey(apikey);
      RetireAllOne(start, apikey);
      var retry, more := Stage2Category(primaries, secondaries, depth + 1, fuel - 1, choice, llm);
      RetireAllAppend(start, [apikey], more);
      call, retired := Discarded(retry), [apikey] + more;
    }

    /**
     * Each line is the row of a distinct known category among `visited`,
     * holding that category's ranked selection of `titles` and truthy
     * cluster data.
     */
    static predicate RankedRows(lines: seq<Checkpoint.Stage2Line>, titles: seq<Ranking.TitleRecord>, visited: set<string>) {
      && (forall i :: 0 <= i < |lines| ==> RankedLine(lines[i], titles, visited))
      && (forall i, j :: 0 <= i < j < |lines| ==> lines[i].category != lines[j].category)
    }

    static predicate RankedLine(line: Checkpoint.Stage2Line, titles: seq<Ranking.TitleRecord>, visited: set<string>) {
      && line.CategoryRow?
      && line.category in Ranking.KnownCategories
      && line.category in visited
      && Ranking.RankCategory(titles, line.category) == Ranking.Selection(line.primaries, line.secondaries)
      && Checkpoint.Truthy(line.clusters)
    }

    /** Visiting one more category keeps the rows ranked. */
    static lemma RankedRowsVisit(lines: seq<Checkpoint.Stage2Line>, titles: seq<Ranking.TitleRecord>, visited: set<string>, category: string)
      requires RankedRows(lines, titles, visited)
      ensures RankedRows(lines, titles, visited + {category})
    {
      forall i | 0 <= i < |lines| ensures RankedLine(lines[i], titles, visited + {category}) {
        assert RankedLine(lines[i], titles, visited);
      }
    }

    /** Appending the row of a visited category with no row yet keeps the rows ranked. */
    static lemma RankedRowsAppend(lines: seq<Checkpoint.Stage2Line>, titles: seq<Ranking.TitleRecord>, visited: set<string>,
                                  row: Checkpoint.Stage2Line)
      requires RankedRows(lines, titles, visited)
      requires RankedLine(row, titles, visited)
      requires forall i :: 0 <= i < |lines| ==> lines[i].category != row.category
      ensures RankedRows(lines + [row], titles, visited)
    {
      var extended := lines + [row];
      forall i | 0 <= i < |extended| ensures RankedLine(extended[i], titles, visited) {
        if i < |lines| {
          assert extended[i] == lines[i];
        }
      }
      forall i, j | 0 <= i < j < |extended| ensures extended[i].category != extended[j].category {
        assert extended[i] == lines[i];
        if j < |lines| {
          assert extended[j] == lines[j];
        }
      }
    }

    /**
     * The body of `stage_2`'s loop for a known category: ranks its titles,
     * categorises them with the category's own key choices and model calls,
     * and decodes the reply; `row` is the row to write, present only when
     * the reply decodes to a truthy value.
     */
    method VisitCategory(category: string, titles: seq<Ranking.TitleRecord>, fuel: nat, choice: (string, nat) -> nat,
                         llm: (string, nat, string, string, string) -> Stages.LlmOutcome,
                         decode: string -> Option<Checkpoint.JsonValue>)
      returns (call: CategoryCall, row: Option<Checkpoint.Stage2Line>, retired: seq<string>)
      modifies this
      ensures var selection := Ranking.RankCategory(titles, category);
        (call, retired) == CategoryRetry(old(apikeys), selection.primaries, selection.secondaries, 0, fuel,
                                         CategoryChoice(choice, category), CategoryLlm(llm, category))
      ensures KeyState(old(Files()), retired)
      ensures row.Some? <==>
        call.Returned? && call.result.Some? && decode(call.result.value).Some? && Checkpoint.Truthy(decode(call.result.value).value)
      ensures row.Some? ==> var selection := Ranking.RankCategory(titles, category);
        row.value == Checkpoint.CategoryRow(category, selection.primaries, selection.secondaries, decode(call.result.value).value)
      ensures (if row.Some? then [row.value] else []) == RowsFor(category, Ranking.RankCategory(titles, category), call, decode)
    {
      var selection := Ranking.RankCategory(titles, category);
      call, retired := Stage2Category(selection.primaries, selection.secondaries, 0, fuel,
                                      CategoryChoice(choice, category), CategoryLlm(llm, category));
      row := None;
      if call.Returned? && call.result.Some? {
        match decode(call.result.value) {
          case None =>
          case Some(data) =>
            if Checkpoint.Truthy(data) {
              row := Some(Checkpoint.CategoryRow(category, selection.primaries, selection.secondaries, data));
            }
        }
      }
    }

    /**
     * The state of `stage_2`'s loop before it aborts: the rows are ranked,
     * the keys retired so far are logged, and `order` lists the visited
     * categories once each, in the order the loop took them, with the loop
     * so far being `Visits` over that order.
     */
    ghost predicate VisitLoop(start: KeyFiles, titles: seq<Ranking.TitleRecord>, fuel: nat, choice: (string, nat) -> nat,
                              llm: (string, nat, string, string, string) -> Stages.LlmOutcome,
                              decode: string -> Option<Checkpoint.JsonValue>,
                              lines: seq<Checkpoint.Stage2Line>, visited: set<string>, retired: seq<string>, order: seq<string>)
      reads this
    {
      && RankedRows(lines, titles, visited)
      && KeyState(start, retired)
      && (forall c :: c in visited <==> c in order)
      && Keys.Distinct(order)
      && Visits(start.apikeys, order, titles, fuel, choice, llm, decode) == Stage2Run(Completed, lines, retired)
    }

    /**
     * One turn of `stage_2`'s loop: `category` is taken; an unknown one is
     * skipped, a known one is categorised and may abort the loop.
     */
    method VisitNext(category: string, titles: seq<Ranking.TitleRecord>, fuel: nat, choice: (string, nat) -> nat,
                     llm: (string, nat, string, string, string) -> Stages.LlmOutcome,
                     decode: string -> Option<Checkpoint.JsonValue>,
                     lines: seq<Checkpoint.Stage2Line>, visited: set<string>, retired: seq<string>,
                     ghost order: seq<string>, ghost start: KeyFiles)
      returns (aborted: bool, lines': seq<Checkpoint.Stage2Line>, retired': seq<string>, ghost order': seq<string>)
      requires VisitLoop(start, titles, fuel, choice, llm, decode, lines, visited, retired, order)
      requires category !in visited
      modifies this
      ensures order' == order + [category]
      ensures !aborted ==> VisitLoop(start, titles, fuel, choice, llm, decode, lines', visited + {category}, retired', order')
      ensures aborted ==>
        && category in Ranking.KnownCategories
        && RankedRows(lines', titles, visited + {category})
        && KeyState(start, retired')
        && (forall c :: c in visited + {category} <==> c in order')
        && Keys.Distinct(order')
        && Visits(start.apikeys, order', titles, fuel, choice, llm, decode) == Stage2Run(Aborted(category), lines', retired')
    {
      RetireAllKeys(start, retired);
      DistinctSnoc(order, category);
      order' := order + [category];
      assert forall i :: 0 <= i < |lines| ==> lines[i].category != category by {
        forall i | 0 <= i < |lines| ensures lines[i].category in visited {
          assert RankedLine(lines[i], titles, visited);
        }
      }
      RankedRowsVisit(lines, titles, visited, category);
      aborted, lines', retired' := false, lines, retired;
      if category !in Ranking.KnownCategories {
        VisitsSkip(start.apikeys, order, category, titles, fuel, choice, llm, decode);
        return;
      }
      var call, row, more := VisitCategory(category, titles, fuel, choice, llm, decode);
      VisitsKnown(start.apikeys, order, category, titles, fuel, choice, llm, decode, lines, retired, call, more);
      RetireAllAppend(start, retired, more);
      retired' := retired + more;
      if call.Raised? || call.result.None? {
        aborted := true;
        return;
      }
      ghost var written := RowsFor(category, Ranking.RankCategory(titles, category), call, decode);
      if row.Some? {
        assert written == [row.value];
        RankedRowsAppend(lines, titles, visited + {category}, row.value);
        lines' := lines + [row.value];
      } else {
        assert lines + written == lines;
      }
    }

    /**
     * The loop of `stage_2`: visits `categories` in set order until one
     * aborts, writing the row of each known category whose reply decodes to
     * a truthy value. `order` is the order the categories were taken in.
     */
    method VisitAll(titles: seq<Ranking.TitleRecord>, categories: set<string>, fuel: nat, choice: (string, nat) -> nat,
                    llm: (string, nat, string, string, string) -> Stages.LlmOutcome,
                    decode: string -> Option<Checkpoint.JsonValue>)
      returns (outcome: Stage2Outcome, lines: seq<Checkpoint.Stage2Line>, visited: set<string>, retired: seq<string>,
               ghost order: seq<string>)
      modifies this
      ensures !outcome.NoHeader? && visited <= categories
      ensures outcome.Completed? ==> visited == categories
      ensures outcome.Aborted? ==> outcome.category in visited && outcome.category in Ranking.KnownCategories
      ensures RankedRows(lines, titles, visited)
      ensures KeyState(old(Files()), retired)
      ensures forall c :: c in visited <==> c in order
      ensures Keys.Distinct(order)
      ensures outcome.Aborted? ==> order != [] && outcome.category == order[|order| - 1]
      ensures Stage2Run(outcome, lines, retired) == Visits(old(apikeys), order, titles, fuel, choice, llm, decode)
    {
      lines, visited, retired, order := [], {}, [], [];
      ghost var start := Files();
      var remaining := categories;
      while remaining != {}
        invariant visited + remaining == categories && visited !! remaining
        invariant VisitLoop(start, titles, fuel, choice, llm, decode, lines, visited, retired, order)
        decreases remaining
      {
        var category :| category in remaining;
        var aborted;
        aborted, lines, retired, order := VisitNext(category, titles, fuel, choice, llm, decode, lines, visited, retired, order, start);
        remaining := remaining - {category};
        visited := visited + {category};
        if aborted {
          return Aborted(category), lines, visited, retired, order;
        }
      }
      return Completed, lines, visited, retired, order;
    }

    /**
     * `stage_2`: loads the stage-1 rows (after the header) for `timeframe`,
     * then visits the loaded categories in set order. A known category is
     * ranked and categorised; a truthy decoded reply writes the row
     * `[category, primaries, secondaries, data]`, a decode error or a falsy
     * value writes nothing, and a failed categorisation aborts the stage.
     * `lines` is the new stage-2 file and `visited` the categories taken.
     */
    method Stage2(file: seq<seq<string>>, timeframe: string, scoreOf: string -> int, fuel: nat,
                  choice: (string, nat) -> nat, llm: (string, nat, string, string, string) -> Stages.LlmOutcome,
                  decode: string -> Option<Checkpoint.JsonValue>)
      returns (outcome: Stage2Outcome, lines: seq<Checkpoint.Stage2Line>, visited: set<string>, retired: seq<string>,
               ghost order: seq<string>)
      modifies this
      ensures file == [] ==> outcome == NoHeader && lines == [] && retired == [] && order == []
      ensures file != [] ==> visited <= Ranking.CategorySet(Ranking.AcceptedRecords(file[1..], timeframe, scoreOf))
      ensures outcome.Completed? ==>
        file != [] && visited == Ranking.CategorySet(Ranking.AcceptedRecords(file[1..], timeframe, scoreOf))
      ensures forall i :: 0 <= i < |lines| ==>
        && file != []
        && lines[i].CategoryRow?
        && lines[i].category in Ranking.KnownCategories
        && lines[i].category in visited
        && Ranking.RankCategory(Ranking.DedupFirst(Ranking.AcceptedRecords(file[1..], timeframe, scoreOf)), lines[i].category)
             == Ranking.Selection(lines[i].primaries, lines[i].secondaries)
        && Checkpoint.Truthy(lines[i].clusters)
      ensures forall i, j :: 0 <= i < j < |lines| ==> lines[i].category != lines[j].category
      ensures KeyState(old(Files()), retired)
      ensures forall c :: c in visited <==> c in order
      ensures Keys.Distinct(order)
      ensures outcome.Aborted? ==> order != [] && outcome.category == order[|order| - 1]
      ensures file != [] ==> (Stage2Run(outcome, lines, retired) ==
        Visits(old(apikeys), order, Ranking.DedupFirst(Ranking.AcceptedRecords(file[1..], timeframe, scoreOf)), fuel, choice, llm, decode))
    {
      lines, visited, retired, order := [], {}, [], [];
      if file == [] {
        return NoHeader, lines, visited, retired, order;
      }
      var titles, categories, total := Ranking.LoadTitles(file[1..], timeframe, scoreOf);
      outcome, lines, visited, retired, order := VisitAll(titles, categories, fuel, choice, llm, decode);
    }
  }
}
