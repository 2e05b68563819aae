# Article analyzer: a Dafny model of the batch pipeline core

This project models the core of a news-article analyzer. The pipeline
gathers articles from a database and summarizes and scores each one with
an LLM, using a pool of API keys. It then ranks the titles of each
category and asks the LLM to cluster the top titles into topics. The
model covers:

- the **credential pool** of the `Analyzer` class: loading at most 50
  stripped keys, and `log_invalid_key`, which removes the first occurrence
  of a key, rewrites the key file and appends to the invalid-key log
  (`analyzer.dfy`, `keys.dfy`);
- **stage 1**: gathering articles from the ten collections, the rounds
  that assign keys (round-robin or random) and submit every pending
  article, and the collector. The collector writes a 13-column checkpoint
  row per summary, requeues failures, retires keys on key errors and
  crashes on a missing result (`analyzer.dfy`);
- the **per-article handler** `stage_1_thread_handler`: the nested loop
  that picks the nine labelled fields out of the reply, and the mapping of
  each exception to a result (`handler.dfy`);
- the **checkpoint readers** `stage_1_save_db` and `stage_2_save_db`
  (`checkpoint.dfy`);
- **stage 2**: loading the stage-1 rows for a timeframe (score column,
  skipped rows, first-occurrence deduplication, category set), the stable
  descending sort, the `[0:20]`/`[20:270]` slices, the per-category loop,
  and the recursive `stage_2_category` retry (`ranking.dfy`, `analyzer.dfy`);
- the pure parts of the LLM wrappers: `summarize_article`'s model and
  splitter choice, `categorize`'s two title blocks (built by `+=` loops)
  and its cut after `]}]`, and `prediction`'s timeframe phrase
  (`stages.dfy`).

`text.dfy` holds the string operations the source borrows from Python:
`str.strip`, `str.split`, substring search and `str(n)`.

State the source changes in place is a Dafny `class`. `Analyzer` has the
fields `apikeys`, `keysFile` and `invalidFile`; the two files are
sequences of lines, each ending in `"\n"`. The loops of the source
(`log_invalid_key`'s file rewrite, the stage-1 rounds and collector, the
stage-2 loading and category loops, the handler's nested label scan,
`categorize`'s block accumulators) are methods with loop invariants. Each
method is proved against a function or predicate (`RetireAll`,
`CategoryRetry`, `Field`, `DedupFirst`, `Terminated`, ...), and the
lemmas state what those functions promise.

The LLM, the tokenizer, the database, `random.choice`, `json.loads` and
`remove_non_numbers_regex` are function parameters:

- `summarize` / `llm` give what a model call returns or raises;
- `db` maps a collection name to its documents;
- `choice` gives the index a random draw picks;
- `decode` gives what `json.loads` makes of a text;
- `scoreOf` gives the integer a score cell parses to.

Python's set iteration order (the categories of stage 2) is an arbitrary
choice.

Where the code and its design description differ, the model follows the
code (the stage-1 collector's routing of a summary is the one exception;
see "## Left out" and "## Findings"):

- An invalid request in stage 1 is requeued, not dropped.
- A rate-limit error of an unexpected kind crashes the collector instead
  of being retried.
- A retry in `stage_2_category` never returns the recursive result.
- Results are collected in submission order.
- Removing a key is idempotent only when the pool holds no duplicates.

## Model

| member | source | states |
|---|---|---|
| Text.Strip | analyzer.py:60 | the result is a contiguous slice of the input; it neither starts nor ends with whitespace; everything cut off at either end is whitespace |
| Text.StripIdempotent | analyzer.py:60 | stripping twice is the same as stripping once |
| Text.Split | analyzer.py:346 | `split('\n')` gives at least one piece, and no piece contains the separator |
| Text.JoinSplit | analyzer.py:346 | joining the pieces with the separator gives back the original text: splitting loses nothing |
| Text.SplitJoin | analyzer.py:346 | splitting a join of separator-free pieces gives back exactly those pieces |
| Text.Find | stages.py:108 | the index found is an occurrence of the pattern and no earlier index is; `None` means the pattern occurs nowhere |
| Text.DecimalString | stages.py:90 | `str(n)` is all digits, has no leading zero unless it is `"0"`, and reads back as `n` |
| Keys.LoadKeys | analyzer.py:58-60 | the pool holds `min(lines, 50)` keys; key `i` is line `i` stripped |
| Keys.LoadKeysStripped | analyzer.py:58-60 | every loaded key is already stripped |
| Keys.FirstIndex | analyzer.py:65 | the index of the first occurrence of a key in the list |
| Keys.RemoveFirst | analyzer.py:65 | `list.remove`: an absent key leaves the list unchanged; a present key makes it exactly one shorter |
| Keys.RemoveFirstElements | analyzer.py:65 | keys before the first occurrence keep their place; later keys move down by one, so every other key stays in order |
| Keys.RemoveFirstSlices | analyzer.py:65 | the result is the list without the element at the first index of the key |
| Keys.RemoveFirstMultiset | analyzer.py:65 | exactly one copy of the key is removed |
| Keys.RemoveFirstIdempotent | analyzer.py:62-65 | in a pool without duplicates, removing a key twice is the same as removing it once |
| Keys.RemoveFirstTwiceWithRepeatedKey | analyzer.py:65 | with a repeated key (`["a","b","a"]`), a second removal still changes the list |
| Keys.PoolSize | analyzer.py:117 | the worker pool size is `min(n, 50)`; it is 0 exactly when there are no keys |
| Keys.AssignedKey | analyzer.py:121-123 | item `i` gets `keys[i % n]` unless there are more keys than items, in which case it gets the drawn key; either way it is a pool member |
| Keys.Retire | analyzer.py:62-65 | the pool after `list.remove` of each retired key in turn; it never grows, and when each key was present it shrinks by exactly the number of keys retired |
| Keys.RetireAppend | analyzer.py:62-65 | retiring `a` and then `b` is retiring `a + b`, and presence composes |
| Keys.RetireOne | analyzer.py:62-65 | retiring one key is `list.remove`; a present key counts as present |
| Keys.RetireMultiset | analyzer.py:62-65 | the keys left and the keys retired together make up the original pool |
| Keys.StripTerminated | analyzer.py:60-68 | a stripped key written with its newline strips back to itself |
| Keys.ReloadKeys | analyzer.py:58-68 | loading the rewritten key file gives back the same pool |
| Keys.RetireKeepsStripped | analyzer.py:62-68 | retiring keys never grows the pool, and the pool stays stripped |
| Stages.SummarizeParams | stages.py:15-39 | below 1248 tokens: `gpt-3.5-turbo`, 1248 max tokens, character splitter of 1248. From 1248: `gpt-3.5-turbo-16k`, 3696 max tokens, chunk 11088, token splitter exactly from 11088 tokens on |
| Stages.InvalidRequestMessage | stages.py:85 | the re-raised message is two lines, `model: <model>` and `token_count: <count>` (for a model name without a newline) |
| Stages.ChainFor | stages.py:78-83 | the stuff chain runs exactly when there is one chunk; otherwise map-reduce runs |
| Stages.SummarizeArticle | stages.py:76-85 | a reply passes through with its usage; an invalid request is raised again naming the model and the token count; every other exception passes through unchanged |
| Stages.Terminated | analyzer.py:67-68 | each text becomes a line followed by `"\n"`, in order |
| Stages.ConcatTerminated | stages.py:88-94 | concatenating newline-terminated texts is joining them with newlines plus an empty last piece |
| Stages.PrimaryTexts | stages.py:89-90 | line `i` (from 0) of the primary block is `"{i+1} {title}"` |
| Stages.SecondaryTexts | stages.py:93-94 | each line of the secondary block is `"- {title}"` |
| Stages.PrimaryBlock | stages.py:88-90 | the `+=` loop builds the concatenation of the newline-terminated numbered lines |
| Stages.SecondaryBlock | stages.py:92-94 | the `+=` loop builds the concatenation of the newline-terminated bulleted lines |
| Stages.PrimaryBlockLines | stages.py:88-90 | split at newlines, the primary block gives exactly one numbered line per title, in input order, then `""` |
| Stages.SecondaryBlockLines | stages.py:92-94 | split at newlines, the secondary block gives one `- title` line per title, in order, then `""`; no titles give `""` |
| Stages.TruncateReply | stages.py:108 | the result always ends with `]}]`. With a marker in the reply, it is the reply's prefix up to and including the first marker; without one, it is the reply followed by `]}]` |
| Stages.TruncateReplyIdempotent | stages.py:108 | for a reply that contains the marker, cutting twice is the same as cutting once |
| Stages.TruncateReplyNotIdempotent | stages.py:108 | for `x]}` the cut is not idempotent: `x]}]}]` and then `x]}]` |
| Stages.Categorize | stages.py:87-109 | a reply to the two blocks comes back cut after its first marker; each exception of the chain passes through as itself |
| Stages.TimeframePhrase | stages.py:345-349 | `week` and `month` give their own phrases; anything else gives the 1-day phrase |
| Handler.MatchIndex | analyzer.py:346-350 | the first line starting with the label, or `None` exactly when no line does |
| Handler.Field | analyzer.py:346-350 | a label's field is absent exactly when no line starts with the label; a present field is already stripped |
| Handler.ReplyFields | analyzer.py:345-350 | the reply gives nine fields, one per label in order, each present one stripped |
| Handler.FieldPresence | analyzer.py:345-350 | a field is `None` exactly when no reply line starts with its label |
| Handler.ScanField | analyzer.py:346-350 | the inner loop stops at the first line starting with the label and keeps the stripped rest of it |
| Handler.ParseFields | analyzer.py:345-350 | the nested loop gives, for each of the nine labels in order, the field of the first matching line |
| Handler.Handle | analyzer.py:343-392 | a summary keeps the article, reply, parsed fields and usage. `insufficient_quota` and authentication errors give the key error carrying the key. `rate_limit_exceeded`, invalid requests and other exceptions give `Error`. Any other rate-limit error gives `None`. Every result except `None` carries the article unchanged |
| Handler.ThreadHandler | analyzer.py:313-392 | the handler method returns exactly the classified result |
| Checkpoint.SummaryRow | analyzer.py:351-365 | the written row has the 13 columns of the header: article, reply, the nine fields (`None` as `""`), site and link; the usage is dropped |
| Checkpoint.SummaryRowItem | analyzer.py:156-167 | reading article, site and link back from a written row gives the original article |
| Checkpoint.RowDocument | analyzer.py:156-182 | the document built from a row carries the article, site and link the row was written for |
| Checkpoint.NonEmptyRows | analyzer.py:153-155 | a row is kept exactly when it is in the file and not empty |
| Checkpoint.NonEmptyRowsAppend | analyzer.py:153-155 | the rows kept from two appended files are those kept from each, in order, so no row is dropped or reordered |
| Checkpoint.NonEmptyRowsSingle | analyzer.py:153-155 | a single row is kept exactly when it is not empty |
| Checkpoint.FirstShortRow | analyzer.py:156-167 | finds the first non-empty row too short to index; there is none exactly when every non-empty row is complete |
| Checkpoint.DataRowsDocuments | analyzer.py:153-182 | succeeds exactly when every non-empty row is complete, with one document per non-empty row; otherwise the error names a short row |
| Checkpoint.Stage1Documents | analyzer.py:150-182 | an empty file fails at the header; otherwise the result is that of reading the rows after the header, which succeeds exactly when every non-empty data row is complete |
| Checkpoint.SummaryRows | analyzer.py:136 | one written row per summary, in order |
| Checkpoint.SummaryRowsCons | analyzer.py:136 | the rows of a list of summaries are the first summary's row followed by the rows of the rest |
| Checkpoint.Stage1RoundTrip | analyzer.py:146-182 | reading back a header plus the rows written for some summaries succeeds, with one document per summary built from that summary |
| Checkpoint.CategoryRows | analyzer.py:299-301 | a line is kept exactly when it is in the file and is a category row: only blank lines are dropped |
| Checkpoint.CategoryRowsAppend | analyzer.py:299-301 | reading rows is compositional over appended files |
| Checkpoint.Stage2DocumentsAsWritten | analyzer.py:299-305 | as written, each document's data is column 2, the secondary titles |
| Checkpoint.Stage2SaveDbDropsClusters | analyzer.py:303 | for any written row, the saved data is the secondaries and never the cluster data |
| Checkpoint.Stage2Documents | analyzer.py:299-305 | corrected: each document holds the category and the cluster data of its row |
| Ranking.ScoreColumn | analyzer.py:209-218 | the score column is 5, 7 or 9 for day, week or month, and there is none for any other timeframe |
| Ranking.RowVerdict | analyzer.py:207-232 | a row is accepted exactly when it has a title and, for a known timeframe, a non-empty score cell, and is long enough; the record is built from columns 0, 2, 3 and 4, with the parsed score or 0 |
| Ranking.AcceptedRecords | analyzer.py:205-229 | at most one record per row, and every record has a title |
| Ranking.DedupFirst | analyzer.py:226-229 | titles become distinct, no title is lost, and every kept record is a loaded one |
| Ranking.DedupFirstKeepsFirst | analyzer.py:226-229 | each kept record is the first record with its title, and kept records follow the order of those first occurrences |
| Ranking.LoadTitles | analyzer.py:197-232 | the loop counts every row, keeps the first record of each title, and collects the categories of all accepted rows |
| Ranking.LoadAccepted | analyzer.py:224-229 | an accepted row adds its category even when its title repeats; the record is kept only when its title is new |
| Ranking.LoadOther | analyzer.py:207-232 | a skipped or short row changes nothing but the count |
| Ranking.InCategory | analyzer.py:239 | the filter keeps only loaded records of the category, and keeps every loaded record of the category |
| Ranking.InCategoryAppend | analyzer.py:239 | filtering two appended lists is filtering each, in order, so the filter keeps the input order the sort's ties depend on |
| Ranking.InCategorySingle | analyzer.py:239 | a single record is kept exactly when it has the category |
| Ranking.InCategoryTitles | analyzer.py:239 | filtering adds no title and keeps titles distinct |
| Ranking.Insert | analyzer.py:240 | inserting into a descending list keeps it descending and adds exactly one copy of the record |
| Ranking.InsertTitles | analyzer.py:240 | insertion adds the record's title, and keeps titles distinct when that title is new |
| Ranking.InsertStable | analyzer.py:240 | the inserted record goes before every record of equal score; records of other scores keep their order |
| Ranking.SortDesc | analyzer.py:240 | `sorted(..., reverse=True)` by score is descending and a permutation of its input |
| Ranking.SortDescStable | analyzer.py:240 | the sort is stable: records of each score keep their input order |
| Ranking.SortDescTitleSet | analyzer.py:240 | sorting keeps the set of titles |
| Ranking.SortDescDistinct | analyzer.py:240 | sorting keeps titles distinct |
| Ranking.PySlice | analyzer.py:243-247 | Python slicing clamps both bounds to the length |
| Ranking.RankCategory | analyzer.py:239-249 | a category's selection has at most 20 primaries and 250 secondaries, none of them an empty title |
| Ranking.NonEmptyTitles | analyzer.py:243-249 | only non-empty titles are taken |
| Ranking.NonEmptyTitlesOfFull | analyzer.py:243-249 | when no title is empty, the filter takes every title |
| Ranking.RankedMembers | analyzer.py:239-240 | every ranked record is a loaded record of the category |
| Ranking.TopSelection | analyzer.py:239-249 | primaries are the titles of the first 20 ranked records and secondaries those of ranks 21-270. There are at most 20 and 250 of them, and every primary scores at least as high as every secondary |
| Ranking.RankedDistinct | analyzer.py:239-240 | the ranked records have distinct titles when the loaded ones do |
| Ranking.SelectionDistinct | analyzer.py:236-249 | no title appears twice among a category's primaries and secondaries |
| Analyzer.Gathered | analyzer.py:79-89 | every document of every listed collection is among the gathered articles, and every gathered article is a document of a listed collection |
| Analyzer.Analyzer.GatherArticles | analyzer.py:79-89 | the nested loop gathers the collections in order, document after document |
| Analyzer.RouteOf | analyzer.py:128-140 | corrected routing: a summary is written as a complete row for its article; a key error retires its key and requeues its article; `Error` requeues its article; `None` crashes |
| Analyzer.RouteAccounts | analyzer.py:120-140 | each submitted article comes out exactly once and unchanged, as its row or requeued; only an unexpected rate-limit error crashes |
| Analyzer.RouteAsWritten | analyzer.py:128-140 | the collector as written agrees with the corrected routing on every result except a summary whose reply is exactly a tag |
| Analyzer.ErrorReplyIsRequeued | analyzer.py:130-140 | as written, a summary whose reply is `Error` requeues an empty article instead of writing its row |
| Analyzer.RowItems | analyzer.py:136 | the article of each complete row, in order |
| Analyzer.WriteLines | analyzer.py:66-68 | the rewrite loop writes each key followed by a newline, in order |
| Analyzer.RetireKey | analyzer.py:62-72 | `log_invalid_key` on the key state: an absent key changes nothing; a present key shortens the pool by one and appends one line to the invalid-key log |
| Analyzer.RetireAll | analyzer.py:62-72 | a run of `log_invalid_key` calls never grows the pool and only appends to the log; when every key was present, the pool shrinks and the log grows by exactly the number of keys |
| Analyzer.RetireAllAppend | analyzer.py:62-72 | retiring `a` and then `b` is retiring `a + b` on the whole key state, and presence composes |
| Analyzer.RetireAllOne | analyzer.py:62-72 | retiring a list of one key is one `log_invalid_key`; it counts as present exactly when the key is in the pool |
| Analyzer.RetireAllKeys | analyzer.py:62-65 | after retiring present keys, the pool is the original with those keys removed one at a time |
| Analyzer.RetireAllLog | analyzer.py:70-72 | the invalid-key log gains exactly the retired keys, in order, one line each |
| Analyzer.RetireAllKeyFile | analyzer.py:66-68 | after any retirement, the key file lists exactly the current pool, one line per key |
| Analyzer.Analyzer.constructor | analyzer.py:58-60 | the pool is the loaded key file, capped and stripped |
| Analyzer.Analyzer.LogInvalidKey | analyzer.py:62-72 | for a present key: its first occurrence is removed, the key file is rewritten from the new pool, and the key is appended to the log. For an absent key nothing changes |
| Analyzer.Analyzer.Retire | analyzer.py:62-72 | the key state stays the retirement of the listed keys, and the key is listed exactly when it was in the pool |
| Analyzer.Analyzer.SubmitRound | analyzer.py:116-124 | item `i` is handled with its assigned key, and there is one result per pending item, in order: the results are `RoundResults` of the pool and the pending items |
| Analyzer.RoundResults | analyzer.py:120-124 | one handler result per pending article, each well formed and carrying its own article unless it is `None` |
| Analyzer.CollectStep | analyzer.py:128-140 | one result's collection only appends: rows plus pending articles grow by one, except for `None`, and at most one key is retired |
| Analyzer.CollectAll | analyzer.py:128-140 | a round's collection only appends to rows, pending articles and retired keys; rows plus pending grow by the number of articles submitted, and a crash leaves articles pending |
| Analyzer.CollectAllCrashes | analyzer.py:128-140 | a round's collection crashes exactly when one of its results is `None` |
| Analyzer.Rounds | analyzer.py:116-142 | the stage loop finishes exactly when nothing is pending; rows plus pending articles stay as many as gathered; rows and retired keys only grow |
| Analyzer.CollectAllStep | analyzer.py:128-140 | the collection from result `j` on crashes at `j`, leaving the articles from `j` on pending, or collects result `j` and goes on with the rest |
| Analyzer.RoundsStep | analyzer.py:116-142 | a round that runs either crashes with its collection or goes on to the next round from what it collected |
| Analyzer.CollectStepSummary | analyzer.py:136 | collecting a summary appends its row and changes nothing else |
| Analyzer.CollectAllSummaries | analyzer.py:128-140 | a round of summaries only appends their rows, in order: nothing is requeued, retired or crashed |
| Analyzer.RoundsAllSummarized | analyzer.py:114-142 | when every article of the first round is summarized, the stage finishes after one round with the header and one row per gathered article, in order, and no key retired |
| Analyzer.RoundsPoolFailed | analyzer.py:116-117 | a stage that fails for want of keys still has articles pending and has retired every key of the starting pool |
| Analyzer.Analyzer.CollectOne | analyzer.py:128-140 | a summary appends its row; `Error` requeues the article; a key error requeues it and retires the key when it is still in the pool; `None` crashes and changes nothing. The new state is the collector step of the result |
| Analyzer.Analyzer.CollectRound | analyzer.py:125-140 | rows, requeued articles and retired keys are the fold of the collector step over the results in order; the first missing result crashes, leaving its article and all later ones pending. Rows plus pending articles are the gathered articles as a multiset |
| Analyzer.Analyzer.CollectAt | analyzer.py:128-140 | one turn of the collection loop: a `None` result crashes, leaving that article and all later ones pending; any other result is collected and the rest of the loop goes on from there |
| Analyzer.Analyzer.RunRound | analyzer.py:116-140 | one round collects the handler's results for every pending article, with keys assigned from the current pool; a crash leaves articles pending |
| Analyzer.Analyzer.Stage1 | analyzer.py:114-142 | the outcome, rows, pending articles and retired keys are the rounds run from the gathered articles: a round runs while articles are pending, fails exactly when the pool left is empty, and a crash ends the stage. Every gathered article is accounted for once, and the stage finishes exactly when nothing is pending. Retired keys are logged in order |
| Analyzer.CategoryRetry | analyzer.py:270-289 | `stage_2_category`: an empty pool or exhausted recursion raises; a result comes back only from a first-call success, which retires nothing; at most one key is retired per level of recursion |
| Analyzer.RetryAfterAuthentication | analyzer.py:277-280 | an authentication error retires the drawn key and retries without it, discarding the retry's result |
| Analyzer.RetryAfterRateLimit | analyzer.py:281-289 | `insufficient_quota` and `rate_limit_exceeded` retry with the same pool, discarding the retry's result |
| Analyzer.CategoryRetryRetires | analyzer.py:270-289 | the retry retires only keys of the pool, each still present at its turn, and never more keys than the pool has |
| Analyzer.CategoryRetryResult | analyzer.py:270-289 | an empty pool raises. A result comes back exactly when the first call succeeds, and it is that reply, cut |
| Analyzer.CategoryRetryAuthentication | analyzer.py:277-280 | after an authentication error, the drawn key is the first one retired and no result comes back |
| Analyzer.QuotaKeepsKey | analyzer.py:283-285 | in stage 2, `insufficient_quota` retires nothing itself |
| Analyzer.Analyzer.Stage2Category | analyzer.py:270-289 | the method's result and retired keys are those of the retry definition; the key state records exactly those retirements |
| Analyzer.Analyzer.RetryWithout | analyzer.py:277-280 | retires the drawn key, then retries with the smaller pool; returns `None` unless the retry raised |
| Analyzer.RowsFor | analyzer.py:259-268 | a category's call writes at most one row, exactly when the reply decodes to a truthy value, and that row holds the category, the selection and the value |
| Analyzer.VisitStep | analyzer.py:237-268 | one category's turn only appends, at most one row, and leaves the outcome as it was unless it aborts at that category |
| Analyzer.Visits | analyzer.py:236-268 | the category loop over a visiting order writes at most one row per category taken |
| Analyzer.VisitsSnoc | analyzer.py:236-268 | visiting one more category does nothing after an abort and otherwise runs that category's step from the keys left |
| Analyzer.VisitsSkip | analyzer.py:237-238 | a category that is not known leaves the loop state unchanged |
| Analyzer.VisitsKnown | analyzer.py:239-268 | a known category's retry, from the keys left, aborts the loop exactly when it raises or returns `None`; otherwise its rows are written; either way its retired keys are appended |
| Analyzer.DistinctSnoc | analyzer.py:236 | the loop takes each category of the set once |
| Analyzer.VisitsRetires | analyzer.py:270-289 | every key the loop retires was still in the pool at its turn, and it retires no more keys than the pool had |
| Analyzer.VisitsCompleted | analyzer.py:236-268 | a completed loop aborted after no prefix of the visiting order: no visited category's call failed |
| Analyzer.VisitsNeverNoHeader | analyzer.py:236-268 | the loop itself never reports a missing header |
| Analyzer.VisitsAborted | analyzer.py:236-268 | an aborted loop names a known category it visited |
| Analyzer.Analyzer.VisitCategory | analyzer.py:237-268 | a known category is ranked and categorized; a row is written exactly when the reply decodes to a truthy value, and it holds the category, the selection and that value |
| Analyzer.Analyzer.VisitNext | analyzer.py:236-268 | one turn of the loop extends the visiting order by the category taken; it aborts only on a known category whose call failed, and the loop state stays that of visiting the extended order |
| Analyzer.Analyzer.VisitAll | analyzer.py:236-268 | the outcome, rows and retired keys are the loop run over the order the categories were taken in, each taken once: a known category's row is written exactly when its reply decodes truthy, the loop aborts at the first category whose call fails, and the retired keys are those of each category's retry in turn. Completing means every category was visited |
| Analyzer.Analyzer.Stage2 | analyzer.py:194-268 | an empty stage-1 file stops at the header. Otherwise only loaded categories are visited, all of them on completion, and the outcome, rows and retired keys are the loop run over the deduplicated loaded titles in the visiting order. Each row is a distinct known category with its ranked selection and truthy cluster data |

## Left out

- The LLM, the tokenizer and the text splitters are oracles. `summarize`
  and `llm` give what a call returns or raises; the token count and the
  number of chunks are inputs.
- The database is left out: `find()`, `drop`, `insert_many`, and the
  documents' `siteName`/`link` field access. Collections are a function
  from names to article lists.
- Files and CSV quoting are left out. A checkpoint file is a sequence of
  rows, and a key file a sequence of lines, each ending in a newline.
- `multiprocessing.Pool` parallelism is left out. A round is a
  sequential map; the collector reads results in submission order, as
  the source does.
- `random.choice` is an index parameter `choice`.
- `json.loads` is the partial parser `decode`, and `eval` is not modelled.
  A row's cluster data is kept as the value it was written from, so
  `stage_2_save_db` reads it back unchanged.
- `remove_non_numbers_regex` and `int(...)` are the parameter `scoreOf`.
  The `ValueError` that `int` raises on a cell without digits is not
  modelled.
- `er.error['type']` raising `KeyError` on a rate-limit error without a
  type is not modelled.
- Logging, printing and timing are left out.
- The float token budgets of the other wrapper functions are left out.
- `extra_research`, `prediction` beyond its timeframe phrase, and the
  later stages are not part of this model.
- `Analyzer.Analyzer.Stage1`: the source's `while` loop has no bound, so
  the model takes a `maxRounds` bound and ends with `OutOfRounds` when it
  runs out. The contract holds at every round, so it also holds whenever
  the unbounded loop stops.
- `Analyzer.CategoryRetry`: the recursion is bounded by `fuel`, which
  stands for Python's recursion limit; running out raises.
- `Analyzer.Analyzer.VisitAll`: the set iteration order of `categories`
  is an arbitrary choice. The order taken is a ghost output, `order`, and
  the contract relates the run to it rather than fixing which category
  comes first.
- Analyzer.Analyzer.CollectOne, Analyzer.Analyzer.CollectRound,
  Analyzer.Analyzer.Stage1: these follow the corrected routing `RouteOf`
  of the analyzer.py:130-140 finding, not the element-1 test as written.
  They differ from the code only on a summary whose reply is exactly
  `Error` or `APIKey_Error`, which the code requeues (or retires a key for)
  and the model writes as a row.
- `Handler.Handle`: an exception is one of five outcomes. The text of the
  exception object in an `Error` result is not modelled.

## Findings

| source | as written | input that shows it | evidently intended | confidence | as-written member | corrected member |
|---|---|---|---|---|---|---|
| analyzer.py:303 | `stage_2_save_db` takes `row[2]`, the secondary titles, as the category's data | any stage-2 row `[category, primaries, secondaries, data]` | take `row[3]`, the cluster data that `stage_2` wrote | high, not executed | Checkpoint.Stage2SaveDbDropsClusters | Checkpoint.Stage2Documents |
| analyzer.py:130-140 | the collector tells results apart by element 1 only, which for a summary is the model's reply | a summary whose reply is exactly `Error` (or `APIKey_Error`) | a summary is written as a row whatever its reply says | medium, not executed | Analyzer.ErrorReplyIsRequeued | Analyzer.RouteOf |
