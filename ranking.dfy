/**
 * The selection policy of stage 2: which stage-1 rows are loaded for a
 * timeframe, how repeated titles are dropped (the first one wins), and how
 * each known category's titles are ranked by score and cut into the top 20
 * primaries and the next 250 secondaries.
 */
module Ranking {
  import opened Optional

  /** The categories `stage_2` ranks; rows of any other category are loaded but not ranked. */
  const KnownCategories: seq<string> := [
    "Politics",
    "Business and Finance",
    "Entertainment",
    "Science and Technology",
    "Sports",
    "Crypto/Web3",
    "Gaming",
    "Law and Crime",
    "Lifestyle and Health",
    "Art and Fashion"
  ]

  /** How many of a category's best titles are primaries. */
  const PrimaryCount: nat := 20
  /** Primaries and secondaries together come from this many best titles. */
  const SelectedCount: nat := 270

  /** A loaded stage-1 row: `{'article', 'title', 'score', 'category', 'summary'}`. */
  datatype TitleRecord = TitleRecord(article: string, title: string, score: int, category: string, summary: string)

  /** What the loading loop does with one row. */
  datatype Verdict =
    | Accepted(record: TitleRecord)
    | Skipped          // an empty title or an empty score for the timeframe: `continue`
    | IndexFailure     // too few cells: IndexError, logged and skipped

  /** The column holding the score for a timeframe; no column for an unknown timeframe. */
  function ScoreColumn(timeframe: string): (c: Option<nat>)
    ensures c.Some? <==> timeframe in {"day", "week", "month"}
    ensures timeframe == "day" ==> c == Some(5)
    ensures timeframe == "week" ==> c == Some(7)
    ensures timeframe == "month" ==> c == Some(9)
  {
    if timeframe == "day" then Some(5)
    else if timeframe == "week" then Some(7)
    else if timeframe == "month" then Some(9)
    else None
  }

  /**
   * The body of the loading loop for one row. `scoreOf` stands for
   * `int(remove_non_numbers_regex(cell))`.
   */
  function RowVerdict(row: seq<string>, timeframe: string, scoreOf: string -> int): (v: Verdict)
    ensures v.Accepted? <==>
      |row| >= 5 && row[2] != "" &&
      (ScoreColumn(timeframe).Some? ==> ScoreColumn(timeframe).value < |row| && row[ScoreColumn(timeframe).value] != "")
    ensures v.Skipped? <==>
      |row| > 2 && (row[2] == "" ||
        (ScoreColumn(timeframe).Some? && ScoreColumn(timeframe).value < |row| && row[ScoreColumn(timeframe).value] == ""))
    ensures v.Accepted? ==> v.record == TitleRecord(row[0], row[2],
      (if ScoreColumn(timeframe).Some? then scoreOf(row[ScoreColumn(timeframe).value]) else 0), row[3], row[4])
  {
    if |row| <= 2 then IndexFailure
    else if row[2] == "" then Skipped
    else
      var column := ScoreColumn(timeframe);
      if column.Some? && |row| <= column.value then IndexFailure
      else if column.Some? && row[column.value] == "" then Skipped
      else
        var score := if column.Some? then scoreOf(row[column.value]) else 0;
        if |row| <= 4 then IndexFailure
        else Accepted(TitleRecord(row[0], row[2], score, row[3], row[4]))
  }

  /** The records of the accepted rows, in row order, repeated titles included. */
  function AcceptedRecords(rows: seq<seq<string>>, timeframe: string, scoreOf: string -> int): (recs: seq<TitleRecord>)
    ensures |recs| <= |rows|
    ensures forall i :: 0 <= i < |recs| ==> recs[i].title != ""
  {
    if rows == [] then []
    else
      var prev := AcceptedRecords(rows[..|rows| - 1], timeframe, scoreOf);
      match RowVerdict(rows[|rows| - 1], timeframe, scoreOf)
      case Accepted(r) => prev + [r]
      case _ => prev
  }

  function TitleSet(recs: seq<TitleRecord>): set<string> {
    set i | 0 <= i < |recs| :: recs[i].title
  }

  function CategorySet(recs: seq<TitleRecord>): set<string> {
    set i | 0 <= i < |recs| :: recs[i].category
  }

  lemma TitleSetAppend(recs: seq<TitleRecord>, x: TitleRecord)
    ensures TitleSet(recs + [x]) == TitleSet(recs) + {x.title}
  {
    assert (recs + [x])[|recs|] == x;
    forall t | t in TitleSet(recs)
      ensures t in TitleSet(recs + [x])
    {
      var i :| 0 <= i < |recs| && recs[i].title == t;
      assert (recs + [x])[i] == recs[i];
    }
  }

  lemma CategorySetAppend(recs: seq<TitleRecord>, x: TitleRecord)
    ensures CategorySet(recs + [x]) == CategorySet(recs) + {x.category}
  {
    assert (recs + [x])[|recs|] == x;
    forall c | c in CategorySet(recs)
      ensures c in CategorySet(recs + [x])
    {
      var i :| 0 <= i < |recs| && recs[i].category == c;
      assert (recs + [x])[i] == recs[i];
    }
  }

  /** No title occurs twice. */
  predicate DistinctTitles(recs: seq<TitleRecord>) {
    forall i, j :: 0 <= i < j < |recs| ==> recs[i].title != recs[j].title
  }

  /** `any(item['title'] == title for item in titles)`. */
  predicate HasTitle(recs: seq<TitleRecord>, t: string) {
    exists i :: 0 <= i < |recs| && recs[i].title == t
  }

  /**
   * The records kept by the loading loop: a record whose title was seen
   * before is dropped, so each title keeps its first record.
   */
  function DedupFirst(recs: seq<TitleRecord>): (r: seq<TitleRecord>)
    ensures DistinctTitles(r)
    ensures TitleSet(r) == TitleSet(recs)
    ensures forall i :: 0 <= i < |r| ==> r[i] in recs
  {
    if recs == [] then []
    else
      var init := recs[..|recs| - 1];
      var x := recs[|recs| - 1];
      var prev := DedupFirst(init);
      assert recs == init + [x];
      TitleSetAppend(init, x);
      if HasTitle(prev, x.title) then
        assert x.title in TitleSet(prev);
        prev
      else
        TitleSetAppend(prev, x);
        assert x.title !in TitleSet(prev);
        prev + [x]
  }

  /** Index of the first record with title `t`. */
  function FirstWithTitle(recs: seq<TitleRecord>, t: string): (k: nat)
    requires HasTitle(recs, t)
    ensures k < |recs| && recs[k].title == t
    ensures forall m :: 0 <= m < k ==> recs[m].title != t
  {
    if recs[0].title == t then 0
    else
      assert HasTitle(recs[1..], t) by {
        var i :| 0 <= i < |recs| && recs[i].title == t;
        assert recs[1..][i - 1] == recs[i];
      }
      1 + FirstWithTitle(recs[1..], t)
  }

  lemma FirstWithTitleIs(recs: seq<TitleRecord>, t: string, k: nat)
    requires k < |recs| && recs[k].title == t
    requires forall m :: 0 <= m < k ==> recs[m].title != t
    ensures HasTitle(recs, t) && FirstWithTitle(recs, t) == k
  {
    assert HasTitle(recs, t);
  }

  /** Appending a record keeps the first index of every title already present. */
  lemma FirstWithTitleExtend(init: seq<TitleRecord>, x: TitleRecord, t: string)
    requires HasTitle(init, t)
    ensures HasTitle(init + [x], t) && FirstWithTitle(init + [x], t) == FirstWithTitle(init, t)
  {
    var recs := init + [x];
    var k := FirstWithTitle(init, t);
    assert recs[k] == init[k];
    forall m | 0 <= m < k ensures recs[m].title != t {
      assert recs[m] == init[m];
    }
    FirstWithTitleIs(recs, t, k);
  }

  /** An appended record with a new title is the first record with that title. */
  lemma FirstWithTitleNew(init: seq<TitleRecord>, x: TitleRecord)
    requires x.title !in TitleSet(init)
    ensures HasTitle(init + [x], x.title) && FirstWithTitle(init + [x], x.title) == |init|
  {
    var recs := init + [x];
    forall m | 0 <= m < |init| ensures recs[m].title != x.title {
      assert recs[m] == init[m];
      assert init[m].title in TitleSet(init);
    }
    FirstWithTitleIs(recs, x.title, |init|);
  }

  /** The first-occurrence properties of `DedupFirst` as predicates on the kept records `r` of `recs`. */
  predicate KeepsFirst(recs: seq<TitleRecord>, r: seq<TitleRecord>) {
    forall i :: 0 <= i < |r| ==>
      HasTitle(recs, r[i].title) && r[i] == recs[FirstWithTitle(recs, r[i].title)]
  }

  predicate FirstOrder(recs: seq<TitleRecord>, r: seq<TitleRecord>) {
    forall i, j :: 0 <= i < j < |r| ==>
      HasTitle(recs, r[i].title) && HasTitle(recs, r[j].title) &&
      FirstWithTitle(recs, r[i].title) < FirstWithTitle(recs, r[j].title)
  }

  /**
   * First occurrence wins: every kept record is the first record with its
   * title, and the kept records are in the order of those first occurrences.
   */
  lemma {:induction false} DedupFirstKeepsFirst(recs: seq<TitleRecord>)
    ensures KeepsFirst(recs, DedupFirst(recs))
    ensures FirstOrder(recs, DedupFirst(recs))
  {
    if recs != [] {
      var init := recs[..|recs| - 1];
      var x := recs[|recs| - 1];
      var prev := DedupFirst(init);
      DedupFirstKeepsFirst(init);
      assert recs == init + [x];
      forall i | 0 <= i < |prev|
        ensures HasTitle(recs, prev[i].title)
        ensures FirstWithTitle(recs, prev[i].title) == FirstWithTitle(init, prev[i].title)
      {
        FirstWithTitleExtend(init, x, prev[i].title);
      }
      if !HasTitle(prev, x.title) {
        assert x.title !in TitleSet(prev);
        FirstWithTitleNew(init, x);
        DedupFirstAppendNew(init, x, prev);
      } else {
        assert prev == DedupFirst(recs);
        assert KeepsFirst(recs, prev) by {
          forall i | 0 <= i < |prev|
            ensures prev[i] == recs[FirstWithTitle(recs, prev[i].title)]
          {
            assert recs[FirstWithTitle(init, prev[i].title)] == init[FirstWithTitle(init, prev[i].title)];
          }
        }
      }
    }
  }

  /** The step of `DedupFirstKeepsFirst` where the last record has a new title and is kept. */
  lemma DedupFirstAppendNew(init: seq<TitleRecord>, x: TitleRecord, prev: seq<TitleRecord>)
    requires KeepsFirst(init, prev) && FirstOrder(init, prev)
    requires forall i :: 0 <= i < |prev| ==>
      HasTitle(init + [x], prev[i].title) && FirstWithTitle(init + [x], prev[i].title) == FirstWithTitle(init, prev[i].title)
    requires HasTitle(init + [x], x.title) && FirstWithTitle(init + [x], x.title) == |init|
    ensures KeepsFirst(init + [x], prev + [x])
    ensures FirstOrder(init + [x], prev + [x])
  {
    AppendNewKeepsFirst(init, x, prev);
    AppendNewFirstOrder(init, x, prev);
  }

  lemma AppendNewKeepsFirst(init: seq<TitleRecord>, x: TitleRecord, prev: seq<TitleRecord>)
    requires KeepsFirst(init, prev)
    requires forall i :: 0 <= i < |prev| ==>
      HasTitle(init + [x], prev[i].title) && FirstWithTitle(init + [x], prev[i].title) == FirstWithTitle(init, prev[i].title)
    requires HasTitle(init + [x], x.title) && FirstWithTitle(init + [x], x.title) == |init|
    ensures KeepsFirst(init + [x], prev + [x])
  {
    var recs, r := init + [x], prev + [x];
    forall i | 0 <= i < |r|
      ensures HasTitle(recs, r[i].title) && r[i] == recs[FirstWithTitle(recs, r[i].title)]
    {
      AppendNewKept(init, x, prev, i);
    }
  }

  /** One kept record after a new title is appended: it is still the first record with its title. */
  lemma AppendNewKept(init: seq<TitleRecord>, x: TitleRecord, prev: seq<TitleRecord>, i: nat)
    requires KeepsFirst(init, prev)
    requires forall i :: 0 <= i < |prev| ==>
      HasTitle(init + [x], prev[i].title) && FirstWithTitle(init + [x], prev[i].title) == FirstWithTitle(init, prev[i].title)
    requires HasTitle(init + [x], x.title) && FirstWithTitle(init + [x], x.title) == |init|
    requires i < |prev| + 1
    ensures var recs, r := init + [x], prev + [x];
      HasTitle(recs, r[i].title) && r[i] == recs[FirstWithTitle(recs, r[i].title)]
  {
    var recs, r := init + [x], prev + [x];
    if i < |prev| {
      assert HasTitle(init, prev[i].title);
      var k := FirstWithTitle(init, prev[i].title);
      assert r[i] == prev[i] == init[k];
      assert recs[k] == init[k];
    } else {
      assert r[i] == x == recs[|init|];
    }
  }

  lemma AppendNewFirstOrder(init: seq<TitleRecord>, x: TitleRecord, prev: seq<TitleRecord>)
    requires KeepsFirst(init, prev) && FirstOrder(init, prev)
    requires forall i :: 0 <= i < |prev| ==>
      HasTitle(init + [x], prev[i].title) && FirstWithTitle(init + [x], prev[i].title) == FirstWithTitle(init, prev[i].title)
    requires HasTitle(init + [x], x.title) && FirstWithTitle(init + [x], x.title) == |init|
    ensures FirstOrder(init + [x], prev + [x])
  {
    var recs, r := init + [x], prev + [x];
    forall i, j | 0 <= i < j < |r|
      ensures HasTitle(recs, r[i].title) && HasTitle(recs, r[j].title) &&
        FirstWithTitle(recs, r[i].title) < FirstWithTitle(recs, r[j].title)
    {
      AppendNewPair(init, x, prev, i, j);
    }
  }

  /** One pair of kept records after a new title is appended: they are still in first-occurrence order. */
  lemma AppendNewPair(init: seq<TitleRecord>, x: TitleRecord, prev: seq<TitleRecord>, i: nat, j: nat)
    requires KeepsFirst(init, prev) && FirstOrder(init, prev)
    requires forall i :: 0 <= i < |prev| ==>
      HasTitle(init + [x], prev[i].title) && FirstWithTitle(init + [x], prev[i].title) == FirstWithTitle(init, prev[i].title)
    requires HasTitle(init + [x], x.title) && FirstWithTitle(init + [x], x.title) == |init|
    requires i < j < |prev| + 1
    ensures var recs, r := init + [x], prev + [x];
      HasTitle(recs, r[i].title) && HasTitle(recs, r[j].title) &&
      FirstWithTitle(recs, r[i].title) < FirstWithTitle(recs, r[j].title)
  {
    var r := prev + [x];
    assert r[i] == prev[i];
    if j < |prev| {
      assert r[j] == prev[j];
    } else {
      assert r[j] == x;
      assert HasTitle(init, prev[i].title);
      assert FirstWithTitle(init, prev[i].title) < |init|;
    }
  }

  /**
   * The loading loop of `stage_2`: counts every row, adds the category of
   * every accepted row to the category set (repeated titles included) and
   * keeps the first record of each title.
   */
  method LoadTitles(rows: seq<seq<string>>, timeframe: string, scoreOf: string -> int)
    returns (titles: seq<TitleRecord>, categories: set<string>, total: nat)
    ensures total == |rows|
    ensures titles == DedupFirst(AcceptedRecords(rows, timeframe, scoreOf))
    ensures categories == CategorySet(AcceptedRecords(rows, timeframe, scoreOf))
    ensures DistinctTitles(titles)
    ensures forall i :: 0 <= i < |titles| ==> titles[i].title != ""
  {
    titles, categories, total := [], {}, 0;
    var i := 0;
    while i < |rows|
      invariant 0 <= i <= |rows| && total == i
      invariant titles == DedupFirst(AcceptedRecords(rows[..i], timeframe, scoreOf))
      invariant categories == CategorySet(AcceptedRecords(rows[..i], timeframe, scoreOf))
    {
      total := total + 1;
      match RowVerdict(rows[i], timeframe, scoreOf) {
        case Accepted(rec) =>
          LoadAccepted(rows, i, timeframe, scoreOf, rec);
          categories := categories + {rec.category};
          if !HasTitle(titles, rec.title) {
            titles := titles + [rec];
          }
        case Skipped =>
          LoadOther(rows, i, timeframe, scoreOf);
        case IndexFailure =>
          LoadOther(rows, i, timeframe, scoreOf);
      }
      i := i + 1;
    }
    assert rows[..i] == rows;
  }

  /** An accepted row adds its record after those of the rows before it. */
  lemma LoadAccepted(rows: seq<seq<string>>, i: nat, timeframe: string, scoreOf: string -> int, rec: TitleRecord)
    requires i < |rows| && RowVerdict(rows[i], timeframe, scoreOf) == Accepted(rec)
    ensures var prev := AcceptedRecords(rows[..i], timeframe, scoreOf);
      && AcceptedRecords(rows[..i + 1], timeframe, scoreOf) == prev + [rec]
      && CategorySet(AcceptedRecords(rows[..i + 1], timeframe, scoreOf)) == CategorySet(prev) + {rec.category}
      && DedupFirst(AcceptedRecords(rows[..i + 1], timeframe, scoreOf)) ==
           if HasTitle(DedupFirst(prev), rec.title) then DedupFirst(prev) else DedupFirst(prev) + [rec]
  {
    var prev := AcceptedRecords(rows[..i], timeframe, scoreOf);
    assert rows[..i + 1][..i] == rows[..i];
    CategorySetAppend(prev, rec);
    assert (prev + [rec])[..|prev|] == prev;
  }

  /** A skipped row, or one too short to read, adds no record. */
  lemma LoadOther(rows: seq<seq<string>>, i: nat, timeframe: string, scoreOf: string -> int)
    requires i < |rows| && !RowVerdict(rows[i], timeframe, scoreOf).Accepted?
    ensures AcceptedRecords(rows[..i + 1], timeframe, scoreOf) == AcceptedRecords(rows[..i], timeframe, scoreOf)
  {
    assert rows[..i + 1][..i] == rows[..i];
  }

  // ---------------------------------------------------------------------------
  // Ranking one category

  lemma TitleSetCons(x: TitleRecord, s: seq<TitleRecord>)
    ensures TitleSet([x] + s) == {x.title} + TitleSet(s)
  {
    var r := [x] + s;
    assert r[0] == x;
    forall t | t in TitleSet(s) ensures t in TitleSet(r) {
      var i :| 0 <= i < |s| && s[i].title == t;
      assert r[i + 1] == s[i];
    }
    forall t | t in TitleSet(r) ensures t in {x.title} + TitleSet(s) {
      var i :| 0 <= i < |r| && r[i].title == t;
      if i > 0 {
        assert r[i] == s[i - 1];
      }
    }
  }

  /** A list headed by `x` has distinct titles exactly when its tail does and lacks `x`'s title. */
  lemma DistinctCons(x: TitleRecord, s: seq<TitleRecord>)
    ensures DistinctTitles([x] + s) <==> x.title !in TitleSet(s) && DistinctTitles(s)
  {
    var r := [x] + s;
    assert r[0] == x;
    if DistinctTitles(r) {
      forall i | 0 <= i < |s| ensures s[i].title != x.title {
        assert r[i + 1] == s[i];
      }
      forall i, j | 0 <= i < j < |s| ensures s[i].title != s[j].title {
        assert r[i + 1] == s[i] && r[j + 1] == s[j];
      }
    }
    if x.title !in TitleSet(s) && DistinctTitles(s) {
      forall i, j | 0 <= i < j < |r| ensures r[i].title != r[j].title {
        assert r[j] == s[j - 1];
        if i == 0 {
          assert s[j - 1].title in TitleSet(s);
        } else {
          assert r[i] == s[i - 1];
        }
      }
    }
  }

  /** `[t for t in titles if t['category'] == category]`. */
  function InCategory(titles: seq<TitleRecord>, category: string): (r: seq<TitleRecord>)
    ensures |r| <= |titles|
    ensures forall i :: 0 <= i < |r| ==> r[i].category == category && r[i] in titles
    ensures forall x :: x in titles && x.category == category ==> x in r
  {
    if titles == [] then []
    else
      var rest := InCategory(titles[1..], category);
      forall i | 0 <= i < |rest| ensures rest[i] in titles {
        var k :| 0 <= k < |titles[1..]| && titles[1..][k] == rest[i];
        assert titles[k + 1] == rest[i];
      }
      forall x | x in titles && x.category == category && x != titles[0] ensures x in rest {
        var k :| 0 <= k < |titles| && titles[k] == x;
        assert titles[1..][k - 1] == x;
      }
      if titles[0].category == category then [titles[0]] + rest else rest
  }

  /**
   * The filter keeps input order: filtering a concatenation is filtering
   * each part, so records of the category keep their relative order.
   */
  lemma {:induction false} InCategoryAppend(a: seq<TitleRecord>, b: seq<TitleRecord>, category: string)
    ensures InCategory(a + b, category) == InCategory(a, category) + InCategory(b, category)
    decreases |a|
  {
    if a == [] {
      assert a + b == b;
    } else {
      assert (a + b)[0] == a[0];
      assert (a + b)[1..] == a[1..] + b;
      InCategoryAppend(a[1..], b, category);
    }
  }

  /** A single record is kept exactly when it has the category. */
  lemma InCategorySingle(x: TitleRecord, category: string)
    ensures InCategory([x], category) == (if x.category == category then [x] else [])
  {
    assert [x][1..] == [];
  }

  /** Filtering a category keeps only titles that were there, and keeps them distinct. */
  lemma {:induction false} InCategoryTitles(titles: seq<TitleRecord>, category: string)
    ensures TitleSet(InCategory(titles, category)) <= TitleSet(titles)
    ensures DistinctTitles(titles) ==> DistinctTitles(InCategory(titles, category))
  {
    if titles != [] {
      var rest := InCategory(titles[1..], category);
      InCategoryTitles(titles[1..], category);
      assert titles == [titles[0]] + titles[1..];
      TitleSetCons(titles[0], titles[1..]);
      DistinctCons(titles[0], titles[1..]);
      if titles[0].category == category {
        TitleSetCons(titles[0], rest);
        DistinctCons(titles[0], rest);
      }
    }
  }

  /** No record comes before one with a higher score. */
  predicate Descending(s: seq<TitleRecord>) {
    forall i, j :: 0 <= i < j < |s| ==> s[i].score >= s[j].score
  }

  /** The records with score `v`, in order. */
  function WithScore(s: seq<TitleRecord>, v: int): seq<TitleRecord> {
    if s == [] then []
    else (if s[0].score == v then [s[0]] else []) + WithScore(s[1..], v)
  }

  /** `x` placed before the first record whose score does not exceed its own. */
  function Insert(x: TitleRecord, s: seq<TitleRecord>): (r: seq<TitleRecord>)
    requires Descending(s)
    ensures |r| == |s| + 1
    ensures forall k :: 0 <= k < |r| ==> r[k].score <= x.score || (|s| > 0 && r[k].score <= s[0].score)
    ensures Descending(r)
    ensures multiset(r) == multiset(s) + multiset{x}
  {
    if s == [] || x.score >= s[0].score then
      ConsDescending(x, s);
      [x] + s
    else
      var rest := Insert(x, s[1..]);
      assert s == [s[0]] + s[1..];
      ConsDescending(s[0], rest);
      [s[0]] + rest
  }

  /** A head scoring at least every record of a descending tail keeps the sequence descending. */
  lemma ConsDescending(h: TitleRecord, rest: seq<TitleRecord>)
    requires Descending(rest)
    requires forall k :: 0 <= k < |rest| ==> rest[k].score <= h.score
    ensures Descending([h] + rest)
  {
    var r := [h] + rest;
    forall i, j | 0 <= i < j < |r| ensures r[i].score >= r[j].score {
      assert r[j] == rest[j - 1];
      if i > 0 {
        assert r[i] == rest[i - 1];
      }
    }
  }

  /** Inserting `x` adds its title, and keeps titles distinct when `x`'s title is new. */
  lemma {:induction false} InsertTitles(x: TitleRecord, s: seq<TitleRecord>)
    requires Descending(s)
    ensures TitleSet(Insert(x, s)) == {x.title} + TitleSet(s)
    ensures DistinctTitles(s) && x.title !in TitleSet(s) ==> DistinctTitles(Insert(x, s))
  {
    if s == [] || x.score >= s[0].score {
      TitleSetCons(x, s);
      DistinctCons(x, s);
    } else {
      var rest := Insert(x, s[1..]);
      InsertTitles(x, s[1..]);
      assert s == [s[0]] + s[1..];
      assert Insert(x, s) == [s[0]] + rest;
      TitleSetCons(s[0], s[1..]);
      TitleSetCons(s[0], rest);
      DistinctCons(s[0], s[1..]);
      DistinctCons(s[0], rest);
    }
  }

  /** Among records of one score, `x` goes first: it is placed before every record it ties with. */
  lemma {:induction false} InsertStable(x: TitleRecord, s: seq<TitleRecord>)
    requires Descending(s)
    ensures forall v :: WithScore(Insert(x, s), v) == if x.score == v then [x] + WithScore(s, v) else WithScore(s, v)
  {
    var r := Insert(x, s);
    if s == [] || x.score >= s[0].score {
      assert r[1..] == s;
    } else {
      var rest := Insert(x, s[1..]);
      InsertStable(x, s[1..]);
      assert r == [s[0]] + rest;
      assert r[1..] == rest;
    }
  }

  /** Python's `sorted(s, key=score, reverse=True)`: records by descending score, a permutation of `s`. */
  function SortDesc(s: seq<TitleRecord>): (r: seq<TitleRecord>)
    ensures |r| == |s|
    ensures Descending(r)
    ensures multiset(r) == multiset(s)
  {
    if s == [] then []
    else
      assert s == [s[0]] + s[1..];
      Insert(s[0], SortDesc(s[1..]))
  }

  /** The sort is stable: the records of each score keep their input order. */
  lemma {:induction false} SortDescStable(s: seq<TitleRecord>)
    ensures forall v :: WithScore(SortDesc(s), v) == WithScore(s, v)
  {
    if s != [] {
      SortDescStable(s[1..]);
      InsertStable(s[0], SortDesc(s[1..]));
    }
  }

  /** Sorting keeps the set of titles. */
  lemma {:induction false} SortDescTitleSet(s: seq<TitleRecord>)
    ensures TitleSet(SortDesc(s)) == TitleSet(s)
  {
    if s != [] {
      SortDescTitleSet(s[1..]);
      InsertTitles(s[0], SortDesc(s[1..]));
      TitleSetHead(s);
    }
  }

  /** Sorting records with distinct titles leaves them distinct. */
  lemma {:induction false} SortDescDistinct(s: seq<TitleRecord>)
    requires DistinctTitles(s)
    ensures DistinctTitles(SortDesc(s))
  {
    if s != [] {
      DistinctHead(s);
      SortDescDistinct(s[1..]);
      SortDescTitleSet(s[1..]);
      InsertTitles(s[0], SortDesc(s[1..]));
    }
  }

  lemma TitleSetHead(s: seq<TitleRecord>)
    requires s != []
    ensures TitleSet(s) == {s[0].title} + TitleSet(s[1..])
  {
    assert s == [s[0]] + s[1..];
    TitleSetCons(s[0], s[1..]);
  }

  lemma DistinctHead(s: seq<TitleRecord>)
    requires s != []
    ensures DistinctTitles(s) <==> s[0].title !in TitleSet(s[1..]) && DistinctTitles(s[1..])
  {
    assert s == [s[0]] + s[1..];
    DistinctCons(s[0], s[1..]);
  }

  function Min(a: nat, b: nat): nat {
    if a <= b then a else b
  }

  /** Python's `s[lo:hi]`, which clamps both bounds to the length. */
  function PySlice(s: seq<TitleRecord>, lo: nat, hi: nat): (r: seq<TitleRecord>)
    requires lo <= hi
    ensures |r| == Min(hi, |s|) - Min(lo, |s|)
    ensures forall i :: 0 <= i < |r| ==> r[i] == s[Min(lo, |s|) + i]
  {
    s[Min(lo, |s|)..Min(hi, |s|)]
  }

  /** The loop that keeps the non-empty titles of a slice, in order. */
  function NonEmptyTitles(recs: seq<TitleRecord>): (titles: seq<string>)
    ensures |titles| <= |recs|
    ensures forall i :: 0 <= i < |titles| ==> titles[i] != ""
  {
    if recs == [] then []
    else (if recs[0].title != "" then [recs[0].title] else []) + NonEmptyTitles(recs[1..])
  }

  /** The titles of the records, in order. */
  function Titles(recs: seq<TitleRecord>): (titles: seq<string>)
    ensures |titles| == |recs|
    ensures forall i :: 0 <= i < |recs| ==> titles[i] == recs[i].title
  {
    seq(|recs|, i requires 0 <= i < |recs| => recs[i].title)
  }

  /** With no empty title among the records, the filtering loop keeps every title. */
  lemma {:induction false} NonEmptyTitlesOfFull(recs: seq<TitleRecord>)
    requires forall i :: 0 <= i < |recs| ==> recs[i].title != ""
    ensures NonEmptyTitles(recs) == Titles(recs)
  {
    if recs != [] {
      NonEmptyTitlesOfFull(recs[1..]);
      assert Titles(recs) == [recs[0].title] + Titles(recs[1..]);
    }
  }

  datatype Selection = Selection(primaries: seq<string>, secondaries: seq<string>)

  /** The records of `category`, best score first. */
  function Ranked(titles: seq<TitleRecord>, category: string): seq<TitleRecord> {
    SortDesc(InCategory(titles, category))
  }

  /** One category of `stage_2`: filter, sort, and keep the titles of slices [0:20] and [20:270]. */
  function RankCategory(titles: seq<TitleRecord>, category: string): (s: Selection)
    ensures |s.primaries| <= PrimaryCount && |s.secondaries| <= SelectedCount - PrimaryCount
    ensures forall i :: 0 <= i < |s.primaries| ==> s.primaries[i] != ""
    ensures forall i :: 0 <= i < |s.secondaries| ==> s.secondaries[i] != ""
  {
    var sorted := Ranked(titles, category);
    Selection(NonEmptyTitles(PySlice(sorted, 0, PrimaryCount)),
              NonEmptyTitles(PySlice(sorted, PrimaryCount, SelectedCount)))
  }

  /** Every ranked record is one of the loaded records and belongs to the category. */
  lemma RankedMembers(titles: seq<TitleRecord>, category: string)
    ensures forall i :: 0 <= i < |Ranked(titles, category)| ==>
      Ranked(titles, category)[i].category == category && Ranked(titles, category)[i] in titles
  {
    var members := InCategory(titles, category);
    var sorted := SortDesc(members);
    forall i | 0 <= i < |sorted| ensures sorted[i] in members {
      assert sorted[i] in multiset(sorted);
    }
  }

  /**
   * The top-K policy for a category with `n` titles, none empty as loading
   * leaves them: the primaries are the titles of the best min(n, 20)
   * records and the secondaries those of the next ones up to min(n, 270), so
   * there are at most 20 and at most 250 of them, and every primary scores
   * at least as high as every secondary.
   */
  lemma TopSelection(titles: seq<TitleRecord>, category: string)
    requires forall i :: 0 <= i < |titles| ==> titles[i].title != ""
    ensures RankCategory(titles, category).primaries ==
      Titles(Ranked(titles, category)[..Min(|Ranked(titles, category)|, PrimaryCount)])
    ensures RankCategory(titles, category).secondaries ==
      Titles(Ranked(titles, category)[Min(|Ranked(titles, category)|, PrimaryCount)..Min(|Ranked(titles, category)|, SelectedCount)])
    ensures |RankCategory(titles, category).primaries| <= PrimaryCount
    ensures |RankCategory(titles, category).secondaries| <= SelectedCount - PrimaryCount
    ensures forall i, j ::
      (0 <= i < |RankCategory(titles, category).primaries| <= j < Min(|Ranked(titles, category)|, SelectedCount)) ==>
      Ranked(titles, category)[i].score >= Ranked(titles, category)[j].score
  {
    var sorted := Ranked(titles, category);
    var p := Min(|sorted|, PrimaryCount);
    var q := Min(|sorted|, SelectedCount);
    RankedMembers(titles, category);
    forall i | 0 <= i < |sorted| ensures sorted[i].title != "" {
      var k :| 0 <= k < |titles| && titles[k] == sorted[i];
    }
    assert PySlice(sorted, 0, PrimaryCount) == sorted[..p];
    assert PySlice(sorted, PrimaryCount, SelectedCount) == sorted[p..q];
    NonEmptyTitlesOfFull(sorted[..p]);
    NonEmptyTitlesOfFull(sorted[p..q]);
  }

  /** No string occurs twice. */
  predicate NoRepeats(s: seq<string>) {
    forall i, j :: 0 <= i < j < |s| ==> s[i] != s[j]
  }

  /** Ranking records with distinct titles leaves them distinct. */
  lemma RankedDistinct(titles: seq<TitleRecord>, category: string)
    requires DistinctTitles(titles)
    ensures DistinctTitles(Ranked(titles, category))
  {
    InCategoryTitles(titles, category);
    SortDescDistinct(InCategory(titles, category));
  }

  /** The titles of a prefix of distinct records, split at `p`, repeat no title. */
  lemma TitlesOfPrefix(recs: seq<TitleRecord>, p: nat, q: nat)
    requires p <= q <= |recs|
    requires DistinctTitles(recs)
    ensures NoRepeats(Titles(recs[..p]) + Titles(recs[p..q]))
  {
    var all := Titles(recs[..p]) + Titles(recs[p..q]);
    assert forall i :: 0 <= i < |all| ==> all[i] == recs[i].title;
  }

  /** When the loaded titles are distinct, no title is selected twice. */
  lemma SelectionDistinct(titles: seq<TitleRecord>, category: string)
    requires forall i :: 0 <= i < |titles| ==> titles[i].title != ""
    requires DistinctTitles(titles)
    ensures NoRepeats(RankCategory(titles, category).primaries + RankCategory(titles, category).secondaries)
  {
    var sorted := Ranked(titles, category);
    TopSelection(titles, category);
    RankedDistinct(titles, category);
    TitlesOfPrefix(sorted, Min(|sorted|, PrimaryCount), Min(|sorted|, SelectedCount));
  }
}
