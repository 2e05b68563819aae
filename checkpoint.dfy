/**
 * The checkpoint files between stages and the documents the persist steps
 * build from them. A file is a sequence of rows; a stage-1 row is a
 * sequence of text cells, a stage-2 row holds the Python values it was written from.
 */
module Checkpoint {
  import opened Optional
  import opened Handler

  /** The header `stage_1` writes before any row. */
  const Header: seq<string> := [
    "article",
    "answer",
    "Title",
    "Category",
    "Summary",
    "Importance 1 day",
    "Reasoning for 1 day score",
    "Importance 1 week",
    "Reasoning for 1 week score",
    "Importance 1 month",
    "Reasoning for 1 month score",
    "site_name",
    "link"
  ]

  const ColumnCount: nat := 13

  /** What `csv.writer` writes for a field: `None` becomes the empty cell. */
  function Cell(field: Option<string>): string {
    match field
    case Some(s) => s
    case None => ""
  }

  /** A summarized handler result as a complete one. */
  predicate IsSummary(r: HandlerResult) {
    r.Summarized? && |r.fields| == FieldCount
  }

  /** `article_data[0:-1]`: the row `stage_1` appends for a summary, the usage object dropped. */
  function SummaryRow(r: HandlerResult): (row: seq<string>)
    requires IsSummary(r)
    ensures |row| == ColumnCount == |Header|
    ensures row[0] == r.item.article && row[1] == r.reply
    ensures forall k :: 0 <= k < FieldCount ==> row[2 + k] == Cell(r.fields[k])
    ensures row[11] == r.item.siteName && row[12] == r.item.link
  {
    [r.item.article, r.reply] +
    seq(FieldCount, k requires 0 <= k < FieldCount => Cell(r.fields[k])) +
    [r.item.siteName, r.item.link]
  }

  /** The article a full row came from: columns 0, 11 and 12. */
  function RowItem(row: seq<string>): Item
    requires |row| >= ColumnCount
  {
    Item(row[0], row[11], row[12])
  }

  /** A row written for a summary gives back the article it was written for. */
  lemma SummaryRowItem(r: HandlerResult)
    requires IsSummary(r)
    ensures RowItem(SummaryRow(r)) == r.item
  {
  }

  datatype Scored = Scored(score: string, reason: string)

  datatype Scores = Scores(day: Scored, week: Scored, month: Scored)

  /** The document `stage_1_save_db` builds from a row. */
  datatype Document = Document(
    article: string, title: string, category: string, summary: string,
    score: Scores, siteName: string, link: string)

  datatype LoadError =
    | MissingHeader         // `next(csv_reader)` on an empty file
    | ShortRow(row: nat)    // IndexError on a non-empty row of fewer than 13 cells

  /** The document for one data row: scores from the column pairs (5,6), (7,8), (9,10). */
  function RowDocument(row: seq<string>): (d: Document)
    requires |row| >= ColumnCount
    ensures RowItem(row) == Item(d.article, d.siteName, d.link)
  {
    Document(row[0], row[2], row[3], row[4],
      Scores(Scored(row[5], row[6]), Scored(row[7], row[8]), Scored(row[9], row[10])),
      row[11], row[12])
  }

  /** Every row is empty or has all thirteen columns. */
  predicate Complete(rows: seq<seq<string>>) {
    forall i :: 0 <= i < |rows| ==> rows[i] == [] || |rows[i]| >= ColumnCount
  }

  /** The non-empty rows, in order. */
  function NonEmptyRows(rows: seq<seq<string>>): (r: seq<seq<string>>)
    ensures |r| <= |rows|
    ensures forall i :: 0 <= i < |r| ==> r[i] != []
    ensures Complete(rows) ==> forall i :: 0 <= i < |r| ==> |r[i]| >= ColumnCount
    ensures forall row :: row in r <==> row in rows && row != []
  {
    if rows == [] then []
    else
      assert Complete(rows) ==> Complete(rows[1..]) by {
        assert forall i :: 1 <= i < |rows| ==> rows[1..][i - 1] == rows[i];
      }
      assert forall row :: row in rows <==> row == rows[0] || row in rows[1..];
      if rows[0] == [] then NonEmptyRows(rows[1..])
      else [rows[0]] + NonEmptyRows(rows[1..])
  }

  /** Skipping empty rows keeps the order of the rest: it distributes over concatenation. */
  lemma {:induction false} NonEmptyRowsAppend(a: seq<seq<string>>, b: seq<seq<string>>)
    ensures NonEmptyRows(a + b) == NonEmptyRows(a) + NonEmptyRows(b)
    decreases |a|
  {
    if a == [] {
      assert a + b == b;
    } else {
      assert (a + b)[0] == a[0];
      assert (a + b)[1..] == a[1..] + b;
      NonEmptyRowsAppend(a[1..], b);
    }
  }

  /** A single row is kept exactly when it is not empty. */
  lemma NonEmptyRowsSingle(row: seq<string>)
    ensures NonEmptyRows([row]) == (if row == [] then [] else [row])
  {
    assert [row][1..] == [];
  }

  /** Position of the first non-empty row with fewer than thirteen cells. */
  function FirstShortRow(rows: seq<seq<string>>): (r: Option<nat>)
    ensures r.None? <==> Complete(rows)
    ensures r.Some? ==> r.value < |rows| && rows[r.value] != [] && |rows[r.value]| < ColumnCount
    ensures r.Some? ==> Complete(rows[..r.value])
  {
    if rows == [] then None
    else if rows[0] != [] && |rows[0]| < ColumnCount then Some(0)
    else
      match FirstShortRow(rows[1..])
      case Some(i) =>
        assert rows[..i + 1] == [rows[0]] + rows[1..][..i];
        Some(i + 1)
      case None =>
        assert forall i :: 1 <= i < |rows| ==> rows[1..][i - 1] == rows[i];
        None
  }

  /**
   * The documents for the data rows, in order: empty rows are skipped; a
   * short row raises IndexError, so nothing is loaded and the error names
   * that row (counting from `offset`).
   */
  function DataRowsDocuments(rows: seq<seq<string>>, offset: nat): (r: Result<seq<Document>, LoadError>)
    ensures r.Ok? <==> Complete(rows)
    ensures r.Ok? ==> |r.value| == |NonEmptyRows(rows)|
    ensures r.Ok? ==> forall i :: 0 <= i < |r.value| ==>
      |NonEmptyRows(rows)[i]| >= ColumnCount && r.value[i] == RowDocument(NonEmptyRows(rows)[i])
    ensures r.Err? ==> exists i :: 0 <= i < |rows| && r.error == ShortRow(offset + i) && rows[i] != [] && |rows[i]| < ColumnCount
  {
    match FirstShortRow(rows)
    case Some(i) => Err(ShortRow(offset + i))
    case None =>
      var full := NonEmptyRows(rows);
      Ok(seq(|full|, i requires 0 <= i < |full| => RowDocument(full[i])))
  }

  /** `stage_1_save_db` up to the database write: skip the header, then one document per data row. */
  function Stage1Documents(file: seq<seq<string>>): (r: Result<seq<Document>, LoadError>)
    ensures file == [] ==> r == Err(MissingHeader)
    ensures file != [] ==> (r.Ok? <==> Complete(file[1..]))
    ensures file != [] ==> r == DataRowsDocuments(file[1..], 1)
  {
    if file == [] then Err(MissingHeader) else DataRowsDocuments(file[1..], 1)
  }

  /** The document a summary's row reads back as. */
  function SummaryDocument(r: HandlerResult): Document
    requires IsSummary(r)
  {
    Document(r.item.article, Cell(r.fields[0]), Cell(r.fields[1]), Cell(r.fields[2]),
      Scores(Scored(Cell(r.fields[3]), Cell(r.fields[4])),
             Scored(Cell(r.fields[5]), Cell(r.fields[6])),
             Scored(Cell(r.fields[7]), Cell(r.fields[8]))),
      r.item.siteName, r.item.link)
  }

  /** The rows written for a sequence of summaries, in order. */
  function SummaryRows(results: seq<HandlerResult>): (rows: seq<seq<string>>)
    requires forall i :: 0 <= i < |results| ==> IsSummary(results[i])
    ensures |rows| == |results|
    ensures forall i :: 0 <= i < |rows| ==> rows[i] == SummaryRow(results[i])
  {
    seq(|results|, i requires 0 <= i < |results| => SummaryRow(results[i]))
  }

  /** The rows of a list of summaries are the first summary's row followed by the rows of the others. */
  lemma SummaryRowsCons(results: seq<HandlerResult>)
    requires results != [] && forall i :: 0 <= i < |results| ==> IsSummary(results[i])
    ensures SummaryRows(results) == [SummaryRow(results[0])] + SummaryRows(results[1..])
  {
    var whole, rest := SummaryRows(results), SummaryRows(results[1..]);
    forall i | 1 <= i < |whole| ensures whole[i] == rest[i - 1] {
      assert results[1..][i - 1] == results[i];
    }
  }

  /**
   * Checkpoint round trip: a stage-1 file made of the header and the rows
   * of N summaries reads back as exactly N documents, the i-th holding the
   * i-th summary's article, fields, site name and link.
   */
  lemma {:induction false} Stage1RoundTrip(results: seq<HandlerResult>)
    requires forall i :: 0 <= i < |results| ==> IsSummary(results[i])
    ensures Stage1Documents([Header] + SummaryRows(results)).Ok?
    ensures var docs := Stage1Documents([Header] + SummaryRows(results)).value;
      |docs| == |results| && forall i :: 0 <= i < |results| ==> docs[i] == SummaryDocument(results[i])
  {
    var rows := SummaryRows(results);
    assert ([Header] + rows)[1..] == rows;
    NonEmptyRowsOfFull(rows);
  }

  lemma {:induction false} NonEmptyRowsOfFull(rows: seq<seq<string>>)
    requires forall i :: 0 <= i < |rows| ==> rows[i] != []
    ensures NonEmptyRows(rows) == rows
  {
    if rows != [] {
      NonEmptyRowsOfFull(rows[1..]);
      assert [rows[0]] + rows[1..] == rows;
    }
  }

  // ---------------------------------------------------------------------------
  // Stage 2

  /** A value `json.loads` can give (numbers are integers here). */
  datatype JsonValue =
    | JNull
    | JBool(b: bool)
    | JNumber(n: int)
    | JString(s: string)
    | JArray(items: seq<JsonValue>)
    | JObject(members: seq<(string, JsonValue)>)

  /** Python truthiness of a decoded value, as `if data:` tests it. */
  predicate Truthy(v: JsonValue) {
    match v
    case JNull => false
    case JBool(b) => b
    case JNumber(n) => n != 0
    case JString(s) => s != ""
    case JArray(items) => items != []
    case JObject(members) => members != []
  }

  /**
   * A line of a stage-2 file: the row `[category, primaries, secondaries, data]`
   * `stage_2` writes, or a blank line. Each cell holds the value it was
   * written from, which `eval` of its text gives back.
   */
  datatype Stage2Line =
    | BlankLine
    | CategoryRow(category: string, primaries: seq<string>, secondaries: seq<string>, clusters: JsonValue)

  /** What `eval` makes of a cell of a stage-2 row. */
  datatype PyValue = TitleList(titles: seq<string>) | JsonData(value: JsonValue)

  datatype Stage2Document = Stage2Document(category: string, data: PyValue)

  /** The category rows of a stage-2 file, in order. */
  function CategoryRows(lines: seq<Stage2Line>): (rows: seq<Stage2Line>)
    ensures |rows| <= |lines|
    ensures forall i :: 0 <= i < |rows| ==> rows[i].CategoryRow?
    ensures forall l :: l in rows <==> l in lines && l.CategoryRow?
  {
    if lines == [] then []
    else if lines[0].BlankLine? then CategoryRows(lines[1..])
    else [lines[0]] + CategoryRows(lines[1..])
  }

  /**
   * `stage_2_save_db` as written: `data = row[2]` is the secondaries column,
   * so each document holds the category's secondary titles.
   */
  function Stage2DocumentsAsWritten(lines: seq<Stage2Line>): (docs: seq<Stage2Document>)
    ensures |docs| == |CategoryRows(lines)|
    ensures forall i :: 0 <= i < |docs| ==>
      docs[i] == Stage2Document(CategoryRows(lines)[i].category, TitleList(CategoryRows(lines)[i].secondaries))
  {
    var rows := CategoryRows(lines);
    seq(|rows|, i requires 0 <= i < |rows| => Stage2Document(rows[i].category, TitleList(rows[i].secondaries)))
  }

  /** The written code stores the secondaries, never the topic clusters the stage produced. */
  lemma Stage2SaveDbDropsClusters(category: string, primaries: seq<string>, secondaries: seq<string>, clusters: JsonValue)
    ensures var docs := Stage2DocumentsAsWritten([CategoryRow(category, primaries, secondaries, clusters)]);
      |docs| == 1 && docs[0].data == TitleList(secondaries) && docs[0].data != JsonData(clusters)
  {
    var line := CategoryRow(category, primaries, secondaries, clusters);
    assert CategoryRows([line]) == [line] by {
      assert [line][1..] == [];
    }
  }

  /**
   * `stage_2_save_db` reading the data column 3: one document per category
   * row, holding that category's topic clusters.
   */
  function Stage2Documents(lines: seq<Stage2Line>): (docs: seq<Stage2Document>)
    ensures |docs| == |CategoryRows(lines)|
    ensures forall i :: 0 <= i < |docs| ==>
      docs[i] == Stage2Document(CategoryRows(lines)[i].category, JsonData(CategoryRows(lines)[i].clusters))
  {
    var rows := CategoryRows(lines);
    seq(|rows|, i requires 0 <= i < |rows| => Stage2Document(rows[i].category, JsonData(rows[i].clusters)))
  }

  /** Blank lines add no document and category rows keep their order. */
  lemma {:induction false} CategoryRowsAppend(a: seq<Stage2Line>, b: seq<Stage2Line>)
    ensures CategoryRows(a + b) == CategoryRows(a) + CategoryRows(b)
  {
    if a != [] {
      CategoryRowsAppend(a[1..], b);
      assert (a + b)[1..] == a[1..] + b;
    } else {
      assert a + b == b;
    }
  }
}
