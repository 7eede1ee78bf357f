/** Table-to-text rendering (`TableExtractor` in src/models/table_processing/table_extractor.py).

    A table is a grid of cell texts, row 0 being the header. Each table becomes one document
    whose text is a title line, a header line, and for each data row a line of its cells and a
    line describing it as "column为value" pairs. Reading the Word or PDF file (python-docx,
    camelot) is left out: the methods take the grids those libraries produce. */
module TableExtraction {
  import opened Wrappers
  import opened Text
  import opened Documents

  type Row = seq<string>
  type Grid = seq<Row>

  const CellSeparator := " | "
  const DescriptionPrefix := "该行数据表示: "
  /** `rstrip(", ")` strips these characters, in any number and order. */
  const StripChars: set<char> := {',', ' '}

  // ---------------------------------------------------------------------------------------
  // The lines of a table's text

  /** `表格{i+1}内容:` */
  function TitleLine(i: nat): string
  {
    "表格" + Decimal(i + 1) + "内容:"
  }

  /** `列标题: ` and the header cells joined with ` | `. */
  function HeaderLine(header: Row): string
  {
    "列标题: " + Join(header, CellSeparator)
  }

  /** `行{n}: ` and the row's cells joined with ` | ` (every cell, described or not). */
  function RowLine(n: nat, row: Row): string
  {
    "行" + Decimal(n) + ": " + Join(row, CellSeparator)
  }

  /** The f-string `{col_names[j]}为{val}, `. */
  function Pair(name: string, value: string): string
  {
    name + "为" + value + ", "
  }

  /** `row_desc` after the cell loop: the prefix, then a pair for each cell of `row` that has
      a column name. */
  function Described(header: Row, row: Row): string
    decreases |row|
  {
    if row == [] then DescriptionPrefix
    else
      var j := |row| - 1;
      Described(header, row[..j]) + (if j < |header| then Pair(header[j], row[j]) else "")
  }

  /** `row_desc.rstrip(", ")`. */
  function DescriptionLine(header: Row, row: Row): string
  {
    RStrip(Described(header, row), StripChars)
  }

  /** The text data row `n` adds: its cell line and its description line. */
  function RowText(header: Row, n: nat, row: Row): string
  {
    RowLine(n, row) + "\n" + DescriptionLine(header, row) + "\n"
  }

  /** The title and header lines. */
  function Heading(i: nat, header: Row): string
  {
    TitleLine(i) + "\n" + HeaderLine(header) + "\n"
  }

  /** `table_text` once the data rows `rows` (numbered from 1) have been added. */
  function Rendered(i: nat, header: Row, rows: seq<Row>): string
    decreases |rows|
  {
    if rows == [] then Heading(i, header)
    else
      var n := |rows|;
      Rendered(i, header, rows[..n - 1]) + RowText(header, n, rows[n - 1])
  }

  /** The `page_content` of table `i` with rows `data`. */
  function TableText(i: nat, data: Grid): string
    requires |data| > 0
  {
    Rendered(i, data[0], data[1..])
  }

  /** The lines of the data rows, in order, two per row. */
  function RowLines(header: Row, rows: seq<Row>): (lines: seq<string>)
    ensures |lines| == 2 * |rows|
    decreases |rows|
  {
    if rows == [] then []
    else
      var n := |rows|;
      RowLines(header, rows[..n - 1]) + [RowLine(n, rows[n - 1]), DescriptionLine(header, rows[n - 1])]
  }

  /** Data row m (0-based) has its `行{m+1}:` line at position 2m and its description at 2m+1. */
  lemma {:induction false} RowLinesInOrder(header: Row, rows: seq<Row>)
    ensures forall m :: 0 <= m < |rows| ==>
              RowLines(header, rows)[2 * m] == RowLine(m + 1, rows[m]) &&
              RowLines(header, rows)[2 * m + 1] == DescriptionLine(header, rows[m])
    decreases |rows|
  {
    if rows != [] {
      var n := |rows|;
      var front := rows[..n - 1];
      RowLinesInOrder(header, front);
      var before := RowLines(header, front);
      var lines := RowLines(header, rows);
      assert lines == before + [RowLine(n, rows[n - 1]), DescriptionLine(header, rows[n - 1])];
      forall m | 0 <= m < n
        ensures lines[2 * m] == RowLine(m + 1, rows[m]) && lines[2 * m + 1] == DescriptionLine(header, rows[m])
      {
        if m < n - 1 {
          assert front[m] == rows[m];
          assert lines[2 * m] == before[2 * m] && lines[2 * m + 1] == before[2 * m + 1];
        }
      }
    }
  }

  /** The lines of table `i`: title, header, then two lines per data row. */
  function TableLines(i: nat, data: Grid): seq<string>
    requires |data| > 0
  {
    [TitleLine(i), HeaderLine(data[0])] + RowLines(data[0], data[1..])
  }

  // ---------------------------------------------------------------------------------------
  // Documents

  /** The document for table `i`. */
  function TableDoc(path: string, i: nat, text: string): Doc
  {
    Doc(text, map["source" := Str(path), "content_type" := Str("table"), "table_index" := Int(i)])
  }

  /** A table document carries exactly the metadata `{source, content_type: "table", table_index}`. */
  lemma TableDocMetadata(path: string, i: nat, text: string)
    ensures var d := TableDoc(path, i, text);
      && d.pageContent == text
      && MetaGet(d, "source") == Some(Str(path))
      && MetaGet(d, "content_type") == Some(Str("table"))
      && MetaGet(d, "table_index") == Some(Int(i))
      && d.metadata.Keys == {"source", "content_type", "table_index"}
  {
  }

  /** The documents `extract_tables_from_docx` builds for the tables of a Word document: one
      per table with at least one row, titled and indexed by the table's place among ALL tables. */
  function DocxDocs(path: string, tables: seq<Grid>): seq<Doc>
    decreases |tables|
  {
    if tables == [] then []
    else
      var i := |tables| - 1;
      DocxDocs(path, tables[..i]) + (if tables[i] == [] then [] else [TableDoc(path, i, TableText(i, tables[i]))])
  }

  /** The positions of the tables that have at least one row, in increasing order. */
  function NonEmptyIndices(tables: seq<Grid>): (idx: seq<nat>)
    ensures forall k :: 0 <= k < |idx| ==> idx[k] < |tables| && tables[idx[k]] != []
    ensures forall k, l :: 0 <= k < l < |idx| ==> idx[k] < idx[l]
    ensures forall i :: 0 <= i < |tables| && tables[i] != [] ==> i in idx
    decreases |tables|
  {
    if tables == [] then []
    else
      var i := |tables| - 1;
      var before := NonEmptyIndices(tables[..i]);
      assert forall k :: 0 <= k < |before| ==> tables[..i][before[k]] == tables[before[k]];
      before + (if tables[i] == [] then [] else [i])
  }

  /** Why an extraction raises: `df.iloc[0]` on a PDF table without rows (IndexError), or
      `pd.DataFrame(data[1:], columns=data[0])` on a Word table whose widest data row is not
      as wide as its header (ValueError). */
  datatype TableError = EmptyTable(tableIndex: nat) | ColumnMismatch(tableIndex: nat)

  /** The number of cells of the widest row, 0 for no rows: the column count pandas infers. */
  function MaxWidth(rows: seq<Row>): (w: nat)
    ensures forall k :: 0 <= k < |rows| ==> |rows[k]| <= w
    ensures rows != [] ==> exists k :: 0 <= k < |rows| && |rows[k]| == w
    decreases |rows|
  {
    if rows == [] then 0
    else
      var n := |rows| - 1;
      var w0 := MaxWidth(rows[..n]);
      assert forall k :: 0 <= k < n ==> rows[..n][k] == rows[k];
      if |rows[n]| > w0 then |rows[n]| else w0
  }

  /** `pd.DataFrame(data[1:], columns=data[0])` raises: there are data rows and the widest of
      them does not have as many cells as the header. */
  predicate Mismatched(data: Grid)
  {
    |data| > 1 && MaxWidth(data[1..]) != |data[0]|
  }

  /** The position of the first Word table whose data frame cannot be built, if there is one. */
  function FirstMismatched(tables: seq<Grid>): (r: Option<nat>)
    ensures r.None? <==> forall i :: 0 <= i < |tables| ==> !Mismatched(tables[i])
    ensures r.Some? ==> r.value < |tables| && Mismatched(tables[r.value]) &&
                        forall i :: 0 <= i < r.value ==> !Mismatched(tables[i])
    decreases |tables|
  {
    if tables == [] then None
    else
      var n := |tables| - 1;
      var front := tables[..n];
      assert forall i :: 0 <= i < n ==> front[i] == tables[i];
      match FirstMismatched(front)
      case Some(j) => Some(j)
      case None => if Mismatched(tables[n]) then Some(n) else None
  }

  /** What `extract_tables_from_docx` returns: the ValueError of the first table whose data
      frame cannot be built (the documents built before it are lost), or else the documents of
      the tables with rows. */
  function DocxResult(path: string, tables: seq<Grid>): Result<seq<Doc>, TableError>
  {
    match FirstMismatched(tables)
    case Some(i) => Failure(ColumnMismatch(i))
    case None => Success(DocxDocs(path, tables))
  }

  /** The position of the first table without rows, if there is one. */
  function FirstEmpty(tables: seq<Grid>): (r: Option<nat>)
    ensures r.None? <==> forall i :: 0 <= i < |tables| ==> tables[i] != []
    ensures r.Some? ==> r.value < |tables| && tables[r.value] == [] &&
                        forall i :: 0 <= i < r.value ==> tables[i] != []
    decreases |tables|
  {
    if tables == [] then None
    else
      var n := |tables| - 1;
      var front := tables[..n];
      assert forall i :: 0 <= i < n ==> front[i] == tables[i];
      match FirstEmpty(front)
      case Some(j) => Some(j)
      case None => if tables[n] == [] then Some(n) else None
  }

  /** What `extract_tables_from_pdf` returns for the tables camelot finds: the IndexError of
      the first table without rows (the documents built before it are lost), or else the same
      documents the Word extractor builds, one per table. */
  function PdfDocs(path: string, tables: seq<Grid>): Result<seq<Doc>, TableError>
  {
    match FirstEmpty(tables)
    case Some(i) => Failure(EmptyTable(i))
    case None => Success(DocxDocs(path, tables))
  }

  // ---------------------------------------------------------------------------------------
  // The extraction loops

  /** Builds the text of table `i` the way both extractors do: `table_text += …` per row, and
      `row_desc += …` per described cell. */
  method RenderTable(i: nat, data: Grid) returns (text: string)
    requires |data| > 0
    ensures text == TableText(i, data)
  {
    var header := data[0];
    var rows := data[1..];
    text := Heading(i, header);
    var r := 0;
    while r < |rows|
      invariant 0 <= r <= |rows|
      invariant text == Rendered(i, header, rows[..r])
    {
      var row := rows[r];
      var rowText := RowLine(r + 1, row) + "\n";
      var description := DescribeRow(header, row);
      rowText := rowText + RStrip(description, StripChars) + "\n";
      assert rowText == RowText(header, r + 1, row);
      assert rows[..r + 1][..r] == rows[..r];
      text := text + rowText;
      r := r + 1;
    }
    assert rows[..|rows|] == rows;
  }

  /** Regrouping a concatenation, for the steps that append to a text built so far. */
  lemma AppendAssoc<T>(a: seq<T>, b: seq<T>, c: seq<T>)
    ensures a + b + c == a + (b + c)
  {
  }

  /** The cell loop of one data row: `row_desc += …` for each cell that has a column name. */
  method DescribeRow(header: Row, row: Row) returns (description: string)
    ensures description == Described(header, row)
  {
    description := DescriptionPrefix;
    var j := 0;
    while j < |row|
      invariant 0 <= j <= |row|
      invariant description == Described(header, row[..j])
    {
      if j < |header| {
        description := description + Pair(header[j], row[j]);
      }
      assert row[..j + 1][..j] == row[..j];
      j := j + 1;
    }
    assert row[..|row|] == row;
  }

  /** `extract_tables_from_docx`: collects each table's rows, skips a table without rows,
      builds the data frame (which may raise) and renders the table. */
  method ExtractTablesFromDocx(path: string, tables: seq<Grid>) returns (result: Result<seq<Doc>, TableError>)
    ensures result == DocxResult(path, tables)
  {
    var docs: seq<Doc> := [];
    var i := 0;
    while i < |tables|
      invariant 0 <= i <= |tables|
      invariant forall k :: 0 <= k < i ==> !Mismatched(tables[k])
      invariant docs == DocxDocs(path, tables[..i])
    {
      var data := CollectRows(tables[i]);
      if Mismatched(data) {
        assert FirstMismatched(tables) == Some(i);
        return Failure(ColumnMismatch(i));
      }
      assert forall k :: 0 <= k < i + 1 ==> !Mismatched(tables[k]);
      assert tables[..i + 1][..i] == tables[..i];
      if data != [] {
        var text := RenderTable(i, data);
        docs := docs + [TableDoc(path, i, text)];
      }
      i := i + 1;
    }
    assert tables[..|tables|] == tables;
    assert FirstMismatched(tables).None?;
    return Success(docs);
  }

  /** The `data` loop: `data.append(row_data)` for each row of the table. */
  method CollectRows(table: Grid) returns (data: Grid)
    ensures data == table
  {
    data := [];
    var r := 0;
    while r < |table|
      invariant 0 <= r <= |table|
      invariant data == table[..r]
    {
      data := data + [table[r]];
      r := r + 1;
    }
  }

  /** `extract_tables_from_pdf`: renders every table in order; a table without rows makes the
      whole call fail. */
  method ExtractTablesFromPdf(path: string, tables: seq<Grid>) returns (result: Result<seq<Doc>, TableError>)
    ensures result == PdfDocs(path, tables)
  {
    var docs: seq<Doc> := [];
    var i := 0;
    while i < |tables|
      invariant 0 <= i <= |tables|
      invariant forall k :: 0 <= k < i ==> tables[k] != []
      invariant docs == DocxDocs(path, tables[..i])
    {
      if tables[i] == [] {
        assert FirstEmpty(tables) == Some(i);
        return Failure(EmptyTable(i));
      }
      assert forall k :: 0 <= k < i + 1 ==> tables[k] != [];
      assert tables[..i + 1][..i] == tables[..i];
      var text := RenderTable(i, tables[i]);
      docs := docs + [TableDoc(path, i, text)];
      i := i + 1;
    }
    assert tables[..|tables|] == tables;
    assert FirstEmpty(tables).None?;
    return Success(docs);
  }

  // ---------------------------------------------------------------------------------------
  // Properties

  /** The Word extractor returns one document per non-empty table, in table order, and a
      document keeps the index of its table among all tables (skipped ones included). */
  lemma {:induction false} DocxDocsFollowNonEmptyTables(path: string, tables: seq<Grid>)
    ensures var docs := DocxDocs(path, tables);
            var idx := NonEmptyIndices(tables);
            |docs| == |idx| &&
            forall k :: 0 <= k < |idx| ==> docs[k] == TableDoc(path, idx[k], TableText(idx[k], tables[idx[k]]))
    decreases |tables|
  {
    if tables != [] {
      var i := |tables| - 1;
      var front := tables[..i];
      DocxDocsFollowNonEmptyTables(path, front);
      var before := NonEmptyIndices(front);
      var docs0 := DocxDocs(path, front);
      var idx := NonEmptyIndices(tables);
      var docs := DocxDocs(path, tables);
      if tables[i] == [] {
        assert idx == before && docs == docs0;
        forall k | 0 <= k < |idx|
          ensures docs[k] == TableDoc(path, idx[k], TableText(idx[k], tables[idx[k]]))
        {
          assert tables[idx[k]] == front[idx[k]];
        }
      } else {
        var d := TableDoc(path, i, TableText(i, tables[i]));
        assert idx == before + [i] && docs == docs0 + [d];
        forall k | 0 <= k < |idx|
          ensures docs[k] == TableDoc(path, idx[k], TableText(idx[k], tables[idx[k]]))
        {
          if k < |before| {
            assert docs[k] == docs0[k] && idx[k] == before[k];
            assert tables[idx[k]] == front[idx[k]];
          }
        }
      }
    }
  }

  /** A successful Word extraction only ever rendered data rows that are no wider than their
      header, so the cells dropped from a description never occur on that path; a table whose
      data rows are all as wide as the header is always accepted. */
  lemma DocxRowsFitHeader(path: string, tables: seq<Grid>)
    ensures DocxResult(path, tables).Success? ==>
      forall i, r :: 0 <= i < |tables| && 1 <= r < |tables[i]| ==> |tables[i][r]| <= |tables[i][0]|
    ensures (forall i, r :: 0 <= i < |tables| && 1 <= r < |tables[i]| ==> |tables[i][r]| == |tables[i][0]|) ==>
      DocxResult(path, tables) == Success(DocxDocs(path, tables))
  {
    if DocxResult(path, tables).Success? {
      forall i, r | 0 <= i < |tables| && 1 <= r < |tables[i]| ensures |tables[i][r]| <= |tables[i][0]| {
        assert !Mismatched(tables[i]);
        assert tables[i][1..][r - 1] == tables[i][r];
      }
    }
    if forall i, r :: 0 <= i < |tables| && 1 <= r < |tables[i]| ==> |tables[i][r]| == |tables[i][0]| {
      forall i | 0 <= i < |tables| ensures !Mismatched(tables[i]) {
        if |tables[i]| > 1 {
          var rows := tables[i][1..];
          var k :| 0 <= k < |rows| && |rows[k]| == MaxWidth(rows);
          assert rows[k] == tables[i][k + 1];
        }
      }
    }
  }

  /** A successful PDF extraction returns one document per table, in order, each carrying
      its index. */
  lemma PdfDocsOnePerTable(path: string, tables: seq<Grid>)
    requires PdfDocs(path, tables).Success?
    ensures |PdfDocs(path, tables).value| == |tables|
    ensures forall i :: 0 <= i < |tables| ==>
              tables[i] != [] && PdfDocs(path, tables).value[i] == TableDoc(path, i, TableText(i, tables[i]))
  {
    DocxDocsFollowNonEmptyTables(path, tables);
    NonEmptyIndicesOfFullTables(tables);
  }

  /** With no empty table, every index is kept. */
  lemma {:induction false} NonEmptyIndicesOfFullTables(tables: seq<Grid>)
    requires forall i :: 0 <= i < |tables| ==> tables[i] != []
    ensures NonEmptyIndices(tables) == seq(|tables|, i requires 0 <= i < |tables| => i as nat)
    decreases |tables|
  {
    if tables != [] {
      NonEmptyIndicesOfFullTables(tables[..|tables| - 1]);
    }
  }

  /** The description pairs cells with column names only up to the header's length: cells
      past it do not change the description. */
  lemma {:induction false} DescribedIgnoresExtraCells(header: Row, row: Row)
    requires |row| >= |header|
    ensures Described(header, row) == Described(header, row[..|header|])
    decreases |row|
  {
    if |row| > |header| {
      var j := |row| - 1;
      DescribedIgnoresExtraCells(header, row[..j]);
      assert row[..j][..|header|] == row[..|header|];
    } else {
      assert row[..|header|] == row;
    }
  }

  /** Extra cells are left out of the description line (they still appear in the cell line). */
  lemma DescriptionIgnoresExtraCells(header: Row, row: Row)
    requires |row| >= |header|
    ensures DescriptionLine(header, row) == DescriptionLine(header, row[..|header|])
  {
    DescribedIgnoresExtraCells(header, row);
  }

  /** Stripping a tail made only of strip characters leaves the same result as without it. */
  lemma {:induction false} RStripIgnoresStrippedTail(s: string, tail: string, chars: set<char>)
    requires forall k :: 0 <= k < |tail| ==> tail[k] in chars
    ensures RStrip(s + tail, chars) == RStrip(s, chars)
    decreases |tail|
  {
    if tail != [] {
      var t := tail[..|tail| - 1];
      assert (s + tail)[..|s + tail| - 1] == s + t;
      RStripIgnoresStrippedTail(s, t, chars);
    } else {
      assert s + tail == s;
    }
  }

  /** `rstrip(", ")` strips a character set, not the `", "` suffix: when the last described
      value itself ends in commas or spaces, those are removed as well. */
  lemma TrailingCommasOfLastValueAreLost(header: Row, row: Row, value: string, tail: string)
    requires 0 < |row| <= |header|
    requires row[|row| - 1] == value + tail
    requires forall k :: 0 <= k < |tail| ==> tail[k] in StripChars
    ensures DescriptionLine(header, row) ==
            RStrip(Described(header, row[..|row| - 1]) + (header[|row| - 1] + "为" + value), StripChars)
  {
    var j := |row| - 1;
    var before := Described(header, row[..j]);
    var u := header[j] + "为";
    var front := before + (u + value);
    var t := tail + ", ";
    assert forall k :: 0 <= k < |t| ==> t[k] in StripChars;
    assert Described(header, row) == before + Pair(header[j], value + tail);
    assert Pair(header[j], value + tail) == (u + value) + t by {
      AppendAssoc(u, value, tail);
      AppendAssoc(u + value, tail, ", ");
    }
    AppendAssoc(before, u + value, t);
    RStripIgnoresStrippedTail(front, t, StripChars);
  }

  /** An example of the quirk: the value `好, ` is described as `好`. */
  lemma TrailingCommaExample()
    ensures DescriptionLine(["备注"], ["好, "]) == "该行数据表示: 备注为好"
  {
    TrailingCommasOfLastValueAreLost(["备注"], ["好, "], "好", ", ");
    assert ["好, "][..0] == [];
    var front := DescriptionPrefix + ("备注" + "为" + "好");
    assert front == "该行数据表示: 备注为好";
    assert front[|front| - 1] == '好';
  }

  /** A row with no cells is described by the prefix alone, and its trailing space goes too. */
  lemma EmptyRowDescription(header: Row)
    ensures DescriptionLine(header, []) == "该行数据表示:"
  {
    var s := DescriptionPrefix;
    var t := "该行数据表示:";
    assert s[|s| - 1] == ' ' && s[..|s| - 1] == t;
    assert t[|t| - 1] == ':';
    assert RStrip(t, StripChars) == t;
    assert RStrip(s, StripChars) == RStrip(t, StripChars);
  }

  /** The text is its lines, each ended by a newline. */
  lemma {:induction false} RenderedIsLines(i: nat, header: Row, rows: seq<Row>)
    ensures Join([TitleLine(i), HeaderLine(header)] + RowLines(header, rows) + [""], "\n") == Rendered(i, header, rows)
    decreases |rows|
  {
    var nl := "\n";
    var lead := [TitleLine(i), HeaderLine(header)];
    if rows == [] {
      assert lead + RowLines(header, rows) + [""] == [TitleLine(i), HeaderLine(header), ""];
      assert [TitleLine(i), HeaderLine(header), ""][1..] == [HeaderLine(header), ""];
      assert [HeaderLine(header), ""][1..] == [""];
      var t := TitleLine(i);
      var h := HeaderLine(header);
      assert Join([h, ""], nl) == h + nl;
      assert Join([t, h, ""], nl) == t + nl + (h + nl);
      AppendAssoc(t + nl, h, nl);
    } else {
      var n := |rows|;
      var a := RowLine(n, rows[n - 1]);
      var b := DescriptionLine(header, rows[n - 1]);
      var inner := RowLines(header, rows[..n - 1]);
      var x := lead + inner;
      var before := Rendered(i, header, rows[..n - 1]);
      var head := Join(x, nl) + nl;
      assert head == before by {
        RenderedIsLines(i, header, rows[..n - 1]);
        JoinSnoc(x, "", nl);
      }
      assert lead + RowLines(header, rows) + [""] == x + [a] + [b] + [""] by {
        assert RowLines(header, rows) == inner + [a, b];
        AppendAssoc(lead, inner, [a, b]);
        assert [a, b] == [a] + [b];
        AppendAssoc(x, [a], [b]);
      }
      assert Join(x + [a] + [b] + [""], nl) == head + (a + nl + b + nl) by {
        JoinSnoc(x, a, nl);
        JoinSnoc(x + [a], b, nl);
        JoinSnoc(x + [a] + [b], "", nl);
        assert head + a + nl + b + nl + "" == head + a + nl + b + nl;
        AppendAssoc(head, a, nl);
        AppendAssoc(head, a + nl, b);
        AppendAssoc(head, a + nl + b, nl);
      }
      assert Rendered(i, header, rows) == before + (a + nl + b + nl);
    }
  }

  /** No cell of the row contains a newline. */
  predicate NoNewline(row: Row)
  {
    forall c :: 0 <= c < |row| ==> '\n' !in row[c]
  }

  /** When no cell contains a newline, splitting a table's text at newlines yields exactly its
      lines: title, header, then for data row n its `行n:` line and its description. */
  lemma TableTextSplitsIntoLines(i: nat, data: Grid)
    requires |data| > 0
    requires forall r :: 0 <= r < |data| ==> NoNewline(data[r])
    ensures Split(TableText(i, data), "\n") == TableLines(i, data) + [""]
  {
    var header := data[0];
    var rows := data[1..];
    var lines := RowLines(header, rows);
    RenderedIsLines(i, header, rows);
    assert '\n' !in TitleLine(i) by { DecimalAvoidsNewline(i + 1); }
    assert '\n' !in HeaderLine(header) by { JoinAvoids(header, CellSeparator, '\n'); }
    assert forall r :: 0 <= r < |rows| ==> NoNewline(rows[r]) by {
      forall r | 0 <= r < |rows| ensures NoNewline(rows[r]) {
        assert rows[r] == data[r + 1];
      }
    }
    RowLinesAvoidNewline(header, rows);
    var all := [TitleLine(i), HeaderLine(header)] + lines + [""];
    forall k | 0 <= k < |all| ensures '\n' !in all[k] {
      if 2 <= k < |all| - 1 {
        assert all[k] == lines[k - 2];
      }
    }
    SplitJoin(all, '\n');
  }

  /** No line of the data rows contains a newline when no cell does. */
  lemma {:induction false} RowLinesAvoidNewline(header: Row, rows: seq<Row>)
    requires NoNewline(header)
    requires forall r :: 0 <= r < |rows| ==> NoNewline(rows[r])
    ensures forall k :: 0 <= k < |RowLines(header, rows)| ==> '\n' !in RowLines(header, rows)[k]
    decreases |rows|
  {
    if rows != [] {
      var n := |rows|;
      var row := rows[n - 1];
      var front := rows[..n - 1];
      assert forall r :: 0 <= r < |front| ==> front[r] == rows[r];
      RowLinesAvoidNewline(header, front);
      RowLineAvoidsNewline(n, row);
      DescriptionLineAvoidsNewline(header, row);
      var before := RowLines(header, front);
      var lines := before + [RowLine(n, row), DescriptionLine(header, row)];
      assert RowLines(header, rows) == lines;
      forall k | 0 <= k < |lines| ensures '\n' !in lines[k] {
        if k < |before| { assert lines[k] == before[k]; }
      }
    }
  }

  lemma RowLineAvoidsNewline(n: nat, row: Row)
    requires NoNewline(row)
    ensures '\n' !in RowLine(n, row)
  {
    DecimalAvoidsNewline(n);
    JoinAvoids(row, CellSeparator, '\n');
  }

  lemma DescriptionLineAvoidsNewline(header: Row, row: Row)
    requires NoNewline(header) && NoNewline(row)
    ensures '\n' !in DescriptionLine(header, row)
  {
    DescribedAvoids(header, row, '\n');
    var s := Described(header, row);
    var d := RStrip(s, StripChars);
    assert forall p :: 0 <= p < |d| ==> d[p] == s[p];
  }

  lemma DecimalAvoidsNewline(n: nat)
    ensures '\n' !in Decimal(n)
  {
    var s := Decimal(n);
    assert forall p :: 0 <= p < |s| ==> IsDigit(s[p]);
  }

  lemma {:induction false} DescribedAvoids(header: Row, row: Row, c: char)
    requires c !in DescriptionPrefix && c !in "为, "
    requires forall p :: 0 <= p < |header| ==> c !in header[p]
    requires forall p :: 0 <= p < |row| ==> c !in row[p]
    ensures c !in Described(header, row)
    decreases |row|
  {
    if row != [] {
      var j := |row| - 1;
      DescribedAvoids(header, row[..j], c);
    }
  }
}
