/**
 * The three exporters of the main tool.  The spreadsheet exporter hands the
 * shared spreadsheet data list to the writer and puts the two column titles
 * in row 1.  The word-processor and PDF exporters both build a two-column
 * table: a bold header row with the two column titles, then the shared line
 * layout with each category line as a bold label over an empty date cell and
 * each file line as a plain name and its date.  The Word table grows by
 * `add_row`; the PDF table is a list of rows built by appends.  Fonts, sizes,
 * widths, colours and the bytes of the files are not modelled.
 */
module AppExport {
  import opened Catalog
  import opened Layout

  /** A table cell: its text and whether it is set in the bold style. */
  datatype Cell = Cell(text: string, bold: bool)

  datatype Row = Row(first: Cell, second: Cell)

  /** The header row: the two column titles, both bold. */
  const HeaderRow: Row := Row(Cell("Category / File Name", true), Cell("Last Modified", true))

  /** How a document table renders one line of the layout. */
  function DocRow(l: Line): Row
  {
    match l
    case CategoryLine(c) => Row(Cell(c.Label(), true), Cell("", false))
    case FileLine(e) => Row(Cell(e.name, false), Cell(e.modified, false))
  }

  /** The rows of a run of lines, one row per line. */
  function DocRows(ls: seq<Line>): seq<Row>
  {
    seq(|ls|, i requires 0 <= i < |ls| => DocRow(ls[i]))
  }

  lemma DocRowsSnoc(ls: seq<Line>, l: Line)
    ensures DocRows(ls + [l]) == DocRows(ls) + [DocRow(l)]
  {
  }

  /** The rows of two runs of lines are the rows of each, one after the other. */
  lemma DocRowsAppend(a: seq<Line>, b: seq<Line>)
    ensures DocRows(a + b) == DocRows(a) + DocRows(b)
  {
  }

  /** Rows appended after the header extend the body under it. */
  lemma AppendUnderHeader(body: seq<Row>, more: seq<Row>)
    ensures [HeaderRow] + body + more == [HeaderRow] + (body + more)
  {
  }

  /** The table of a document: the header row, then one row per line of the layout. */
  function DocumentTable(g: seq<Bucket>): seq<Row>
  {
    [HeaderRow] + DocRows(Lines(g))
  }

  /**
   * A document table has one header row, one row per category that lists a
   * file and one row per file; the header is first, and a dictionary without
   * files gives the header alone.
   */
  lemma DocumentTableShape(g: seq<Bucket>)
    ensures |DocumentTable(g)| == 1 + NonEmptyCount(g) + TotalFiles(g)
    ensures DocumentTable(g)[0] == HeaderRow
    ensures (forall k :: 0 <= k < |g| ==> g[k].items == []) ==> DocumentTable(g) == [HeaderRow]
  {
    LineCount(g);
    NoLinesIffNoFiles(g);
  }

  /**
   * In a document table the bold rows below the header are exactly the
   * category rows, and a category row's right cell is empty.
   */
  lemma DocumentBoldRows(g: seq<Bucket>, i: int)
    requires 0 <= i < |Lines(g)|
    ensures |DocumentTable(g)| == |Lines(g)| + 1
    ensures DocumentTable(g)[i + 1].first.bold <==> Lines(g)[i].CategoryLine?
    ensures Lines(g)[i].CategoryLine? ==> DocumentTable(g)[i + 1].second == Cell("", false)
  {
  }

  /** The table of a Word document, grown row by row. */
  class DocTable {
    var rows: seq<Row>

    /** `add_table(rows=1, cols=2)` with the header row filled in. */
    constructor (header: Row)
      ensures rows == [header]
    {
      rows := [header];
    }

    /** `add_row()` and the filling of its two cells. */
    method AddRow(r: Row)
      modifies this
      ensures rows == old(rows) + [r]
    {
      rows := rows + [r];
    }
  }

  /** The column titles written to row 1 of the spreadsheet export. */
  const ExcelHeaderTitles: seq<string> := ["Category / File Name", "Last Modified"]

  /**
   * generate_excel: the data list (no header entry, file names indented) and
   * the header cells of row 1, columns 1 and 2.
   */
  method GenerateExcel(g: seq<Bucket>) returns (data: seq<Record>, row1: map<int, string>)
    ensures data == Records(Lines(g))
    ensures row1.Keys == {1, 2}
    ensures row1[1] == "Category / File Name" && row1[2] == "Last Modified"
  {
    data := ExcelData(g);
    row1 := WriteHeader(ExcelHeaderTitles);
    assert forall c :: c in row1.Keys <==> c == 1 || c == 2;
  }

  /** The inner loop of the Word export for one key: `add_row` per line of its section. */
  method AddSection(table: DocTable, b: Bucket)
    modifies table
    ensures table.rows == old(table.rows) + DocRows(Section(b))
  {
    if b.items != [] {
      ghost var before := table.rows;
      table.AddRow(Row(Cell(b.category.Label(), true), Cell("", false)));
      ghost var laid := [CategoryLine(b.category)];
      assert table.rows == before + DocRows(laid) by {
        DocRowsSnoc([], CategoryLine(b.category));
      }
      for j := 0 to |b.items|
        invariant laid == [CategoryLine(b.category)] + FileLines(b.items[..j])
        invariant table.rows == before + DocRows(laid)
      {
        var e := b.items[j];
        table.AddRow(Row(Cell(e.name, false), Cell(e.modified, false)));
        assert table.rows == before + DocRows(laid + [FileLine(e)]) by {
          DocRowsSnoc(laid, FileLine(e));
        }
        laid := laid + [FileLine(e)];
        FileLinesSnoc(b.items, j);
      }
      SectionWhole(b);
    }
  }

  /** generate_word: the table of the Word export. */
  method GenerateWord(g: seq<Bucket>) returns (table: DocTable)
    ensures fresh(table)
    ensures table.rows == DocumentTable(g)
  {
    table := new DocTable(HeaderRow);
    for k := 0 to |g|
      invariant table.rows == [HeaderRow] + DocRows(Lines(g[..k]))
    {
      ghost var done := DocRows(Lines(g[..k]));
      AddSection(table, g[k]);
      AppendUnderHeader(done, DocRows(Section(g[k])));
      LinesSnoc(g, k);
      DocRowsAppend(Lines(g[..k]), Section(g[k]));
    }
    assert g[..|g|] == g;
  }

  /** The inner loop of the PDF export for one key: the rows appended for its section. */
  method SectionRows(b: Bucket) returns (rows: seq<Row>)
    ensures rows == DocRows(Section(b))
  {
    rows := [];
    if b.items != [] {
      rows := rows + [Row(Cell(b.category.Label(), true), Cell("", false))];
      ghost var laid := [CategoryLine(b.category)];
      assert rows == DocRows(laid) by {
        DocRowsSnoc([], CategoryLine(b.category));
      }
      for j := 0 to |b.items|
        invariant laid == [CategoryLine(b.category)] + FileLines(b.items[..j])
        invariant rows == DocRows(laid)
      {
        var e := b.items[j];
        rows := rows + [Row(Cell(e.name, false), Cell(e.modified, false))];
        DocRowsSnoc(laid, FileLine(e));
        laid := laid + [FileLine(e)];
        FileLinesSnoc(b.items, j);
      }
      SectionWhole(b);
    }
  }

  /** generate_pdf: the row list handed to the PDF table. */
  method GeneratePdf(g: seq<Bucket>) returns (data: seq<Row>)
    ensures data == DocumentTable(g)
  {
    data := [HeaderRow];
    for k := 0 to |g|
      invariant data == [HeaderRow] + DocRows(Lines(g[..k]))
    {
      ghost var done := DocRows(Lines(g[..k]));
      var rows := SectionRows(g[k]);
      data := data + rows;
      AppendUnderHeader(done, rows);
      LinesSnoc(g, k);
      DocRowsAppend(Lines(g[..k]), Section(g[k]));
    }
    assert g[..|g|] == g;
  }
}
