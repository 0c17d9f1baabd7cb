/**
 * The stand-alone spreadsheet report: the same data list as the main tool's
 * spreadsheet export (category rows with an empty date, file rows with the
 * name indented by three spaces), the titles `Category` and `Last Modified`
 * in row 1, and a pass over the data rows that sets a row's first cell in
 * bold exactly when its date cell is empty.  Alignment, fonts and widths are
 * not modelled, nor the cells the data pass writes below row 1.
 */
module ExcelReport {
  import opened Catalog
  import opened Layout

  const HeaderTitles: seq<string> := ["Category", "Last Modified"]

  /** The styling rule of the data pass: an empty date marks a category row. */
  predicate BoldByRule(r: Record)
  {
    r.lastModified == ""
  }

  /**
   * The styling pass over the data rows: a row's first cell is set in bold
   * exactly when its date cell is empty.
   */
  method BoldFlags(data: seq<Record>) returns (bold: seq<bool>)
    ensures |bold| == |data|
    ensures forall i :: 0 <= i < |data| ==> (bold[i] <==> BoldByRule(data[i]))
  {
    bold := [];
    for i := 0 to |data|
      invariant |bold| == i
      invariant forall j :: 0 <= j < i ==> (bold[j] <==> BoldByRule(data[j]))
    {
      bold := bold + [data[i].lastModified == ""];
    }
  }

  /**
   * generate_excel: the data list, the header cells of row 1 and, for each
   * data row, whether its first cell is set in bold.
   */
  method GenerateExcel(g: seq<Bucket>) returns (data: seq<Record>, row1: map<int, string>, bold: seq<bool>)
    ensures data == Records(Lines(g))
    ensures row1.Keys == {1, 2}
    ensures row1[1] == "Category" && row1[2] == "Last Modified"
    ensures |bold| == |data|
    ensures forall i :: 0 <= i < |data| ==> (bold[i] <==> BoldByRule(data[i]))
  {
    data := ExcelData(g);
    row1 := WriteHeader(HeaderTitles);
    assert forall c :: c in row1.Keys <==> c == 1 || c == 2;
    bold := BoldFlags(data);
  }

  /** Every listed file carries a date; a `%Y-%m-%d` string is never empty. */
  predicate DatesPresent(g: seq<Bucket>)
  {
    forall k, e :: 0 <= k < |g| && e in g[k].items ==> e.modified != ""
  }

  /**
   * When every file has a date, the rule sets in bold exactly the category
   * rows, and every category row is in bold.
   */
  lemma BoldRowsAreCategoryRows(g: seq<Bucket>, i: int)
    requires DatesPresent(g)
    requires 0 <= i < |Lines(g)|
    ensures |Records(Lines(g))| == |Lines(g)|
    ensures BoldByRule(Records(Lines(g))[i]) <==> Lines(g)[i].CategoryLine?
  {
    RecordsAt(Lines(g), i);
    if Lines(g)[i].FileLine? {
      var k := FileLinesFromBuckets(g, i);
    }
  }

  /**
   * The rule reads the cell, not the kind of row: a file whose date cell were
   * empty would be set in bold like a category.
   */
  lemma RuleKeysOnDateCell(c: Category, name: string)
    ensures var g := [Bucket(c, [Entry(name, "")])];
      Lines(g) == [CategoryLine(c), FileLine(Entry(name, ""))]
      && |Records(Lines(g))| == 2 && BoldByRule(Records(Lines(g))[1])
  {
    var g := [Bucket(c, [Entry(name, "")])];
    assert g[..0] == [];
    assert FileLines([Entry(name, "")]) == [FileLine(Entry(name, ""))];
    assert Lines(g) == [CategoryLine(c), FileLine(Entry(name, ""))];
    RecordsAt(Lines(g), 1);
  }
}
