/**
 * The logical layout every exporter shares: walking the grouped dictionary in
 * its key order, a category that lists at least one file contributes one
 * category line followed by one line per file, in stored order; a category
 * with no files contributes nothing.  Each exporter renders these lines in
 * its own way (app_export.dfy, excel_report.dfy); the spreadsheet rendering,
 * common to both spreadsheet exporters, is here.
 */
module Layout {
  import opened Catalog

  datatype Line = CategoryLine(category: Category) | FileLine(entry: Entry)

  function FileLines(items: seq<Entry>): seq<Line>
  {
    seq(|items|, j requires 0 <= j < |items| => FileLine(items[j]))
  }

  /** The lines one key of the dictionary contributes. */
  function Section(b: Bucket): seq<Line>
  {
    if b.items == [] then [] else [CategoryLine(b.category)] + FileLines(b.items)
  }

  /** The lines of the whole dictionary, in key order. */
  function Lines(g: seq<Bucket>): seq<Line>
  {
    if g == [] then [] else Lines(g[..|g| - 1]) + Section(g[|g| - 1])
  }

  /** The keys that list at least one file, in order. */
  function NonEmpty(g: seq<Bucket>): seq<Bucket>
  {
    if g == [] then []
    else NonEmpty(g[..|g| - 1]) + (if g[|g| - 1].items == [] then [] else [g[|g| - 1]])
  }

  /**
   * Reading the lines back: a category line opens a bucket, a file line is
   * appended to the bucket started last.  The inverse of `Lines`.
   */
  function Regroup(ls: seq<Line>): seq<Bucket>
  {
    if ls == [] then []
    else
      var p := Regroup(ls[..|ls| - 1]);
      match ls[|ls| - 1]
      case CategoryLine(c) => p + [Bucket(c, [])]
      case FileLine(e) =>
        if p == [] then p
        else p[..|p| - 1] + [Bucket(p[|p| - 1].category, p[|p| - 1].items + [e])]
  }

  /** The lines of one more key are appended after those already laid out. */
  lemma LinesSnoc(g: seq<Bucket>, k: int)
    requires 0 <= k < |g|
    ensures Lines(g[..k + 1]) == Lines(g[..k]) + Section(g[k])
  {
    assert g[..k + 1][..k] == g[..k];
  }

  /** A non-empty section is its category line followed by all its file lines. */
  lemma SectionWhole(b: Bucket)
    ensures Section(b) == if b.items == [] then [] else [CategoryLine(b.category)] + FileLines(b.items[..|b.items|])
  {
    assert b.items[..|b.items|] == b.items;
  }

  /** The file lines grow by one line per file. */
  lemma FileLinesSnoc(items: seq<Entry>, j: int)
    requires 0 <= j < |items|
    ensures FileLines(items[..j + 1]) == FileLines(items[..j]) + [FileLine(items[j])]
  {
  }

  /** One line per non-empty category plus one per file. */
  lemma {:induction false} LineCount(g: seq<Bucket>)
    ensures |Lines(g)| == NonEmptyCount(g) + TotalFiles(g)
  {
    if g != [] {
      LineCount(g[..|g| - 1]);
    }
  }

  /** No line at all exactly when no category lists a file. */
  lemma {:induction false} NoLinesIffNoFiles(g: seq<Bucket>)
    ensures Lines(g) == [] <==> forall k :: 0 <= k < |g| ==> g[k].items == []
  {
    if g != [] {
      var prefix, b := g[..|g| - 1], g[|g| - 1];
      NoLinesIffNoFiles(prefix);
      assert (Lines(g) == []) == (Lines(prefix) == [] && b.items == []) by {
        assert Lines(g) == Lines(prefix) + Section(b);
      }
      assert (forall k :: 0 <= k < |g| ==> g[k].items == []) ==
        ((forall k :: 0 <= k < |prefix| ==> prefix[k].items == []) && b.items == []) by {
        assert forall k :: 0 <= k < |prefix| ==> prefix[k] == g[k];
      }
    }
  }

  /** The file lines of one bucket read back into that bucket. */
  lemma {:induction false} RegroupSection(ls: seq<Line>, c: Category, items: seq<Entry>)
    ensures Regroup(ls + [CategoryLine(c)] + FileLines(items)) == Regroup(ls) + [Bucket(c, items)]
  {
    var started := ls + [CategoryLine(c)];
    if items == [] {
      assert started + FileLines(items) == started;
      assert started[..|started| - 1] == ls;
    } else {
      var items' := items[..|items| - 1];
      var e := items[|items| - 1];
      var whole := started + FileLines(items);
      assert whole[..|whole| - 1] == started + FileLines(items');
      assert whole[|whole| - 1] == FileLine(e);
      RegroupSection(ls, c, items');
      assert items' + [e] == items;
    }
  }

  /**
   * Round trip: reading the lines back recovers every category that lists a
   * file, in key order, with its files in stored order.  Only the empty
   * categories are lost.
   */
  lemma {:induction false} RegroupLines(g: seq<Bucket>)
    ensures Regroup(Lines(g)) == NonEmpty(g)
  {
    if g != [] {
      var prefix, b := g[..|g| - 1], g[|g| - 1];
      RegroupLines(prefix);
      if b.items == [] {
        assert Lines(g) == Lines(prefix);
      } else {
        assert Lines(g) == Lines(prefix) + [CategoryLine(b.category)] + FileLines(b.items);
        RegroupSection(Lines(prefix), b.category, b.items);
      }
    }
  }

  /** A file line of a section carries one of that bucket's files. */
  lemma SectionFileLine(b: Bucket, j: int)
    requires 0 <= j < |Section(b)| && Section(b)[j].FileLine?
    ensures Section(b)[j].entry in b.items
  {
    assert Section(b)[j] == FileLine(b.items[j - 1]);
  }

  /** Every file line carries an entry listed in some bucket; `k` is that bucket. */
  lemma {:induction false} FileLinesFromBuckets(g: seq<Bucket>, i: int) returns (k: int)
    requires 0 <= i < |Lines(g)| && Lines(g)[i].FileLine?
    ensures 0 <= k < |g| && Lines(g)[i].entry in g[k].items
  {
    var prefix, b := g[..|g| - 1], g[|g| - 1];
    ghost var done := Lines(prefix);
    assert Lines(g) == done + Section(b);
    if i < |done| {
      k := FileLinesFromBuckets(prefix, i);
    } else {
      SectionFileLine(b, i - |done|);
      k := |g| - 1;
    }
  }

  // ---- The spreadsheet rendering (both spreadsheet exporters) ----

  /** The indentation put in front of a file name in a spreadsheet. */
  const Indent: string := "   "

  /** One row of the data frame handed to the spreadsheet writer. */
  datatype Record = Record(nameColumn: string, lastModified: string)

  function ExcelRecord(l: Line): Record
  {
    match l
    case CategoryLine(c) => Record(c.Label(), "")
    case FileLine(e) => Record(Indent + e.name, e.modified)
  }

  function Records(ls: seq<Line>): seq<Record>
  {
    if ls == [] then [] else Records(ls[..|ls| - 1]) + [ExcelRecord(ls[|ls| - 1])]
  }

  /** Row `i` of the data frame renders line `i`. */
  lemma {:induction false} RecordsAt(ls: seq<Line>, i: int)
    requires 0 <= i < |ls|
    ensures |Records(ls)| == |ls| && Records(ls)[i] == ExcelRecord(ls[i])
  {
    var prefix := ls[..|ls| - 1];
    RecordsLength(prefix);
    if i < |prefix| {
      RecordsAt(prefix, i);
    }
  }

  lemma {:induction false} RecordsLength(ls: seq<Line>)
    ensures |Records(ls)| == |ls|
  {
    if ls != [] {
      RecordsLength(ls[..|ls| - 1]);
    }
  }

  lemma RecordsSnoc(ls: seq<Line>, l: Line)
    ensures Records(ls + [l]) == Records(ls) + [ExcelRecord(l)]
  {
    assert (ls + [l])[..|ls|] == ls;
  }

  /** The rows of two runs of lines are the rows of each, one after the other. */
  lemma {:induction false} RecordsAppend(a: seq<Line>, b: seq<Line>)
    ensures Records(a + b) == Records(a) + Records(b)
  {
    if b == [] {
      assert a + b == a;
    } else {
      var b', l := b[..|b| - 1], b[|b| - 1];
      assert a + b == (a + b') + [l];
      RecordsAppend(a, b');
      RecordsSnoc(a + b', l);
    }
  }

  /** The inner loop for one key: its label over an empty date, then its files, indented. */
  method SectionRecords(b: Bucket) returns (rows: seq<Record>)
    ensures rows == Records(Section(b))
  {
    rows := [];
    if b.items != [] {
      rows := rows + [Record(b.category.Label(), "")];
      ghost var laid := [CategoryLine(b.category)];
      assert rows == Records(laid) by {
        RecordsSnoc([], CategoryLine(b.category));
      }
      for j := 0 to |b.items|
        invariant laid == [CategoryLine(b.category)] + FileLines(b.items[..j])
        invariant rows == Records(laid)
      {
        var e := b.items[j];
        rows := rows + [Record(Indent + e.name, e.modified)];
        RecordsSnoc(laid, FileLine(e));
        laid := laid + [FileLine(e)];
        FileLinesSnoc(b.items, j);
      }
      SectionWhole(b);
    }
  }

  /**
   * The data list of a spreadsheet export: for each category that lists a
   * file, a row with its label and an empty date, then one row per file with
   * the name indented by three spaces and its date.  No header entry.
   */
  method ExcelData(g: seq<Bucket>) returns (data: seq<Record>)
    ensures data == Records(Lines(g))
  {
    data := [];
    for k := 0 to |g|
      invariant data == Records(Lines(g[..k]))
    {
      var rows := SectionRecords(g[k]);
      data := data + rows;
      LinesSnoc(g, k);
      RecordsAppend(Lines(g[..k]), Section(g[k]));
    }
    assert g[..|g|] == g;
  }

  /**
   * The header loop: title `c` (counting from 1) is written to row 1,
   * column `c`.  The result maps each written column to its title.
   */
  method WriteHeader(titles: seq<string>) returns (row1: map<int, string>)
    ensures forall c :: c in row1 <==> 1 <= c <= |titles|
    ensures forall c :: 1 <= c <= |titles| ==> row1[c] == titles[c - 1]
  {
    row1 := map[];
    for i := 0 to |titles|
      invariant forall c :: c in row1 <==> 1 <= c <= i
      invariant forall c :: 1 <= c <= i ==> row1[c] == titles[c - 1]
    {
      row1 := row1[i + 1 := titles[i]];
    }
  }
}
