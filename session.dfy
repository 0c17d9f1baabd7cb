/**
 * The state the main tool keeps across reruns of its page: the selection map
 * last seen and the files generated from it.  When the selection built on a
 * rerun differs from the stored one, the stored one is replaced and every
 * generated file is dropped; generating files groups the stored selection
 * and renders each format the user ticked.  The object invariant is that no
 * stored file is stale: each one is what its exporter makes of the stored
 * selection.  The checkbox states are parameters; the download buttons and
 * the bytes of the files are not modelled (a file is its logical table).
 */
module SessionState {
  import opened Catalog
  import opened Selection
  import opened Grouping
  import opened Layout
  import opened AppExport

  datatype Format = Excel | Word | Pdf

  /** A generated file, as the logical table its exporter produced. */
  datatype Artifact =
    | Spreadsheet(data: seq<Record>, row1: map<int, string>)
    | Document(rows: seq<Row>)

  /** What the exporter of `f` makes of the grouped dictionary `g`. */
  function Render(f: Format, g: seq<Bucket>): Artifact
  {
    match f
    case Excel => Spreadsheet(Records(Lines(g)), map[1 := "Category / File Name", 2 := "Last Modified"])
    case Word => Document(DocumentTable(g))
    case Pdf => Document(DocumentTable(g))
  }

  /** The formats whose checkbox is ticked. */
  function TickedFormats(excel: bool, word: bool, pdf: bool): set<Format>
  {
    (if excel then {Excel} else {}) + (if word then {Word} else {}) + (if pdf then {Pdf} else {})
  }

  /** Every stored file is what its exporter makes of `g`. */
  ghost predicate UpToDate(files: map<Format, Artifact>, g: seq<Bucket>)
  {
    forall f :: f in files ==> files[f] == Render(f, g)
  }

  /** Storing a freshly rendered file keeps the stored files up to date. */
  lemma StoreRendered(files: map<Format, Artifact>, f: Format, g: seq<Bucket>)
    requires UpToDate(files, g)
    ensures UpToDate(files[f := Render(f, g)], g)
  {
  }

  /** Runs the exporter of format `f` on the grouped dictionary `g`. */
  method Export(f: Format, g: seq<Bucket>) returns (a: Artifact)
    ensures a == Render(f, g)
  {
    match f
    case Excel =>
      var data, row1 := GenerateExcel(g);
      assert row1 == map[1 := "Category / File Name", 2 := "Last Modified"];
      a := Spreadsheet(data, row1);
    case Word =>
      var table := GenerateWord(g);
      a := Document(table.rows);
    case Pdf =>
      var data := GeneratePdf(g);
      a := Document(data);
  }

  class Session {
    var categorySelection: Assignments
    var generatedFiles: map<Format, Artifact>

    /** No stored file is stale. */
    ghost predicate Valid()
      reads this
    {
      UpToDate(generatedFiles, Grouped(categorySelection))
    }

    /** The first run: an empty selection and no generated file. */
    constructor ()
      ensures Valid()
      ensures categorySelection == [] && generatedFiles == map[]
    {
      categorySelection := [];
      generatedFiles := map[];
    }

    /**
     * The change test of each rerun.  Dictionaries compare as unordered maps,
     * so a selection with the same contents in another order counts as
     * unchanged and the stored one, in its own order, is kept.
     */
    method Refresh(selection: Assignments)
      requires Valid()
      modifies this
      ensures Valid()
      ensures AsMap(categorySelection) == AsMap(selection)
      ensures AsMap(selection) != AsMap(old(categorySelection)) ==>
        categorySelection == selection && generatedFiles == map[]
      ensures AsMap(selection) == AsMap(old(categorySelection)) ==>
        categorySelection == old(categorySelection) && generatedFiles == old(generatedFiles)
    {
      if AsMap(selection) != AsMap(categorySelection) {
        categorySelection := selection;
        generatedFiles := map[];
      }
    }

    /**
     * The "Generate Selected Files" action: group the stored selection, then
     * render and store each ticked format.  Unticked formats keep what they had.
     */
    method GenerateSelected(excel: bool, word: bool, pdf: bool)
      requires Valid()
      modifies this
      ensures Valid()
      ensures categorySelection == old(categorySelection)
      ensures generatedFiles.Keys == old(generatedFiles).Keys + TickedFormats(excel, word, pdf)
      ensures forall f :: f in old(generatedFiles) && f !in TickedFormats(excel, word, pdf) ==>
        generatedFiles[f] == old(generatedFiles)[f]
    {
      var categorized := Group(categorySelection);
      var files := generatedFiles;
      if excel {
        var a := Export(Excel, categorized);
        StoreRendered(files, Excel, categorized);
        files := files[Excel := a];
      }
      assert files.Keys == old(generatedFiles).Keys + TickedFormats(excel, false, false);
      if word {
        var a := Export(Word, categorized);
        StoreRendered(files, Word, categorized);
        files := files[Word := a];
      }
      assert files.Keys == old(generatedFiles).Keys + TickedFormats(excel, word, false);
      if pdf {
        var a := Export(Pdf, categorized);
        StoreRendered(files, Pdf, categorized);
        files := files[Pdf := a];
      }
      generatedFiles := files;
    }
  }
}
