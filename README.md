# File categorisation tool: verified model of its pipeline

This project models the core of a small file-categorisation tool written in
Python. The user types a directory path. The tool resolves it, lists the
files under it and lets the user pick one of five categories for each file.
It then exports the categorised listing as a spreadsheet, a Word document or
a PDF. The model covers the pure and imperative logic between the user
interface and the rendering libraries:

- **Path resolution** (`resolve_path`), in `path_resolver.dfy`. The
  filesystem's `os.path.exists` becomes a parameter `pathExists: string -> bool`.
- **The selection map** (file name → date and category, in Python dictionary
  semantics), in `selection.dfy`.
- **Grouping** of that map into one list per category, in canonical category
  order, in `grouping.dfy`.
- **The row sequences** each exporter builds before calling its rendering
  library. The layout shared by all exporters and the spreadsheet data list
  are in `layout.dfy`. The main tool's Word, PDF and spreadsheet exporters
  are in `app_export.dfy`. The stand-alone spreadsheet report, with its
  bold-row rule, is in `excel_report.dfy`.
- **The regeneration cache** kept across page reruns, in `session.dfy`. It is
  a class whose invariant says that no stored file is stale.
- The five category labels, their order and the shared records are in
  `catalog.dfy`.

Each exporter is a method with nested loops. Its result is proved equal to a
specification function: `Records(Lines(g))` for spreadsheets and
`DocumentTable(g)` for documents. Lemmas then prove the properties of those
functions: row counts, the header position, which rows are bold, and a round
trip (`Regroup(Lines(g)) == NonEmpty(g)`) showing that the layout loses only
the empty categories.

Where the design description of the tool and its code disagree, the model
follows the code:

- There are five categories (CONTRACTUAL, ARCHITECTURAL, STRUCTURAL,
  SERVICES, SAFETY). There is no OTHER.
- There is no "unavailable" date sentinel: a failing `getmtime` is not caught.
- An unmapped drive letter such as `Q:\x` is not rejected. It is treated as a
  local path and returned if it exists.
- The drive-letter test comes before the UNC test. The two prefixes cannot
  both match, so the order makes no difference.
- The grouped dictionary keeps all five keys, including the empty ones. It is
  the exporters that skip empty categories.

## Model

| member | source | states |
|---|---|---|
| `PathResolver.Resolve` | app.py:29-55 | A resolved path always exists. A `Z:`/`Y:` input resolves exactly when its mapped share path exists, and then to that path. Any other input resolves exactly when it exists, and then to itself. |
| `PathResolver.ForwardSlashes` | app.py:40 | The result has the input's length. Every backslash becomes `/` and every other character is kept. |
| `PathResolver.MappedPathNeverEmpty` | app.py:36-42 | A drive input always has a mapping, and its rewritten path is non-empty. The `None` default and the `not unc_path` test never decide anything. |
| `PathResolver.MappedPathShape` | app.py:36-40 | The rewritten path is the share followed by `path[2:]`. It has no backslash after the share, and every character that is not `/` is the input's character. |
| `PathResolver.ForwardSlashesIdempotent` | app.py:40 | Replacing backslashes twice gives the same result as once. |
| `PathResolver.LowerCaseDriveIsNotMapped` | app.py:34-55 | The drive test is case-sensitive: a `z:` input is not rewritten and is returned unchanged if it exists. |
| `PathResolver.InvalidMessages` | app.py:41-55 | Each failing branch raises with its own message and the path it tried. |
| `PathResolver.OnlyCandidateConsulted` | app.py:41-53 | Only the existence of the one candidate path decides the result. |
| `PathResolver.ResolveIdempotent` | app.py:34-53 | Resolving a resolved path returns it again. A mapped drive becomes a UNC path that the UNC branch accepts. |
| `Selection.Put` | app.py:205 | Dictionary assignment: keys stay distinct and the key gets the new value. An existing key keeps its position, a new key goes last, and every other key keeps its value. |
| `Selection.CollectSelection` | app.py:191-205 | The map has one key per distinct file name, in first-seen order. Each key holds the date and chosen category of the last file listed under that name. |
| `Selection.FirstOccurrences` | FileNames_Excel.py:80-102 | The keys of the selection map are distinct, and they are exactly the names of the listed files. |
| `Selection.AsMap` | app.py:208 | The comparison at the change test sees the dictionary as an unordered map with the same keys and values. |
| `Grouping.Grouped` | app.py:215 | The grouped dictionary has exactly the five categories as keys, in canonical order. |
| `Grouping.Group` | app.py:215-217 | The grouping loop, which starts from empty lists and appends in place, yields `Grouped(sel)`. |
| `Grouping.MatchingAppend` | app.py:216-217 | A bucket keeps the relative order of the entries in the selection map. |
| `Grouping.MatchingMembers` | FileNames_Excel.py:106-108 | A pair lies in a category's bucket exactly when some selection entry of that category has that name and date. |
| `Grouping.InExactlyOneBucket` | FileNames_Excel.py:106-108 | Each selection entry lies in the bucket of its own category and in no other. |
| `Grouping.BucketsFromSelection` | app.py:216-217 | Every listed pair comes from a selection entry of that bucket's category. |
| `Grouping.BucketSizesSum` | app.py:215-217 | The sizes of the five buckets add up to the size of the selection map. |
| `Grouping.GroupedTotal` | FileNames_Excel.py:106-108 | The grouped dictionary lists as many files as the selection map holds. |
| `Catalog.Position` | app.py:190 | Each category has one position in the canonical option list. |
| `Catalog.LabelsDistinct` | FileNames_Excel.py:76 | Two categories have the same label only if they are the same category. |
| `Layout.LineCount` | app.py:72-83 | The layout has one line per non-empty category plus one line per file. |
| `Layout.NoLinesIffNoFiles` | FileNames_Excel.py:24-29 | The layout is empty exactly when no category lists a file. |
| `Layout.RegroupLines` | app.py:102-107 | Round trip: reading the lines back gives the non-empty categories in key order, each with its files in stored order. |
| `Layout.RegroupSection` | app.py:103-107 | A category line followed by its file lines reads back as that category's bucket. |
| `Layout.FileLinesFromBuckets` | FileNames_Excel.py:28-29 | Every file line carries an entry listed in one of the buckets. |
| `Layout.RecordsAt` | FileNames_Excel.py:24-29 | Data row `i` renders line `i`: a category gives `(label, '')` and a file gives `('   ' + name, date)`. |
| `Layout.SectionRecords` | app.py:131-134 | The rows of one category are its label over an empty date, then each file indented with its date. A category without files adds none. |
| `Layout.ExcelData` | app.py:129-134 | The nested append loops produce `Records(Lines(g))`. |
| `Layout.WriteHeader` | app.py:141-143 | Row 1 holds title `c` in column `c`, counting from 1, and nothing else. |
| `AppExport.GenerateExcel` | app.py:128-151 | The data list is `Records(Lines(g))`. Row 1 holds `Category / File Name` in column 1 and `Last Modified` in column 2. |
| `AppExport.GenerateWord` | app.py:59-88 | The table built by `add_row` is the header row followed by one row per layout line. |
| `AppExport.GeneratePdf` | app.py:92-109 | The row list is the header row followed by one row per layout line. |
| `AppExport.DocTable.constructor` | app.py:61-65 | A new table holds only the header row. |
| `AppExport.DocTable.AddRow` | app.py:74-81 | Adding a row appends it and keeps the rows already there. |
| `AppExport.AddSection` | app.py:73-83 | The Word table grows by exactly the rows of one category's section, after the rows already there. |
| `AppExport.SectionRows` | app.py:103-107 | The PDF rows of one category are its bold label over an empty cell, then each file's name and date. |
| `AppExport.DocumentTableShape` | app.py:100-107 | A document table has 1 + (non-empty categories) + (files) rows, with the header first. Without files it is the header alone. |
| `AppExport.DocumentBoldRows` | app.py:72-77 | Below the header, a row's first cell is bold exactly when the row is a category row, and a category row's date cell is empty. |
| `ExcelReport.GenerateExcel` | FileNames_Excel.py:20-62 | The data list is `Records(Lines(g))`. Row 1 holds `Category` and `Last Modified`. A data row is bold exactly when its date cell is empty. |
| `ExcelReport.BoldFlags` | FileNames_Excel.py:51-60 | One flag per data row, set exactly when the row's date cell is empty. |
| `ExcelReport.BoldRowsAreCategoryRows` | FileNames_Excel.py:27-60 | When every date is non-empty, the bold data rows are exactly the category rows. |
| `ExcelReport.RuleKeysOnDateCell` | FileNames_Excel.py:59-60 | The rule reads the date cell: a file row with an empty date would be bold. |
| `SessionState.Session.constructor` | app.py:168-171 | The first run stores an empty selection and no generated file. |
| `SessionState.Session.Refresh` | app.py:208-211 | A selection that differs as a dictionary replaces the stored one and clears the generated files. An equal one, even in another order, leaves both untouched. No stored file is ever stale. |
| `SessionState.Export` | app.py:220-230 | The file made for a format is what that format's exporter produces from the grouped dictionary. |
| `SessionState.Session.GenerateSelected` | app.py:214-230 | The stored formats become the old ones plus the ticked ones. Each ticked format is rendered from the grouped stored selection. Unticked formats keep their files. No stored file is ever stale. |

## Left out

- File enumeration (`get_files`: `os.walk`, `os.path.getmtime` and the `strftime` date conversion) is filesystem I/O and is not modelled. Dates are opaque strings.
- The Streamlit interface is not modelled: text input, checkboxes and their persistence, selection boxes, copy-to-clipboard buttons, messages and download buttons. The category picked in each selection box is a parameter of `Selection.CollectSelection`, and the checkbox states are parameters of `SessionState.Session.GenerateSelected`.
- The stand-alone report unpacks three values per listed file from a two-value `get_files` (FileNames_Excel.py:16, 81). That is a defect of its interface path, not of the modelled logic.
- The rendering libraries (pandas, openpyxl, python-docx, reportlab) are foreign code. Only the logical rows handed to them are modelled. Fonts, sizes, alignment, column widths, grid lines, colours and the bytes of the files are not. A generated file is modelled as its logical table.
- The spreadsheet cells below row 1 are not modelled. `to_excel(startrow=1)` and the later per-row cell writes overlap, and the resulting grid depends on pandas internals.
- reportlab's `Paragraph` interprets markup in its text. A file name containing markup characters may render differently. The model keeps the text as given.
- Categories are a closed datatype. The selection box offers only the five labels, so the `KeyError` a foreign label would raise in the grouping loop cannot occur and is not modelled.
- `ExcelReport.BoldRowsAreCategoryRows`: holds only when every date is non-empty. This is true of the `%Y-%m-%d` strings the tool produces, but dates are not modelled.
- The stand-alone report writes its workbook to a named file. The model returns the data, the header cells and the bold flags instead.
