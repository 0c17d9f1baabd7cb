/**
 * The vocabulary shared by every stage of the categorisation pipeline:
 * the closed set of category labels offered by the selection box, the
 * (name, last-modified) pair recorded for each file, and the bucket that
 * holds the files of one category.
 */
module Catalog {

  /** The five categories a file can be assigned to. */
  datatype Category = Contractual | Architectural | Structural | Services | Safety
  {
    /** The label shown in the selection box and written into every export. */
    function Label(): string
    {
      match this
      case Contractual => "CONTRACTUAL"
      case Architectural => "ARCHITECTURAL"
      case Structural => "STRUCTURAL"
      case Services => "SERVICES"
      case Safety => "SAFETY"
    }
  }

  /** The canonical order of the categories: the option list of the selection box. */
  const Categories: seq<Category> := [Contractual, Architectural, Structural, Services, Safety]

  /** Where a category stands in the canonical order. */
  function Position(c: Category): (k: nat)
    ensures k < |Categories| && Categories[k] == c
    ensures forall j :: 0 <= j < |Categories| && Categories[j] == c ==> j == k
  {
    match c
    case Contractual => 0
    case Architectural => 1
    case Structural => 2
    case Services => 3
    case Safety => 4
  }

  /** Distinct categories carry distinct labels, so a label names one category. */
  lemma LabelsDistinct(c: Category, d: Category)
    ensures c.Label() == d.Label() <==> c == d
  {
    if c != d {
      assert c.Label()[0] != d.Label()[0] || c.Label()[1] != d.Label()[1];
    }
  }

  /** A file as the exporters see it: its name and its formatted modification date. */
  datatype Entry = Entry(name: string, modified: string)

  /** One key of the grouped dictionary with the files listed under it, in order. */
  datatype Bucket = Bucket(category: Category, items: seq<Entry>)

  /** The total number of files listed in a sequence of buckets. */
  function TotalFiles(g: seq<Bucket>): nat
  {
    if g == [] then 0 else TotalFiles(g[..|g| - 1]) + |g[|g| - 1].items|
  }

  /** The number of buckets that list at least one file. */
  function NonEmptyCount(g: seq<Bucket>): nat
  {
    if g == [] then 0
    else NonEmptyCount(g[..|g| - 1]) + (if g[|g| - 1].items == [] then 0 else 1)
  }
}
