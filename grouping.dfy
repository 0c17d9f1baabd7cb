/**
 * The regrouping done when files are generated: a dictionary with one empty
 * list per category, in canonical order, into which every entry of the
 * selection map is appended, in the selection map's iteration order, under
 * the category picked for it.
 */
module Grouping {
  import opened Catalog
  import opened Selection

  /** The `(name, modified)` pair appended for one selection entry. */
  function Project(a: Assignment): Entry
  {
    Entry(a.name, a.choice.modified)
  }

  /** The entries of `sel` assigned to `c`, as pairs, in iteration order. */
  function Matching(sel: Assignments, c: Category): seq<Entry>
  {
    if sel == [] then []
    else
      var last := sel[|sel| - 1];
      Matching(sel[..|sel| - 1], c) + (if last.choice.category == c then [Project(last)] else [])
  }

  /** The grouped dictionary: every category, in canonical order, with its entries. */
  function Grouped(sel: Assignments): (g: seq<Bucket>)
    ensures |g| == |Categories|
    ensures forall k :: 0 <= k < |g| ==> g[k].category == Categories[k]
  {
    seq(|Categories|, k requires 0 <= k < |Categories| => Bucket(Categories[k], Matching(sel, Categories[k])))
  }

  /** The grouping loop, appending each entry to its category's list in place. */
  method Group(sel: Assignments) returns (g: seq<Bucket>)
    ensures g == Grouped(sel)
  {
    g := seq(|Categories|, k requires 0 <= k < |Categories| => Bucket(Categories[k], []));
    for i := 0 to |sel|
      invariant g == Grouped(sel[..i])
    {
      var a := sel[i];
      var k := Position(a.choice.category);
      g := g[k := Bucket(g[k].category, g[k].items + [Entry(a.name, a.choice.modified)])];
      assert sel[..i + 1][..i] == sel[..i];
      forall j | 0 <= j < |Categories|
        ensures g[j] == Grouped(sel[..i + 1])[j]
      {
        assert Matching(sel[..i + 1], Categories[j]) ==
          Matching(sel[..i], Categories[j]) + (if j == k then [Project(a)] else []);
      }
    }
    assert sel[..|sel|] == sel;
  }

  /** Filtering distributes over concatenation: entries keep their relative order. */
  lemma {:induction false} MatchingAppend(a: Assignments, b: Assignments, c: Category)
    ensures Matching(a + b, c) == Matching(a, c) + Matching(b, c)
  {
    if b == [] {
      assert a + b == a;
    } else {
      var b' := b[..|b| - 1];
      var last := b[|b| - 1];
      assert (a + b)[..|a + b| - 1] == a + b';
      assert (a + b)[|a + b| - 1] == last;
      MatchingAppend(a, b', c);
    }
  }

  /** An entry is in a bucket exactly when some selection entry of that category projects to it. */
  lemma {:induction false} MatchingMembers(sel: Assignments, c: Category, e: Entry)
    ensures e in Matching(sel, c) <==>
      exists i :: 0 <= i < |sel| && sel[i].choice.category == c && Project(sel[i]) == e
  {
    if sel != [] {
      var prefix := sel[..|sel| - 1];
      MatchingMembers(prefix, c, e);
      assert forall i :: 0 <= i < |prefix| ==> prefix[i] == sel[i];
      if e in Matching(prefix, c) {
        var i :| 0 <= i < |prefix| && prefix[i].choice.category == c && Project(prefix[i]) == e;
        assert sel[i].choice.category == c && Project(sel[i]) == e;
      }
    }
  }

  /**
   * Partition, membership half: each selection entry lies in the bucket of its
   * own category and in no other.  Keys are distinct, so no other entry can
   * project to the same pair.
   */
  lemma InExactlyOneBucket(sel: Assignments, i: int, k: int)
    requires DistinctKeys(sel)
    requires 0 <= i < |sel| && 0 <= k < |Categories|
    ensures Project(sel[i]) in Grouped(sel)[k].items <==> Categories[k] == sel[i].choice.category
  {
    MatchingMembers(sel, Categories[k], Project(sel[i]));
  }

  /** Every listed pair comes from the selection map. */
  lemma BucketsFromSelection(sel: Assignments, k: int, e: Entry)
    requires 0 <= k < |Categories|
    requires e in Grouped(sel)[k].items
    ensures exists i :: 0 <= i < |sel| && Project(sel[i]) == e && sel[i].choice.category == Categories[k]
  {
    MatchingMembers(sel, Categories[k], e);
  }

  /** Partition, counting half: the five bucket sizes add up to the size of the selection. */
  lemma {:induction false} BucketSizesSum(sel: Assignments)
    ensures |Matching(sel, Contractual)| + |Matching(sel, Architectural)| + |Matching(sel, Structural)|
      + |Matching(sel, Services)| + |Matching(sel, Safety)| == |sel|
  {
    if sel != [] {
      BucketSizesSum(sel[..|sel| - 1]);
    }
  }

  /** The grouped dictionary lists exactly as many files as the selection map holds. */
  lemma GroupedTotal(sel: Assignments)
    ensures TotalFiles(Grouped(sel)) == |sel|
  {
    var g := Grouped(sel);
    BucketSizesSum(sel);
    assert g[..4][..3] == g[..3] && g[..3][..2] == g[..2] && g[..2][..1] == g[..1] && g[..1][..0] == [];
    assert g[..5] == g;
    assert TotalFiles(g) == TotalFiles(g[..4]) + |g[4].items|;
    assert TotalFiles(g[..4]) == TotalFiles(g[..3]) + |g[3].items|;
    assert TotalFiles(g[..3]) == TotalFiles(g[..2]) + |g[2].items|;
    assert TotalFiles(g[..2]) == TotalFiles(g[..1]) + |g[1].items|;
    assert TotalFiles(g[..1]) == TotalFiles(g[..0]) + |g[0].items|;
  }
}
