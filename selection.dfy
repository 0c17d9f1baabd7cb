/**
 * The selection map built while the user assigns categories: a dictionary
 * from file name to (last-modified, category).  Python dictionaries keep
 * their keys in first-insertion order, and assigning to an existing key
 * replaces its value without moving it; the map is therefore modelled as a
 * sequence of assignments with pairwise distinct names.
 */
module Selection {
  import opened Catalog

  datatype Option<T> = None | Some(value: T)

  /** The value stored under a file name: its date and the category picked for it. */
  datatype Choice = Choice(modified: string, category: Category)

  datatype Assignment = Assignment(name: string, choice: Choice)

  /** The dictionary, in iteration order. */
  type Assignments = seq<Assignment>

  /** The keys of the dictionary, in iteration order. */
  function Keys(sel: Assignments): seq<string>
  {
    seq(|sel|, i requires 0 <= i < |sel| => sel[i].name)
  }

  predicate DistinctKeys(sel: Assignments)
  {
    forall i, j :: 0 <= i < j < |sel| ==> sel[i].name != sel[j].name
  }

  predicate Distinct(s: seq<string>)
  {
    forall i, j :: 0 <= i < j < |s| ==> s[i] != s[j]
  }

  /** The position of the key `name`, or -1 when it is absent. */
  function IndexOf(sel: Assignments, name: string): (k: int)
    ensures -1 <= k < |sel|
    ensures k >= 0 ==> sel[k].name == name && forall i :: 0 <= i < k ==> sel[i].name != name
    ensures k < 0 ==> forall i :: 0 <= i < |sel| ==> sel[i].name != name
  {
    if sel == [] then -1
    else if sel[0].name == name then 0
    else
      var k := IndexOf(sel[1..], name);
      if k < 0 then -1 else k + 1
  }

  /** The first position of a key is determined by the sequence of keys alone. */
  lemma IndexOfByKeys(a: Assignments, b: Assignments, name: string)
    requires Keys(a) == Keys(b)
    ensures IndexOf(a, name) == IndexOf(b, name)
  {
    var ka, kb := IndexOf(a, name), IndexOf(b, name);
    assert |a| == |Keys(a)| == |Keys(b)| == |b|;
    assert forall i :: 0 <= i < |a| ==> a[i].name == Keys(a)[i] == Keys(b)[i] == b[i].name;
  }

  /** Appending a key leaves the positions of the keys already present alone. */
  lemma IndexOfAppend(sel: Assignments, a: Assignment, name: string)
    ensures IndexOf(sel + [a], name) ==
      if IndexOf(sel, name) >= 0 then IndexOf(sel, name) else if a.name == name then |sel| else -1
  {
    var r := sel + [a];
    var k, kr := IndexOf(sel, name), IndexOf(r, name);
    assert forall i :: 0 <= i < |sel| ==> r[i] == sel[i];
    if k >= 0 {
      assert r[k].name == name;
    } else if a.name == name {
      assert r[|sel|].name == name;
    }
  }

  /** `d.get(name)`. */
  function Lookup(sel: Assignments, name: string): Option<Choice>
  {
    var k := IndexOf(sel, name);
    if k < 0 then None else Some(sel[k].choice)
  }

  /** The dictionary as an unordered map: what Python's `==` on dictionaries compares. */
  function AsMap(sel: Assignments): (m: map<string, Choice>)
    ensures forall n :: n in m <==> n in Keys(sel)
    ensures forall n :: n in m ==> Lookup(sel, n) == Some(m[n])
  {
    map n | n in Keys(sel) :: Lookup(sel, n).value
  }

  /**
   * `d[name] = choice`: an existing key keeps its position and takes the new
   * value, a new key goes to the end; every other key keeps its value.
   */
  function Put(sel: Assignments, name: string, choice: Choice): (r: Assignments)
    requires DistinctKeys(sel)
    ensures DistinctKeys(r)
    ensures Keys(r) == if name in Keys(sel) then Keys(sel) else Keys(sel) + [name]
    ensures Lookup(r, name) == Some(choice)
    ensures forall n :: n != name ==> Lookup(r, n) == Lookup(sel, n)
  {
    var k := IndexOf(sel, name);
    if k < 0 then
      var r := sel + [Assignment(name, choice)];
      assert name !in Keys(sel);
      assert Keys(r) == Keys(sel) + [name];
      assert forall n :: IndexOf(r, n) == (if IndexOf(sel, n) >= 0 then IndexOf(sel, n)
                                           else if name == n then |sel| else -1) by {
        forall n { IndexOfAppend(sel, Assignment(name, choice), n); }
      }
      r
    else
      var r := sel[k := Assignment(name, choice)];
      assert Keys(sel)[k] == name;
      assert Keys(r) == Keys(sel);
      assert IndexOf(r, name) == k;
      assert forall n :: IndexOf(r, n) == IndexOf(sel, n) by {
        forall n { IndexOfByKeys(r, sel, n); }
      }
      r
  }

  /** The names of the listed files, in listing order, duplicates included. */
  function Names(files: seq<Entry>): seq<string>
  {
    seq(|files|, j requires 0 <= j < |files| => files[j].name)
  }

  /** The names of `files` in order of first appearance, each once. */
  function FirstOccurrences(files: seq<Entry>): (r: seq<string>)
    ensures Distinct(r)
    ensures forall n :: n in r <==> n in Names(files)
  {
    if files == [] then []
    else
      var prefix := files[..|files| - 1];
      var p := FirstOccurrences(prefix);
      var last := files[|files| - 1].name;
      assert Names(files) == Names(prefix) + [last];
      if last in p then p else p + [last]
  }

  /** No later file in `files` carries the name of file `j`. */
  predicate LastWithName(files: seq<Entry>, j: int)
    requires 0 <= j < |files|
  {
    forall m :: j < m < |files| ==> files[m].name != files[j].name
  }

  /**
   * The loop that builds the selection map (one iteration per listed file,
   * `choices[j]` being the category picked in the j-th selection box).  The
   * result has one key per distinct name, in first-seen order, and each key
   * holds the date and category of the LAST file listed under that name.
   */
  method CollectSelection(files: seq<Entry>, choices: seq<Category>) returns (sel: Assignments)
    requires |choices| == |files|
    ensures DistinctKeys(sel)
    ensures Keys(sel) == FirstOccurrences(files)
    ensures forall j :: 0 <= j < |files| && LastWithName(files, j) ==>
      Lookup(sel, files[j].name) == Some(Choice(files[j].modified, choices[j]))
  {
    sel := [];
    for k := 0 to |files|
      invariant DistinctKeys(sel)
      invariant Keys(sel) == FirstOccurrences(files[..k])
      invariant forall j :: 0 <= j < k && LastWithName(files[..k], j) ==>
        Lookup(sel, files[j].name) == Some(Choice(files[j].modified, choices[j]))
    {
      assert files[..k + 1][..k] == files[..k];
      sel := Put(sel, files[k].name, Choice(files[k].modified, choices[k]));
      forall j | 0 <= j < k + 1 && LastWithName(files[..k + 1], j)
        ensures Lookup(sel, files[j].name) == Some(Choice(files[j].modified, choices[j]))
      {
        if j < k {
          assert files[..k + 1][k].name != files[j].name;
          assert LastWithName(files[..k], j);
        }
      }
    }
    assert files[..|files|] == files;
  }
}
