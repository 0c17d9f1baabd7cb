/**
 * Resolution of the directory path typed by the user (resolve_path).
 *
 * The input is classified by prefix, in this order: a mapped drive letter
 * (`Z:` or `Y:`, case-sensitive), a UNC path (leading `\\`), anything else as
 * a local path.  A drive path is rewritten to its network share followed by
 * the rest of the input with every backslash turned into `/`.  Whatever the
 * branch, the candidate is returned only when it exists; otherwise resolution
 * fails with the message the source puts in its ValueError.
 *
 * The filesystem test `os.path.exists` is the parameter `pathExists`.
 */
module PathResolver {

  /** The outcome of a resolution: the usable path, or the ValueError message. */
  datatype Resolution = Resolved(path: string) | Invalid(message: string)

  /** The mapped drive letters and the share each one stands for. */
  const DriveMappings: map<string, string> :=
    map["Z:" := @"\\network-share\folder", "Y:" := @"\\another-share\folder"]

  predicate StartsWith(s: string, prefix: string)
  {
    |prefix| <= |s| && s[..|prefix|] == prefix
  }

  /** The input names a mapped drive: the first branch of the resolver. */
  predicate IsDrivePath(path: string)
  {
    StartsWith(path, "Z:") || StartsWith(path, "Y:")
  }

  /** The input is already a UNC path. */
  predicate IsUncPath(path: string)
  {
    StartsWith(path, "\\\\")
  }

  /** `s.replace("\\", "/")`: every backslash becomes a forward slash. */
  function ForwardSlashes(s: string): (r: string)
    ensures |r| == |s|
    ensures forall i :: 0 <= i < |s| ==> r[i] == (if s[i] == '\\' then '/' else s[i])
  {
    if s == [] then []
    else [if s[0] == '\\' then '/' else s[0]] + ForwardSlashes(s[1..])
  }

  /** The share path a drive path is rewritten to. */
  function MappedPath(path: string): string
    requires IsDrivePath(path)
  {
    DriveMappings[path[..2]] + ForwardSlashes(path[2..])
  }

  /** resolve_path: the three branches, tested in the source's order. */
  function Resolve(path: string, pathExists: string -> bool): (r: Resolution)
    ensures r.Resolved? ==> pathExists(r.path)
    ensures IsDrivePath(path) ==>
      (r.Resolved? <==> pathExists(MappedPath(path))) && (r.Resolved? ==> r.path == MappedPath(path))
    ensures !IsDrivePath(path) ==>
      (r.Resolved? <==> pathExists(path)) && (r.Resolved? ==> r.path == path)
  {
    if IsDrivePath(path) then
      var unc := MappedPath(path);
      if unc == "" || !pathExists(unc) then Invalid("Invalid path or UNC path not accessible: " + unc)
      else Resolved(unc)
    else if IsUncPath(path) then
      if !pathExists(path) then Invalid("Invalid UNC path: " + path) else Resolved(path)
    else if pathExists(path) then Resolved(path)
    else Invalid("Unrecognized or unsupported path format: " + path)
  }

  /**
   * The rewritten path of a drive input is never empty, so the source's
   * `not unc_path` test never decides anything; and the drive key always has
   * a mapping, so the `None` default is never used.
   */
  lemma MappedPathNeverEmpty(path: string)
    requires IsDrivePath(path)
    ensures path[..2] in DriveMappings
    ensures |MappedPath(path)| == |DriveMappings[path[..2]]| + |path| - 2 > 0
  {
  }

  /** The rewritten path starts with its share and carries no backslash after it. */
  lemma MappedPathShape(path: string)
    requires IsDrivePath(path)
    ensures var share := DriveMappings[path[..2]];
      && StartsWith(MappedPath(path), share)
      && (forall i :: |share| <= i < |MappedPath(path)| ==> MappedPath(path)[i] != '\\')
      && (forall i :: |share| <= i < |MappedPath(path)| && MappedPath(path)[i] != '/' ==>
            MappedPath(path)[i] == path[i - |share| + 2])
  {
    var share := DriveMappings[path[..2]];
    assert MappedPath(path)[..|share|] == share;
  }

  /** Replacing the backslashes a second time changes nothing. */
  lemma ForwardSlashesIdempotent(s: string)
    ensures ForwardSlashes(ForwardSlashes(s)) == ForwardSlashes(s)
  {
  }

  /**
   * The drive test is case-sensitive: a lower-case drive letter is not
   * rewritten, and the input is treated as a UNC or local path, returned
   * unchanged when it exists.
   */
  lemma LowerCaseDriveIsNotMapped(rest: string, pathExists: string -> bool)
    ensures var p := "z:" + rest;
      Resolve(p, pathExists) == if pathExists(p) then Resolved(p)
                            else Invalid("Unrecognized or unsupported path format: " + p)
  {
    var p := "z:" + rest;
    assert p[0] == 'z';
  }

  /** A failed resolution reports the path it tried, in the branch's own wording. */
  lemma InvalidMessages(path: string, pathExists: string -> bool)
    ensures IsDrivePath(path) && !pathExists(MappedPath(path)) ==>
      Resolve(path, pathExists) == Invalid("Invalid path or UNC path not accessible: " + MappedPath(path))
    ensures !IsDrivePath(path) && IsUncPath(path) && !pathExists(path) ==>
      Resolve(path, pathExists) == Invalid("Invalid UNC path: " + path)
    ensures !IsDrivePath(path) && !IsUncPath(path) && !pathExists(path) ==>
      Resolve(path, pathExists) == Invalid("Unrecognized or unsupported path format: " + path)
  {
  }

  /**
   * Only the existence of the one candidate path is consulted: two
   * filesystems that agree on it resolve the input alike.
   */
  lemma OnlyCandidateConsulted(path: string, e1: string -> bool, e2: string -> bool)
    requires IsDrivePath(path) ==> e1(MappedPath(path)) == e2(MappedPath(path))
    requires !IsDrivePath(path) ==> e1(path) == e2(path)
    ensures Resolve(path, e1) == Resolve(path, e2)
  {
  }

  /**
   * Resolution is idempotent: a resolved path resolves to itself.  A mapped
   * drive becomes a UNC path, which the second pass accepts unchanged.
   */
  lemma ResolveIdempotent(path: string, pathExists: string -> bool)
    requires Resolve(path, pathExists).Resolved?
    ensures Resolve(Resolve(path, pathExists).path, pathExists) == Resolve(path, pathExists)
  {
    var r := Resolve(path, pathExists).path;
    if IsDrivePath(path) {
      var share := DriveMappings[path[..2]];
      assert r[..|share|] == share;
      assert r[..2] == share[..2] == "\\\\";
    }
  }
}
