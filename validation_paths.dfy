/**
 * Path validation (`validation/paths.py`): a requested path is resolved,
 * must exist, and, when the server is restricted to some workspaces, must
 * lie inside one of them, component by component.
 */
module ValidationPaths {
  import opened Wrappers
  import opened Strings
  import opened PosixPath

  /** `ValidationError`: the offending field and what is wrong with it. */
  datatype ValidationError = ValidationError(field: string, message: string)

  /** The three entries of `to_error_response`. */
  datatype ErrorResponse = ErrorResponse(status: string, errorCode: string, message: string)

  /** `to_error_response`: status "error", code "validation_error", and the message "field: message". */
  function ToErrorResponse(e: ValidationError): (r: ErrorResponse)
    ensures r.status == "error" && r.errorCode == "validation_error"
    ensures |r.message| == |e.field| + 2 + |e.message|
    ensures r.message[..|e.field|] == e.field
    ensures r.message[|e.field|..|e.field| + 2] == ": "
    ensures r.message[|e.field| + 2..] == e.message
  {
    ErrorResponse("error", "validation_error", e.field + ": " + e.message)
  }

  /**
   * What `is_path_allowed` decides: after resolving both sides, some allowed
   * root is the path itself or one of its ancestors, compared component by
   * component.
   */
  predicate Allowed(fs: FileSystem, path: Path, roots: seq<Path>) {
    exists i :: 0 <= i < |roots| && IsRelativeTo(fs.resolve(path), fs.resolve(roots[i]))
  }

  /** `is_path_allowed`: the roots are tried in order and the first that contains the path answers. */
  method IsPathAllowed(fs: FileSystem, path: Path, roots: seq<Path>) returns (b: bool)
    ensures b == Allowed(fs, path, roots)
    ensures roots == [] ==> !b
  {
    var p := fs.resolve(path);
    var i := 0;
    while i < |roots|
      invariant 0 <= i <= |roots|
      invariant forall j :: 0 <= j < i ==> !IsRelativeTo(p, fs.resolve(roots[j]))
    {
      var root := fs.resolve(roots[i]);
      if IsRelativeTo(p, root) {
        return true;
      }
      i := i + 1;
    }
    return false;
  }

  /** Adding roots to the list allows exactly what either part allows. */
  lemma AllowedAppend(fs: FileSystem, path: Path, a: seq<Path>, b: seq<Path>)
    ensures Allowed(fs, path, a + b) <==> Allowed(fs, path, a) || Allowed(fs, path, b)
  {
    var p := fs.resolve(path);
    if Allowed(fs, path, a + b) {
      var i :| 0 <= i < |a + b| && IsRelativeTo(p, fs.resolve((a + b)[i]));
      if i < |a| {
        assert (a + b)[i] == a[i];
      } else {
        assert (a + b)[i] == b[i - |a|];
      }
    }
    if Allowed(fs, path, a) {
      var i :| 0 <= i < |a| && IsRelativeTo(p, fs.resolve(a[i]));
      assert (a + b)[i] == a[i];
    }
    if Allowed(fs, path, b) {
      var i :| 0 <= i < |b| && IsRelativeTo(p, fs.resolve(b[i]));
      assert (a + b)[|a| + i] == b[i];
    }
  }

  /**
   * On resolved paths the check is the ancestor-or-self relation: a root
   * allows itself and everything below it, and not a sibling whose name
   * merely starts with the root's last component.
   */
  lemma AllowedUnderRoot(fs: FileSystem, root: Path, name: string)
    requires fs.resolve(root) == root
    requires fs.resolve(Path(root.root, root.parts + [name])) == Path(root.root, root.parts + [name])
    ensures Allowed(fs, root, [root])
    ensures Allowed(fs, Path(root.root, root.parts + [name]), [root])
  {
    var child := Path(root.root, root.parts + [name]);
    assert IsRelativeTo(child, root) by {
      assert child.parts[..|root.parts|] == root.parts;
    }
    assert IsRelativeTo(fs.resolve(root), fs.resolve([root][0]));
    assert IsRelativeTo(fs.resolve(child), fs.resolve([root][0]));
  }

  /** ", ".join(str(p) for p in roots). */
  function RootsText(roots: seq<Path>): string {
    Join(seq(|roots|, i requires 0 <= i < |roots| => ToString(roots[i])), ", ")
  }

  const NotInWorkspace := "Path not in allowed workspace: "

  /**
   * `validate_path`: the path is resolved; a path that does not exist, or
   * that no allowed root contains when roots are configured, is refused on
   * the field "path"; otherwise the resolved path is the result.
   */
  function ValidatePath(fs: FileSystem, path: string, allowed: Option<seq<Path>>): (r: Result<Path, ValidationError>)
    ensures r.Err? ==> r.error.field == "path"
    ensures r.Ok? <==> Exists(fs, fs.resolve(Parse(path))) && (allowed.None? || Allowed(fs, fs.resolve(Parse(path)), allowed.value))
    ensures r.Ok? ==> r.value == fs.resolve(Parse(path))
    ensures r.Err? && Exists(fs, fs.resolve(Parse(path))) ==>
      |NotInWorkspace| <= |r.error.message| && r.error.message[..|NotInWorkspace|] == NotInWorkspace
  {
    var normalized := fs.resolve(Parse(path));
    if !Exists(fs, normalized) then
      Err(ValidationError("path", "Path does not exist: " + ToString(normalized)))
    else if allowed.Some? && !Allowed(fs, normalized, allowed.value) then
      Err(ValidationError("path", NotInWorkspace + ToString(normalized) + ". Allowed paths: " + RootsText(allowed.value)))
    else
      Ok(normalized)
  }

  /** With no restriction, every existing path is accepted, resolved. */
  lemma UnrestrictedAcceptsExisting(fs: FileSystem, path: string)
    requires Exists(fs, fs.resolve(Parse(path)))
    ensures ValidatePath(fs, path, None) == Ok(fs.resolve(Parse(path)))
  {
  }

  /** An empty list of roots refuses every path, existing or not. */
  lemma NoRootsRefuseAll(fs: FileSystem, path: string)
    ensures ValidatePath(fs, path, Some([])).Err?
  {
  }
}
