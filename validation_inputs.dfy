/**
 * Tool-parameter validation (`validation/inputs.py`): the path argument of
 * `check_types` must be given and not blank, and then goes through path
 * validation without a workspace restriction.
 */
module ValidationInputs {
  import opened Wrappers
  import opened Strings
  import opened PosixPath
  import opened ValidationPaths

  const Required := ValidationError("path", "path parameter is required")
  const Blank := ValidationError("path", "path parameter cannot be empty")

  /** `validate_check_types_input`. */
  function ValidateCheckTypesInput(fs: FileSystem, path: Option<string>): (r: Result<Path, ValidationError>)
    ensures r.Err? ==> r.error.field == "path"
    ensures path.None? ==> r == Err(Required)
    ensures path.Some? && Strip(path.value) == "" ==> r == Err(Blank)
    ensures r.Ok? <==> path.Some? && Strip(path.value) != "" && Exists(fs, fs.resolve(Parse(path.value)))
    ensures r.Ok? ==> r.value == fs.resolve(Parse(path.value))
  {
    if path.None? then Err(Required)
    else if Strip(path.value) == "" then Err(Blank)
    else ValidatePath(fs, path.value, None)
  }

  /** Stripping a string of whitespace alone leaves nothing. */
  lemma StripAllSpace(s: string)
    requires forall i :: 0 <= i < |s| ==> IsSpace(s[i])
    ensures Strip(s) == ""
  {
  }

  /** An empty or whitespace-only path is refused as blank. */
  lemma BlankRejected(fs: FileSystem, s: string)
    requires forall i :: 0 <= i < |s| ==> IsSpace(s[i])
    ensures ValidateCheckTypesInput(fs, Some(s)) == Err(Blank)
  {
    StripAllSpace(s);
  }

  /** A path with some non-blank character is validated like `validate_path` without roots. */
  lemma NonBlankDelegates(fs: FileSystem, s: string, k: nat)
    requires k < |s| && !IsSpace(s[k])
    ensures ValidateCheckTypesInput(fs, Some(s)) == ValidatePath(fs, s, None)
  {
    var t := LStrip(s);
    assert |s| - |t| <= k;
    assert t[k - (|s| - |t|)] == s[k];
    var u := RStrip(t);
    assert k - (|s| - |t|) < |u|;
  }
}
