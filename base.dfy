/**
 * The backend error and the result records every backend returns
 * (`backends/base.py`), with the dictionaries their `to_dict` methods build
 * for the tool responses. Positions are 0-indexed inside and shown 1-indexed.
 */
module Base {
  import opened Wrappers
  import opened Json
  import opened Strings
  import opened Positions
  import opened PosixPath

  // ---------------------------------------------------------------------
  // BackendError

  datatype ErrorCode =
    | NotFound | Timeout | ParseError | InvalidPath | ExecutionError
    | ValidationError | Disabled | LspNotReady | LspCrash

  /** The `error_code` string of each code. */
  function CodeName(c: ErrorCode): (s: string)
    ensures s != ""
  {
    match c
    case NotFound => "not_found"
    case Timeout => "timeout"
    case ParseError => "parse_error"
    case InvalidPath => "invalid_path"
    case ExecutionError => "execution_error"
    case ValidationError => "validation_error"
    case Disabled => "disabled"
    case LspNotReady => "lsp_not_ready"
    case LspCrash => "lsp_crash"
  }

  datatype BackendError = BackendError(code: ErrorCode, message: string, recoverable: bool, details: map<string, Json>)

  /**
   * `BackendError(error_code, message, recoverable=False, details=None)`:
   * `recoverable` defaults to false and absent details become an empty map.
   */
  function MakeError(code: ErrorCode, message: string, recoverable: bool := false,
                     details: Option<map<string, Json>> := None): (e: BackendError)
    ensures e.code == code && e.message == message && e.recoverable == recoverable
    ensures details.None? ==> e.details == map[]
    ensures details.Some? ==> e.details == details.value
  {
    BackendError(code, message, recoverable, if details.Some? then details.value else map[])
  }

  /**
   * The exceptions that reach the LSP client's error handling: a
   * `BackendError`, `FileNotFoundError` from reading a document, a broken
   * pipe to the server, `asyncio.TimeoutError`, and any other exception.
   */
  datatype Exn = Backend(err: BackendError) | FileNotFound(path: Path) | BrokenPipe | AsyncTimeout | OtherExn

  // ---------------------------------------------------------------------
  // Diagnostics

  datatype Severity = Error | Warning | Information | Hint

  function SeverityName(s: Severity): string {
    match s
    case Error => "error"
    case Warning => "warning"
    case Information => "information"
    case Hint => "hint"
  }

  /** Distinct severities have distinct names, so the name in a diagnostic's dict identifies its severity. */
  lemma SeverityNamesDistinct(a: Severity, b: Severity)
    ensures SeverityName(a) == SeverityName(b) <==> a == b
  {
  }

  /**
   * `Diagnostic`. The message and the rule are whatever the decoded output
   * held (the annotations `str` and `str | None` are not checked): `to_dict`
   * passes them through, an absent rule being null.
   */
  datatype Diagnostic = Diagnostic(file: Path, range: Range, severity: Severity, message: Json, rule: Json)

  /** An optional string as JSON: `None` is null. */
  function OptStr(o: Option<string>): (j: Json)
    ensures o.None? <==> j == JNull
    ensures o.Some? ==> j == JStr(o.value)
  {
    match o
    case None => JNull
    case Some(s) => JStr(s)
  }

  /** `Diagnostic.to_dict`: file text, 1-indexed "line:col-line:col" location, severity, message, rule. */
  function DiagnosticToDict(d: Diagnostic): (j: Json)
    ensures j.JObj? && j.fields.Keys == {"file", "location", "severity", "message", "rule"}
    ensures j.fields["location"] == JStr(RangeToDisplay(d.range))
    ensures j.fields["file"] == JStr(ToString(d.file))
    ensures j.fields["severity"] == JStr(SeverityName(d.severity))
    ensures j.fields["message"] == d.message && j.fields["rule"] == d.rule
  {
    JObj(map[
      "file" := JStr(ToString(d.file)),
      "location" := JStr(RangeToDisplay(d.range)),
      "severity" := JStr(SeverityName(d.severity)),
      "message" := d.message,
      "rule" := d.rule])
  }

  /** The number of diagnostics of severity `s`. */
  function CountSeverity(ds: seq<Diagnostic>, s: Severity): (n: nat)
    ensures n <= |ds|
    decreases |ds|
  {
    if ds == [] then 0 else (if ds[0].severity == s then 1 else 0) + CountSeverity(ds[1..], s)
  }

  datatype DiagnosticsResult = DiagnosticsResult(diagnostics: seq<Diagnostic>, summary: string, filesAnalyzed: Json)

  /** `DiagnosticsResult.to_dict`: the summary, the four severity counts and every diagnostic in order. */
  function DiagnosticsResultToDict(r: DiagnosticsResult): (j: Json)
    ensures j.JObj? && j.fields.Keys == {"status", "summary", "files_analyzed", "error_count",
      "warning_count", "information_count", "hint_count", "diagnostics"}
    ensures j.fields["status"] == JStr("success") && j.fields["summary"] == JStr(r.summary)
    ensures j.fields["files_analyzed"] == r.filesAnalyzed
    ensures j.fields["error_count"] == JInt(CountSeverity(r.diagnostics, Error))
    ensures j.fields["warning_count"] == JInt(CountSeverity(r.diagnostics, Warning))
    ensures j.fields["information_count"] == JInt(CountSeverity(r.diagnostics, Information))
    ensures j.fields["hint_count"] == JInt(CountSeverity(r.diagnostics, Hint))
    ensures j.fields["diagnostics"].JArr? && |j.fields["diagnostics"].items| == |r.diagnostics|
    ensures forall i :: 0 <= i < |r.diagnostics| ==>
      j.fields["diagnostics"].items[i] == DiagnosticToDict(r.diagnostics[i])
  {
    var ds := r.diagnostics;
    JObj(map[
      "status" := JStr("success"),
      "summary" := JStr(r.summary),
      "files_analyzed" := r.filesAnalyzed,
      "error_count" := JInt(CountSeverity(ds, Error)),
      "warning_count" := JInt(CountSeverity(ds, Warning)),
      "information_count" := JInt(CountSeverity(ds, Information)),
      "hint_count" := JInt(CountSeverity(ds, Hint)),
      "diagnostics" := JArr(seq(|ds|, i requires 0 <= i < |ds| => DiagnosticToDict(ds[i])))])
  }

  /** Every diagnostic has one of the four severities, so the four counts add up to the list length. */
  lemma {:induction false} SeverityCountsSum(ds: seq<Diagnostic>)
    ensures CountSeverity(ds, Error) + CountSeverity(ds, Warning)
          + CountSeverity(ds, Information) + CountSeverity(ds, Hint) == |ds|
    decreases |ds|
  {
    if ds != [] {
      SeverityCountsSum(ds[1..]);
    }
  }

  /** Counting over a concatenation adds the counts of the parts. */
  lemma {:induction false} CountSeverityAppend(a: seq<Diagnostic>, b: seq<Diagnostic>, s: Severity)
    ensures CountSeverity(a + b, s) == CountSeverity(a, s) + CountSeverity(b, s)
    decreases |a|
  {
    if a != [] {
      assert (a + b)[1..] == a[1..] + b;
      assert (a + b)[0] == a[0];
      CountSeverityAppend(a[1..], b, s);
    } else {
      assert a + b == b;
    }
  }

  /** The "location" of a diagnostic splits back into the displays of its two ends. */
  lemma DiagnosticLocationReadsBack(d: Diagnostic)
    requires d.range.start.line >= 0 && d.range.start.column >= 0
    requires d.range.end.line >= 0 && d.range.end.column >= 0
    ensures Split(DiagnosticToDict(d).fields["location"].s, '-')
         == [PositionToDisplay(d.range.start), PositionToDisplay(d.range.end)]
  {
    RangeDisplayReadsBack(d.range);
  }

  /** The "file" of a diagnostic parses back to its path. */
  lemma DiagnosticFileReadsBack(d: Diagnostic)
    requires Valid(d.file)
    ensures Parse(DiagnosticToDict(d).fields["file"].s) == d.file
  {
    ParseToString(d.file);
  }

  // ---------------------------------------------------------------------
  // Hover

  datatype HoverResult = HoverResult(typeInfo: Option<string>, documentation: Option<string>, range: Option<Range>)

  /** The symbol of a hover: the signature's text before the first "(", stripped; none for an absent or empty signature. */
  function HoverSymbol(typeInfo: Option<string>): (r: Option<string>)
    ensures r.Some? <==> typeInfo.Some? && typeInfo.value != ""
    ensures r.Some? ==> '(' !in r.value
  {
    if typeInfo.Some? && typeInfo.value != "" then
      var head := Split(typeInfo.value, '(')[0];
      var sym := Strip(head);
      StripInside(head);
      Some(sym)
    else None
  }

  /** `HoverResult.to_dict`. */
  function HoverToDict(h: HoverResult): (j: Json)
    ensures j.JObj? && j.fields.Keys == {"status", "symbol", "type", "documentation"}
    ensures j.fields["symbol"] == OptStr(HoverSymbol(h.typeInfo))
    ensures j.fields["type"] == OptStr(h.typeInfo) && j.fields["documentation"] == OptStr(h.documentation)
  {
    JObj(map[
      "status" := JStr("success"),
      "symbol" := OptStr(HoverSymbol(h.typeInfo)),
      "type" := OptStr(h.typeInfo),
      "documentation" := OptStr(h.documentation)])
  }

  /** A name followed by a parenthesised signature is reported as that name. */
  lemma HoverSymbolOfSignature(name: string, sig: string, t: string)
    requires t == name + "(" + sig
    requires name != "" && '(' !in name && NoSpace(name)
    ensures HoverSymbol(Some(t)) == Some(name)
  {
    assert t[|name|] == '(';
    assert forall j :: 0 <= j < |name| ==> t[j] == name[j];
    assert IndexOf(t, '(') == |name|;
    assert t[..|name|] == name;
    StripNoSpace(name);
  }

  /** Stripping keeps the text inside: no "(" appears in the stripped text of a "("-free string. */
  lemma StripInside(s: string)
    requires '(' !in s
    ensures '(' !in Strip(s)
  {
    var l := LStrip(s);
    var r := RStrip(l);
    assert Strip(s) == r;
    forall i | 0 <= i < |r| ensures r[i] != '(' {
      assert r[i] == l[i];
      assert l[i] == s[|s| - |l| + i];
    }
  }

  // ---------------------------------------------------------------------
  // Locations and their lists

  datatype Location = Location(file: Path, position: Position)

  /** `Location.to_dict`: the file text and the 1-indexed line and column. */
  function LocationToDict(l: Location): (j: Json)
    ensures j.JObj? && j.fields.Keys == {"file", "line", "column"}
    ensures j.fields["line"].JInt? && j.fields["line"].i - 1 == l.position.line
    ensures j.fields["column"].JInt? && j.fields["column"].i - 1 == l.position.column
    ensures j.fields["file"] == JStr(ToString(l.file))
  {
    JObj(map[
      "file" := JStr(ToString(l.file)),
      "line" := JInt(l.position.line + 1),
      "column" := JInt(l.position.column + 1)])
  }

  /** The list of location dicts, in the order of the locations. */
  function LocationList(ls: seq<Location>): (j: Json)
    ensures j.JArr? && |j.items| == |ls|
    ensures forall i :: 0 <= i < |ls| ==> j.items[i] == LocationToDict(ls[i])
  {
    JArr(seq(|ls|, i requires 0 <= i < |ls| => LocationToDict(ls[i])))
  }

  /** `DefinitionResult.to_dict`. */
  function DefinitionResultToDict(defs: seq<Location>): (j: Json)
    ensures j.JObj? && j.fields.Keys == {"status", "definitions"}
    ensures j.fields["definitions"] == LocationList(defs)
  {
    JObj(map["status" := JStr("success"), "definitions" := LocationList(defs)])
  }

  /** `ReferencesResult.to_dict`: the references in order and their number. */
  function ReferencesResultToDict(refs: seq<Location>): (j: Json)
    ensures j.JObj? && j.fields.Keys == {"status", "references", "count"}
    ensures j.fields["references"] == LocationList(refs)
    ensures j.fields["count"] == JInt(|j.fields["references"].items|)
  {
    JObj(map["status" := JStr("success"), "references" := LocationList(refs), "count" := JInt(|refs|)])
  }

  /** A location's dict reads back to the location, for a valid path. */
  lemma LocationDictReadsBack(l: Location)
    requires Valid(l.file)
    ensures var d := LocationToDict(l).fields;
      Location(Parse(d["file"].s), Position(d["line"].i - 1, d["column"].i - 1)) == l
  {
    ParseToString(l.file);
  }

  // ---------------------------------------------------------------------
  // Completions

  datatype CompletionItem = CompletionItem(
    labelText: string, kind: string, detail: Option<string>, documentation: Option<string>, insertText: Option<string>)

  /** The text to insert: `insert_text` when it is a non-empty string, otherwise the label. */
  function InsertTextOrLabel(item: CompletionItem): (t: string)
    ensures item.insertText.Some? && item.insertText.value != "" ==> t == item.insertText.value
    ensures item.insertText.None? || item.insertText.value == "" ==> t == item.labelText
  {
    if item.insertText.Some? && item.insertText.value != "" then item.insertText.value else item.labelText
  }

  /** `CompletionItem.to_dict`. */
  function CompletionItemToDict(item: CompletionItem): (j: Json)
    ensures j.JObj? && j.fields.Keys == {"label", "kind", "detail", "documentation", "insert_text"}
    ensures j.fields["insert_text"] == JStr(InsertTextOrLabel(item))
    ensures j.fields["label"] == JStr(item.labelText) && j.fields["kind"] == JStr(item.kind)
    ensures j.fields["detail"] == OptStr(item.detail) && j.fields["documentation"] == OptStr(item.documentation)
  {
    JObj(map[
      "label" := JStr(item.labelText),
      "kind" := JStr(item.kind),
      "detail" := OptStr(item.detail),
      "documentation" := OptStr(item.documentation),
      "insert_text" := JStr(InsertTextOrLabel(item))])
  }

  /** `CompletionResult.to_dict`: the items in order and the incompleteness flag as received. */
  function CompletionResultToDict(items: seq<CompletionItem>, isIncomplete: Json): (j: Json)
    ensures j.JObj? && j.fields.Keys == {"status", "items", "is_incomplete"}
    ensures j.fields["items"].JArr? && |j.fields["items"].items| == |items|
    ensures forall i :: 0 <= i < |items| ==> j.fields["items"].items[i] == CompletionItemToDict(items[i])
    ensures j.fields["is_incomplete"] == isIncomplete
  {
    JObj(map[
      "status" := JStr("success"),
      "items" := JArr(seq(|items|, i requires 0 <= i < |items| => CompletionItemToDict(items[i]))),
      "is_incomplete" := isIncomplete])
  }

  /** The inserted text is never empty for an item with a label. */
  lemma InsertTextNonEmpty(item: CompletionItem)
    requires item.labelText != ""
    ensures InsertTextOrLabel(item) != ""
  {
  }
}
