/**
 * The command-line backend (`backends/cli_runner.py`): the argument list
 * handed to the `pyright` executable, and the decoding of its
 * `--outputjson` report into a `DiagnosticsResult`.
 *
 * Decoding failures are reported as `check` reports them: invalid JSON
 * becomes `parse_error` in `parse_pyright_output` itself, and any other
 * exception raised while reading the report (a value of the wrong type
 * where the code calls `.get`, compares with 0 or formats a number) is
 * turned into `parse_error` by `check`. Neither is recoverable.
 */
module CliRunner {
  import opened Wrappers
  import opened Json
  import opened Strings
  import opened PosixPath
  import opened Positions
  import opened Base

  // ---------------------------------------------------------------------
  // The command

  /**
   * `build_pyright_command`: "pyright --outputjson", then "--project" and
   * the root when a root is given, then "--pythonversion" and the version
   * when it is a non-empty string, and the target path last. A `Path` is
   * always truthy, so any given root counts.
   */
  method BuildCommand(path: Path, projectRoot: Option<Path>, pythonVersion: Option<string>) returns (cmd: seq<string>)
    ensures var withRoot := projectRoot.Some?;
      var withVersion := pythonVersion.Some? && pythonVersion.value != "";
      |cmd| == 3 + (if withRoot then 2 else 0) + (if withVersion then 2 else 0)
      && cmd[0] == "pyright" && cmd[1] == "--outputjson" && cmd[|cmd| - 1] == ToString(path)
      && (withRoot ==> cmd[2] == "--project" && cmd[3] == ToString(projectRoot.value))
      && (withVersion ==> cmd[|cmd| - 3] == "--pythonversion" && cmd[|cmd| - 2] == pythonVersion.value)
  {
    cmd := ["pyright", "--outputjson"];
    if projectRoot.Some? {
      cmd := cmd + ["--project", ToString(projectRoot.value)];
    }
    if pythonVersion.Some? && pythonVersion.value != "" {
      cmd := cmd + ["--pythonversion", pythonVersion.value];
    }
    cmd := cmd + [ToString(path)];
  }

  // ---------------------------------------------------------------------
  // One diagnostic

  /** `d.get(key, default)`. */
  function Lookup(d: map<string, Json>, key: string, default: Json): (j: Json)
    ensures key in d ==> j == d[key]
    ensures key !in d ==> j == default
  {
    if key in d then d[key] else default
  }

  /**
   * The severity table lookup `severity_map.get(code, "error")`: codes 1 to
   * 4 name the four severities and any other hashable value (other numbers,
   * strings, null, booleans) reads as an error. A list or an object cannot
   * be looked up at all: `None`.
   */
  function SeverityOf(code: Json): Option<Severity> {
    match code
    case JInt(i) =>
      Some(if i == 2 then Warning else if i == 3 then Information else if i == 4 then Hint else Error)
    case JArr(_) => None
    case JObj(_) => None
    case _ => Some(Error)
  }

  /** What reading one entry of "generalDiagnostics" does. */
  datatype Decoded = Keep(d: Diagnostic) | Skip | Crash

  /**
   * One iteration of the loop in `parse_pyright_output`, in its order:
   * severity (an entry that is not an object, or an unhashable severity,
   * raises), then the range (a missing or malformed one skips the entry),
   * then the file (a non-string raises), message and rule.
   */
  function DecodeDiagnostic(entry: Json): (r: Decoded)
    ensures r.Keep? ==> entry.JObj? && RangeFromLsp(Lookup(entry.fields, "range", JObj(map[]))) == Ok(r.d.range)
    ensures r.Keep? ==> r.d.message == Lookup(entry.fields, "message", JStr("")) && r.d.rule == Lookup(entry.fields, "rule", JNull)
    ensures r.Keep? ==> Some(r.d.severity) == SeverityOf(Lookup(entry.fields, "severity", JInt(1)))
    ensures r.Keep? ==> Lookup(entry.fields, "file", JStr("")).JStr? && r.d.file == Parse(Lookup(entry.fields, "file", JStr("")).s)
    ensures r.Crash? <==>
      (!entry.JObj? || SeverityOf(Lookup(entry.fields, "severity", JInt(1))).None?
       || (RangeFromLsp(Lookup(entry.fields, "range", JObj(map[]))).Ok? && !Lookup(entry.fields, "file", JStr("")).JStr?))
  {
    match entry
    case JObj(d) =>
      (match SeverityOf(Lookup(d, "severity", JInt(1)))
       case None => Crash
       case Some(severity) =>
         match RangeFromLsp(Lookup(d, "range", JObj(map[])))
         case Err(_) => Skip
         case Ok(range) =>
           match Lookup(d, "file", JStr(""))
           case JStr(file) => Keep(Diagnostic(Parse(file), range, severity, Lookup(d, "message", JStr("")), Lookup(d, "rule", JNull)))
           case _ => Crash)
    case _ => Crash
  }

  /**
   * The diagnostics the loop collects from `entries`, in order, or `None`
   * once an entry raises.
   */
  function Collect(entries: seq<Json>): (r: Option<seq<Diagnostic>>)
    ensures r.Some? ==> |r.value| <= |entries|
    decreases |entries|
  {
    if entries == [] then Some([])
    else
      match Collect(entries[..|entries| - 1])
      case None => None
      case Some(ds) =>
        match DecodeDiagnostic(entries[|entries| - 1])
        case Crash => None
        case Skip => Some(ds)
        case Keep(d) => Some(ds + [d])
  }

  /**
   * Iterating over `data.get("generalDiagnostics", [])`: a list gives its
   * entries; an empty dict or string gives none; a non-empty dict or string
   * yields keys or characters, whose `.get` raises; anything else is not
   * iterable.
   */
  function Entries(j: Json): Option<seq<Json>> {
    match j
    case JArr(xs) => Some(xs)
    case JObj(m) => if m == map[] then Some([]) else None
    case JStr(s) => if s == "" then Some([]) else None
    case _ => None
  }

  // ---------------------------------------------------------------------
  // The summary line

  /** What an f-string shows for a decoded value; lists and dicts are shown by `repr`. */
  function Show(j: Json, repr: Json -> string): string {
    match j
    case JNull => "None"
    case JBool(b) => if b then "True" else "False"
    case JInt(i) => IntToString(i)
    case JStr(s) => s
    case _ => repr(j)
  }

  /** The number a comparison with 0 sees: integers, and booleans as 1 and 0; other values make it raise. */
  function Number(j: Json): Option<int> {
    match j
    case JInt(i) => Some(i)
    case JBool(b) => Some(if b then 1 else 0)
    case _ => None
  }

  /** `format(t, ".2f")` of an integer or a boolean; other values make it raise. */
  function TwoPlaces(j: Json): (r: Option<string>)
    ensures r.Some? <==> j.JInt? || j.JBool?
    ensures r.Some? ==> |r.value| >= 4 && r.value[|r.value| - 3..] == ".00"
  {
    match j
    case JInt(i) => Some(IntToString(i) + ".00")
    case JBool(b) => Some(if b then "1.00" else "0.00")
    case _ => None
  }

  /**
   * The parts of the summary line, read from the "summary" block: the
   * analysed files and time, then the error, warning and information counts
   * that are above zero, and "No issues found" when errors and warnings are
   * both zero. `None` where a count or the time has a type the code cannot
   * compare or format.
   */
  function SummaryParts(block: map<string, Json>, repr: Json -> string): Option<seq<string>> {
    var files := Lookup(block, "filesAnalyzed", JInt(0));
    var errors := Lookup(block, "errorCount", JInt(0));
    var warnings := Lookup(block, "warningCount", JInt(0));
    var infos := Lookup(block, "informationCount", JInt(0));
    var time := if "timeInSec" in block then TwoPlaces(block["timeInSec"]) else Some("0.00");
    if time.None? || Number(errors).None? || Number(warnings).None? || Number(infos).None? then None
    else
      Some(Assemble("Analyzed " + Show(files, repr) + " file(s) in " + time.value + "s",
        Number(errors).value, Number(warnings).value, Number(infos).value,
        Show(errors, repr), Show(warnings, repr), Show(infos, repr)))
  }

  /** The summary parts, given the first one, the three counts and how each count is shown. */
  function Assemble(head: string, e: int, w: int, i: int, eText: string, wText: string, iText: string): (parts: seq<string>)
    ensures |parts| >= 1 && parts[0] == head
    ensures parts[|parts| - 1] == "No issues found" <==> (e == 0 && w == 0) || (head == "No issues found" && e <= 0 && w <= 0 && i <= 0)
  {
    var found, warns, infos := "Found " + eText + " error(s)", wText + " warning(s)", iText + " info(s)";
    assert found[|found| - 1] == ')' && warns[|warns| - 1] == ')' && infos[|infos| - 1] == ')';
    assert "No issues found"[14] == 'd';
    [head]
      + (if e > 0 then [found] else [])
      + (if w > 0 then [warns] else [])
      + (if i > 0 then [infos] else [])
      + (if e == 0 && w == 0 then ["No issues found"] else [])
  }

  // ---------------------------------------------------------------------
  // The whole report

  /** The error `json.loads` failing produces. */
  const InvalidJson := MakeError(ParseError, "Invalid JSON from Pyright", false)
  /** The error `check` makes of any other exception raised while reading the report. */
  const Unreadable := MakeError(ParseError, "Failed to parse Pyright output", false)

  /**
   * `parse_pyright_output` as `check` reports it. `parseJson` is
   * `json.loads`; `repr` shows lists and dicts in the summary line.
   */
  function ParseOutput(stdout: string, parseJson: string -> Option<Json>, repr: Json -> string): (r: Result<DiagnosticsResult, BackendError>)
    ensures parseJson(stdout).None? ==> r == Err(InvalidJson)
    ensures r.Err? ==> r.error.code == ParseError && !r.error.recoverable
    ensures r.Ok? ==> parseJson(stdout).Some? && parseJson(stdout).value.JObj?
  {
    match parseJson(stdout)
    case None => Err(InvalidJson)
    case Some(JObj(data)) =>
      (match Entries(Lookup(data, "generalDiagnostics", JArr([])))
       case None => Err(Unreadable)
       case Some(entries) =>
         match Collect(entries)
         case None => Err(Unreadable)
         case Some(ds) =>
           match Lookup(data, "summary", JObj(map[]))
           case JObj(block) =>
             (match SummaryParts(block, repr)
              case None => Err(Unreadable)
              case Some(parts) =>
                Ok(DiagnosticsResult(ds, Join(parts, ". ") + ".", Lookup(block, "filesAnalyzed", JInt(0)))))
           case _ => Err(Unreadable))
    case Some(_) => Err(Unreadable)
  }

  /**
   * `parse_pyright_output`, with its loop over the diagnostics. `stderr`
   * is only logged and the return code never looked at, so neither
   * changes the outcome.
   */
  method ParsePyrightOutput(stdout: string, stderr: string, returnCode: int,
                            parseJson: string -> Option<Json>, repr: Json -> string)
    returns (r: Result<DiagnosticsResult, BackendError>)
    ensures r == ParseOutput(stdout, parseJson, repr)
  {
    var parsed := parseJson(stdout);
    if parsed.None? {
      return Err(InvalidJson);
    }
    if !parsed.value.JObj? {
      return Err(Unreadable);
    }
    var data := parsed.value.fields;
    var entries := Entries(Lookup(data, "generalDiagnostics", JArr([])));
    if entries.None? {
      return Err(Unreadable);
    }
    var items := entries.value;
    var ds: seq<Diagnostic> := [];
    var i := 0;
    while i < |items|
      invariant 0 <= i <= |items|
      invariant Collect(items[..i]) == Some(ds)
    {
      assert items[..i + 1][..i] == items[..i];
      var step := DecodeDiagnostic(items[i]);
      if step.Crash? {
        CollectStops(items, i + 1);
        return Err(Unreadable);
      }
      if step.Keep? {
        ds := ds + [step.d];
      }
      i := i + 1;
    }
    assert items[..i] == items;
    var block := Lookup(data, "summary", JObj(map[]));
    if !block.JObj? {
      return Err(Unreadable);
    }
    var parts := SummaryParts(block.fields, repr);
    if parts.None? {
      return Err(Unreadable);
    }
    r := Ok(DiagnosticsResult(ds, Join(parts.value, ". ") + ".", Lookup(block.fields, "filesAnalyzed", JInt(0))));
  }

  // ---------------------------------------------------------------------
  // Properties

  /** Once an entry raises, so does the whole loop. */
  lemma {:induction false} CollectStops(entries: seq<Json>, n: nat)
    requires 0 < n <= |entries| && (Collect(entries[..n - 1]).None? || DecodeDiagnostic(entries[n - 1]).Crash?)
    ensures Collect(entries).None?
    decreases |entries| - n
  {
    if n == |entries| {
      assert entries[..n] == entries;
      assert entries[..n][..n - 1] == entries[..n - 1];
    } else {
      assert entries[..n + 1][..n] == entries[..n];
      assert entries[..n][..n - 1] == entries[..n - 1];
      assert Collect(entries[..n]).None?;
      CollectStops(entries, n + 1);
    }
  }

  /** Decoding a concatenation decodes each part: kept diagnostics stay in input order. */
  lemma {:induction false} CollectAppend(a: seq<Json>, b: seq<Json>)
    ensures Collect(a + b) ==
      (if Collect(a).Some? && Collect(b).Some? then Some(Collect(a).value + Collect(b).value) else None)
    decreases |b|
  {
    if b == [] {
      assert a + b == a;
      if Collect(a).Some? {
        assert Collect(a).value + [] == Collect(a).value;
      }
    } else {
      var front, last := b[..|b| - 1], b[|b| - 1];
      assert (a + b)[..|a + b| - 1] == a + front;
      assert (a + b)[|a + b| - 1] == last;
      CollectAppend(a, front);
      if Collect(a).Some? && Collect(front).Some? && DecodeDiagnostic(last).Keep? {
        var x, y, d := Collect(a).value, Collect(front).value, DecodeDiagnostic(last).d;
        assert x + y + [d] == x + (y + [d]);
      }
    }
  }

  /** An entry that decodes keeps exactly its diagnostic, one that is skipped contributes nothing. */
  lemma CollectOne(x: Json)
    ensures DecodeDiagnostic(x).Keep? ==> Collect([x]) == Some([DecodeDiagnostic(x).d])
    ensures DecodeDiagnostic(x).Skip? ==> Collect([x]) == Some([])
    ensures DecodeDiagnostic(x).Crash? <==> Collect([x]).None?
  {
    assert [x][..0] == [];
    if DecodeDiagnostic(x).Keep? {
      assert [] + [DecodeDiagnostic(x).d] == [DecodeDiagnostic(x).d];
    }
  }

  /**
   * Severity 1 to 4 is error, warning, information and hint; a missing
   * severity or any other hashable code is an error; a list or object code
   * makes the entry raise.
   */
  lemma SeverityTable(code: Json)
    ensures code == JInt(1) ==> SeverityOf(code) == Some(Error)
    ensures code == JInt(2) ==> SeverityOf(code) == Some(Warning)
    ensures code == JInt(3) ==> SeverityOf(code) == Some(Information)
    ensures code == JInt(4) ==> SeverityOf(code) == Some(Hint)
    ensures SeverityOf(code).None? <==> code.JArr? || code.JObj?
    ensures (code.JInt? && !(1 <= code.i <= 4)) || code.JStr? || code.JNull? || code.JBool? ==> SeverityOf(code) == Some(Error)
  {
  }

  /** A diagnostic object whose range does not read as an LSP range is skipped, whatever its file. */
  lemma MalformedRangeSkipped(d: map<string, Json>)
    requires SeverityOf(Lookup(d, "severity", JInt(1))).Some?
    requires RangeFromLsp(Lookup(d, "range", JObj(map[]))).Err?
    ensures DecodeDiagnostic(JObj(d)) == Skip
  {
  }

  /** A missing range is read as `{}`, which lacks "start": the diagnostic is skipped. */
  lemma MissingRangeSkipped(d: map<string, Json>)
    requires "range" !in d && "severity" !in d
    ensures DecodeDiagnostic(JObj(d)) == Skip
  {
    assert RangeFromLsp(JObj(map[])) == Err(MissingKey("start"));
  }

  /** Where a part's text ends: the last four characters tell the kinds apart. */
  lemma Endings(x: string, y: string)
    ensures var s := x + " error(s)"; s[|s| - 4] == 'r' && s[|s| - 1] == ')'
    ensures var s := x + " warning(s)"; s[|s| - 4] == 'g' && s[|s| - 1] == ')'
    ensures var s := x + " info(s)"; s[|s| - 4] == 'o' && s[|s| - 1] == ')'
    ensures var s := "Analyzed " + x + " file(s) in " + y + "s"; s[0] == 'A' && s[|s| - 1] == 's'
    ensures var s := "Found " + x; s[0] == 'F'
  {
  }

  /** "No issues found" is among the parts exactly when there are no errors and no warnings. */
  lemma AssembleNoIssues(head: string, e: int, w: int, i: int, eText: string, wText: string, iText: string)
    requires head != [] && head[0] == 'A'
    ensures "No issues found" in Assemble(head, e, w, i, eText, wText, iText) <==> e == 0 && w == 0
  {
    var none := "No issues found";
    assert none[|none| - 1] == 'd' && none[0] == 'N';
    Endings(eText, "");
    Endings(wText, "");
    Endings(iText, "");
  }

  /** The error part is among the parts exactly when the error count is above 0. */
  lemma AssembleFoundErrors(head: string, e: int, w: int, i: int, eText: string, wText: string, iText: string)
    requires head != [] && head[0] == 'A'
    ensures ("Found " + eText + " error(s)") in Assemble(head, e, w, i, eText, wText, iText) <==> e > 0
  {
    var found := "Found " + eText + " error(s)";
    Endings("Found " + eText, "");
    assert found == ("Found " + eText) + " error(s)";
    assert found[0] == 'F';
    var none := "No issues found";
    assert none[|none| - 1] == 'd';
    Endings(wText, "");
    Endings(iText, "");
  }

  /** "No issues found" is in the summary exactly when the block's error and warning counts are both 0. */
  lemma NoIssuesIff(block: map<string, Json>, repr: Json -> string)
    requires SummaryParts(block, repr).Some?
    ensures "No issues found" in SummaryParts(block, repr).value
      <==> Number(Lookup(block, "errorCount", JInt(0))) == Some(0) && Number(Lookup(block, "warningCount", JInt(0))) == Some(0)
  {
    var e, w, i := Lookup(block, "errorCount", JInt(0)), Lookup(block, "warningCount", JInt(0)), Lookup(block, "informationCount", JInt(0));
    var time := if "timeInSec" in block then TwoPlaces(block["timeInSec"]).value else "0.00";
    var head := "Analyzed " + Show(Lookup(block, "filesAnalyzed", JInt(0)), repr) + " file(s) in " + time + "s";
    Endings(Show(Lookup(block, "filesAnalyzed", JInt(0)), repr), time);
    AssembleNoIssues(head, Number(e).value, Number(w).value, Number(i).value, Show(e, repr), Show(w, repr), Show(i, repr));
  }

  /** "Found k error(s)" is in the summary exactly when the block's error count k is above 0. */
  lemma FoundErrorsIff(block: map<string, Json>, repr: Json -> string)
    requires SummaryParts(block, repr).Some?
    ensures var e := Lookup(block, "errorCount", JInt(0));
      ("Found " + Show(e, repr) + " error(s)") in SummaryParts(block, repr).value <==> Number(e).value > 0
  {
    var e, w, i := Lookup(block, "errorCount", JInt(0)), Lookup(block, "warningCount", JInt(0)), Lookup(block, "informationCount", JInt(0));
    var time := if "timeInSec" in block then TwoPlaces(block["timeInSec"]).value else "0.00";
    var head := "Analyzed " + Show(Lookup(block, "filesAnalyzed", JInt(0)), repr) + " file(s) in " + time + "s";
    Endings(Show(Lookup(block, "filesAnalyzed", JInt(0)), repr), time);
    AssembleFoundErrors(head, Number(e).value, Number(w).value, Number(i).value, Show(e, repr), Show(w, repr), Show(i, repr));
  }

  /**
   * The summary is read from the "summary" block alone: two reports with the
   * same block but different diagnostics lists get the same summary line and
   * file count.
   */
  lemma SummaryIgnoresDiagnostics(out1: string, out2: string, parseJson: string -> Option<Json>, repr: Json -> string)
    requires parseJson(out1).Some? && parseJson(out1).value.JObj?
    requires parseJson(out2).Some? && parseJson(out2).value.JObj?
    requires Lookup(parseJson(out1).value.fields, "summary", JObj(map[])) == Lookup(parseJson(out2).value.fields, "summary", JObj(map[]))
    requires ParseOutput(out1, parseJson, repr).Ok? && ParseOutput(out2, parseJson, repr).Ok?
    ensures ParseOutput(out1, parseJson, repr).value.summary == ParseOutput(out2, parseJson, repr).value.summary
    ensures ParseOutput(out1, parseJson, repr).value.filesAnalyzed == ParseOutput(out2, parseJson, repr).value.filesAnalyzed
  {
  }

  /** An accepted report keeps, in order, exactly the diagnostics its entries decode to. */
  lemma DiagnosticsInOrder(stdout: string, parseJson: string -> Option<Json>, repr: Json -> string)
    requires ParseOutput(stdout, parseJson, repr).Ok?
    ensures var data := parseJson(stdout).value.fields;
      var entries := Entries(Lookup(data, "generalDiagnostics", JArr([])));
      entries.Some? && Collect(entries.value) == Some(ParseOutput(stdout, parseJson, repr).value.diagnostics)
  {
  }

  /** The summary of one analysed file with no counts and no time. */
  lemma CleanSummary(repr: Json -> string)
    ensures SummaryParts(map["filesAnalyzed" := JInt(1)], repr)
      == Some(["Analyzed 1 file(s) in 0.00s", "No issues found"])
  {
    var block := map["filesAnalyzed" := JInt(1)];
    assert IntToString(1) == NatToString(1) == [DigitChar(1)] == "1";
    assert Show(JInt(1), repr) == "1";
    assert "errorCount" !in block && "warningCount" !in block && "informationCount" !in block && "timeInSec" !in block;
    assert Lookup(block, "filesAnalyzed", JInt(0)) == JInt(1);
    assert Number(Lookup(block, "errorCount", JInt(0))) == Some(0);
    assert Number(Lookup(block, "warningCount", JInt(0))) == Some(0);
    assert Number(Lookup(block, "informationCount", JInt(0))) == Some(0);
    var head := "Analyzed " + Show(JInt(1), repr) + " file(s) in " + "0.00" + "s";
    assert SummaryParts(block, repr) == Some([head] + [] + [] + [] + ["No issues found"]);
    assert head == "Analyzed 1 file(s) in 0.00s";
    assert [head] + [] + [] + [] + ["No issues found"] == ["Analyzed 1 file(s) in 0.00s", "No issues found"];
  }

  /** A report whose pieces all decode yields its diagnostics and its joined summary. */
  lemma ParseOutputOk(stdout: string, parseJson: string -> Option<Json>, repr: Json -> string,
                      data: map<string, Json>, entries: seq<Json>, ds: seq<Diagnostic>,
                      block: map<string, Json>, parts: seq<string>)
    requires parseJson(stdout) == Some(JObj(data))
    requires Entries(Lookup(data, "generalDiagnostics", JArr([]))) == Some(entries)
    requires Collect(entries) == Some(ds)
    requires Lookup(data, "summary", JObj(map[])) == JObj(block)
    requires SummaryParts(block, repr) == Some(parts)
    ensures ParseOutput(stdout, parseJson, repr)
      == Ok(DiagnosticsResult(ds, Join(parts, ". ") + ".", Lookup(block, "filesAnalyzed", JInt(0))))
  {
  }

  /** A report with no "generalDiagnostics" key and a clean summary: no diagnostics, "No issues found". */
  lemma EmptyReport(stdout: string, parseJson: string -> Option<Json>, repr: Json -> string)
    requires parseJson(stdout) == Some(JObj(map["summary" := JObj(map["filesAnalyzed" := JInt(1)])]))
    ensures ParseOutput(stdout, parseJson, repr)
      == Ok(DiagnosticsResult([], Join(["Analyzed 1 file(s) in 0.00s", "No issues found"], ". ") + ".", JInt(1)))
  {
    var block := map["filesAnalyzed" := JInt(1)];
    var data := map["summary" := JObj(block)];
    var parts := ["Analyzed 1 file(s) in 0.00s", "No issues found"];
    assert Entries(Lookup(data, "generalDiagnostics", JArr([]))) == Some([]) by {
      assert "generalDiagnostics" !in data;
    }
    assert Collect([]) == Some([]);
    assert Lookup(data, "summary", JObj(map[])) == JObj(block);
    assert Lookup(block, "filesAnalyzed", JInt(0)) == JInt(1);
    CleanSummary(repr);
    ParseOutputOk(stdout, parseJson, repr, data, [], [], block, parts);
  }
}
