/**
 * Positions and ranges, 0-indexed inside the server as in the Language Server
 * Protocol, shown 1-indexed to people (`utils/position.py`).
 */
module Positions {
  import opened Wrappers
  import opened Json
  import opened Strings

  datatype Position = Position(line: int, column: int)

  datatype Range = Range(start: Position, end: Position)

  /**
   * Why reading an LSP dict failed: subscripting something that is not a dict
   * (Python's TypeError), a missing key (KeyError), or a coordinate that is
   * not an integer.
   */
  datatype ShapeError = NotADict | MissingKey(key: string) | NotAnInteger(key: string)

  /** `Position.to_display`: "line:column", both shifted to 1-indexed. */
  function PositionToDisplay(p: Position): string {
    IntToString(p.line + 1) + ":" + IntToString(p.column + 1)
  }

  /** `Range.to_display`: the two ends' displays joined by "-". */
  function RangeToDisplay(r: Range): string {
    PositionToDisplay(r.start) + "-" + PositionToDisplay(r.end)
  }

  /** `Position.to_lsp`. */
  function PositionToLsp(p: Position): (j: Json)
    ensures j.JObj? && j.fields.Keys == {"line", "character"}
    ensures j.fields["line"] == JInt(p.line) && j.fields["character"] == JInt(p.column)
  {
    JObj(map["line" := JInt(p.line), "character" := JInt(p.column)])
  }

  /** Reads `d[key]` as an integer coordinate. */
  function Coordinate(d: map<string, Json>, key: string): (r: Result<int, ShapeError>)
    ensures r.Ok? <==> key in d && d[key].JInt?
    ensures r.Ok? ==> d[key] == JInt(r.value)
    ensures key !in d ==> r == Err(MissingKey(key))
  {
    if key !in d then Err(MissingKey(key))
    else match d[key]
      case JInt(i) => Ok(i)
      case _ => Err(NotAnInteger(key))
  }

  /** `Position.from_lsp`: the "line" and "character" of an LSP position dict. */
  function PositionFromLsp(j: Json): (r: Result<Position, ShapeError>)
    ensures r.Ok? <==> j.JObj? && Coordinate(j.fields, "line").Ok? && Coordinate(j.fields, "character").Ok?
    ensures !j.JObj? ==> r == Err(NotADict)
  {
    match j
    case JObj(d) =>
      (match Coordinate(d, "line")
       case Err(e) => Err(e)
       case Ok(line) =>
         match Coordinate(d, "character")
         case Err(e) => Err(e)
         case Ok(col) => Ok(Position(line, col)))
    case _ => Err(NotADict)
  }

  /** `Range.to_lsp`. */
  function RangeToLsp(r: Range): (j: Json)
    ensures j.JObj? && j.fields.Keys == {"start", "end"}
    ensures j.fields["start"] == PositionToLsp(r.start) && j.fields["end"] == PositionToLsp(r.end)
  {
    JObj(map["start" := PositionToLsp(r.start), "end" := PositionToLsp(r.end)])
  }

  /** `Range.from_lsp`: "start" is read (and checked) before "end". */
  function RangeFromLsp(j: Json): (r: Result<Range, ShapeError>)
    ensures r.Ok? <==> j.JObj? && "start" in j.fields && "end" in j.fields
                       && PositionFromLsp(j.fields["start"]).Ok? && PositionFromLsp(j.fields["end"]).Ok?
    ensures !j.JObj? ==> r == Err(NotADict)
  {
    match j
    case JObj(d) =>
      if "start" !in d then Err(MissingKey("start"))
      else
        (match PositionFromLsp(d["start"])
         case Err(e) => Err(e)
         case Ok(s) =>
           if "end" !in d then Err(MissingKey("end"))
           else
             match PositionFromLsp(d["end"])
             case Err(e) => Err(e)
             case Ok(e) => Ok(Range(s, e)))
    case _ => Err(NotADict)
  }

  // ---------------------------------------------------------------------
  // Round trips

  /** `Position.from_lsp(p.to_lsp()) == p`. */
  lemma PositionLspRoundTrip(p: Position)
    ensures PositionFromLsp(PositionToLsp(p)) == Ok(p)
  {
  }

  /** A dict `from_lsp` accepts, holding only "line" and "character", comes back from `to_lsp`. */
  lemma PositionDictRoundTrip(j: Json)
    requires PositionFromLsp(j).Ok?
    requires j.fields.Keys == {"line", "character"}
    ensures PositionToLsp(PositionFromLsp(j).value) == j
  {
    var d := j.fields;
    var d2 := PositionToLsp(PositionFromLsp(j).value).fields;
    assert d2.Keys == d.Keys;
    assert forall k | k in d :: d2[k] == d[k];
  }

  /** `Range.from_lsp(r.to_lsp()) == r`. */
  lemma RangeLspRoundTrip(r: Range)
    ensures RangeFromLsp(RangeToLsp(r)) == Ok(r)
  {
    PositionLspRoundTrip(r.start);
    PositionLspRoundTrip(r.end);
  }

  /** A range dict `from_lsp` accepts, with no extra keys at either level, comes back from `to_lsp`. */
  lemma RangeDictRoundTrip(j: Json)
    requires RangeFromLsp(j).Ok?
    requires j.fields.Keys == {"start", "end"}
    requires j.fields["start"].fields.Keys == {"line", "character"}
    requires j.fields["end"].fields.Keys == {"line", "character"}
    ensures RangeToLsp(RangeFromLsp(j).value) == j
  {
    PositionDictRoundTrip(j.fields["start"]);
    PositionDictRoundTrip(j.fields["end"]);
    var d := j.fields;
    var d2 := RangeToLsp(RangeFromLsp(j).value).fields;
    assert d2.Keys == d.Keys;
    assert forall k | k in d :: d2[k] == d[k];
  }

  /**
   * The display of a position with non-negative coordinates reads back: it
   * splits on ":" into two decimal numbers, the coordinates plus one.
   */
  lemma PositionDisplayReadsBack(p: Position)
    requires p.line >= 0 && p.column >= 0
    ensures var fields := Split(PositionToDisplay(p), ':');
      |fields| == 2 && PyInt(fields[0]) == Some(p.line + 1) && PyInt(fields[1]) == Some(p.column + 1)
  {
    var a := NatToString(p.line + 1);
    var b := NatToString(p.column + 1);
    DisplayFields(p, a, b);
    PyIntOfNatToString(p.line + 1);
    PyIntOfNatToString(p.column + 1);
  }

  lemma DisplayFields(p: Position, a: string, b: string)
    requires p.line >= 0 && p.column >= 0
    requires a == NatToString(p.line + 1) && b == NatToString(p.column + 1)
    ensures Split(PositionToDisplay(p), ':') == [a, b]
  {
    NoColonInDigits(a);
    NoColonInDigits(b);
    assert PositionToDisplay(p) == a + [':'] + b;
    SplitAtFirst(a, b, ':');
    assert Split(b, ':') == [b];
  }

  /**
   * The display of a range with non-negative coordinates splits on "-" into
   * the displays of its two ends.
   */
  lemma RangeDisplayReadsBack(r: Range)
    requires r.start.line >= 0 && r.start.column >= 0
    requires r.end.line >= 0 && r.end.column >= 0
    ensures Split(RangeToDisplay(r), '-') == [PositionToDisplay(r.start), PositionToDisplay(r.end)]
  {
    var a := PositionToDisplay(r.start);
    var b := PositionToDisplay(r.end);
    NoDashInDisplay(r.start);
    NoDashInDisplay(r.end);
    SplitAtFirst(a, b, '-');
    assert Split(b, '-') == [b];
  }

  /** The display of the first position of a file, as the server's docstring shows. */
  lemma OriginDisplay()
    ensures PositionToDisplay(Position(0, 0)) == "1:1"
    ensures RangeToDisplay(Range(Position(0, 0), Position(0, 5))) == "1:1-1:6"
  {
  }

  // ---------------------------------------------------------------------
  // Helpers

  lemma NoColonInDigits(s: string)
    requires AllDigits(s)
    ensures ':' !in s && '-' !in s
  {
    forall i | 0 <= i < |s| ensures s[i] != ':' && s[i] != '-' {
      assert IsDigit(s[i]);
    }
  }

  lemma NoDashInDisplay(p: Position)
    requires p.line >= 0 && p.column >= 0
    ensures '-' !in PositionToDisplay(p)
  {
    var a := NatToString(p.line + 1);
    var b := NatToString(p.column + 1);
    NoColonInDigits(a);
    NoColonInDigits(b);
    var s := a + ":" + b;
    assert PositionToDisplay(p) == s;
    forall i | 0 <= i < |s| ensures s[i] != '-' {
      if i < |a| { assert s[i] == a[i]; }
      else if i > |a| { assert s[i] == b[i - |a| - 1]; }
    }
  }

  /** Splitting `a + [c] + b` on `c`, when `a` has no `c`, gives `a` first. */
  lemma SplitAtFirst(a: string, b: string, c: char)
    requires c !in a
    ensures Split(a + [c] + b, c) == [a] + Split(b, c)
  {
    var s := a + [c] + b;
    assert s[|a|] == c;
    assert forall j :: 0 <= j < |a| ==> s[j] == a[j];
    var i := IndexOf(s, c);
    assert i == |a|;
    assert s[..i] == a;
    assert s[i + 1..] == b;
  }
}
