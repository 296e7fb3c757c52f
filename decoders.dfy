/**
 * How the LSP client reads the `result` of hover, definition and completion
 * responses into the backend's result types (`backends/lsp_client.py`).
 *
 * A decoder that the client lets raise returns `Err`; a decoder whose
 * exceptions the client catches (a location, a completion item) returns
 * `None` for anything it cannot read. A value of the wrong JSON type in a
 * string field reads as absent (the client would carry it along untyped).
 */
module Decoders {
  import opened Wrappers
  import opened Json
  import opened Strings
  import opened Positions
  import opened PosixPath
  import opened Uri
  import opened Base

  /** Why a response could not be read at all. */
  datatype DecodeError =
    | NotAnObject             // `.get` on something that is not a dict
    | BadRange(e: ShapeError) // `Range.from_lsp` failed
    | NotIterable             // `for item in items` over null, a number or a boolean

  // ---------------------------------------------------------------------
  // Hover

  /** The strings of a MarkedString array: plain strings, and the "value" of dicts; other items are skipped. */
  function HoverParts(items: seq<Json>): (parts: seq<string>)
    ensures |parts| <= |items|
    decreases |items|
  {
    if items == [] then []
    else
      var head := match items[0]
        case JStr(s) => [s]
        case JObj(d) => [match Text(Get(d, "value")) case Some(v) => v case None => ""]
        case _ => [];
      head + HoverParts(items[1..])
  }

  /** The type information and documentation carried by hover `contents`. */
  function HoverContents(contents: Json): (r: (Option<string>, Option<string>))
    ensures r.1.Some? ==> r.0.Some?
    ensures contents.JStr? ==> r == (Some(contents.s), None)
  {
    match contents
    case JStr(s) => (Some(s), None)
    case JObj(d) =>
      (match Text(Get(d, "value"))
       case Some(v) => if v != "" then (Some(v), None) else (None, None)
       case None => (None, None))
    case JArr(items) =>
      var parts := HoverParts(items);
      if parts == [] then (None, None)
      else (Some(parts[0]), if |parts| > 1 then Some(Join(parts[1..], "\n")) else None)
    case _ => (None, None)
  }

  /** `_parse_hover_response`. */
  function ParseHover(result: Json): (r: Result<HoverResult, DecodeError>)
    ensures result.JNull? ==> r == Ok(HoverResult(None, None, None))
    ensures !result.JNull? && !result.JObj? ==> r == Err(NotAnObject)
    ensures r.Ok? <==> (result.JNull? || (result.JObj? &&
      (Truthy(GetOrNull(result.fields, "range")) ==> RangeFromLsp(result.fields["range"]).Ok?)))
    ensures r.Ok? ==> (r.value.documentation.Some? ==> r.value.typeInfo.Some?)
    ensures r.Ok? && result.JObj? ==>
      (r.value.range.Some? <==> Truthy(GetOrNull(result.fields, "range")))
  {
    match result
    case JNull => Ok(HoverResult(None, None, None))
    case JObj(d) =>
      var (typeInfo, documentation) := HoverContents(GetOrNull(d, "contents"));
      var rangeData := GetOrNull(d, "range");
      if !Truthy(rangeData) then Ok(HoverResult(typeInfo, documentation, None))
      else
        (match RangeFromLsp(rangeData)
         case Err(e) => Err(BadRange(e))
         case Ok(rg) => Ok(HoverResult(typeInfo, documentation, Some(rg))))
    case _ => Err(NotAnObject)
  }

  /** A hover result as a server sends it: MarkupContent and a range. */
  function MarkupHover(kind: string, value: string, rg: Range): Json {
    JObj(map[
      "contents" := JObj(map["kind" := JStr(kind), "value" := JStr(value)]),
      "range" := RangeToLsp(rg)])
  }

  /** A MarkupContent hover decodes to its text and its range. */
  lemma MarkupHoverDecodes(kind: string, value: string, rg: Range)
    requires value != ""
    ensures ParseHover(MarkupHover(kind, value, rg)) == Ok(HoverResult(Some(value), None, Some(rg)))
  {
    var j := MarkupHover(kind, value, rg);
    RangeLspRoundTrip(rg);
    assert j.fields["range"] == RangeToLsp(rg);
    assert Truthy(RangeToLsp(rg)) by { assert "start" in RangeToLsp(rg).fields; }
    assert HoverContents(j.fields["contents"]) == (Some(value), None);
  }

  /** The MarkedString strings of an array of plain strings are those strings. */
  lemma {:induction false} HoverPartsOfStrings(ss: seq<string>)
    ensures HoverParts(seq(|ss|, i requires 0 <= i < |ss| => JStr(ss[i]))) == ss
    decreases |ss|
  {
    var items := seq(|ss|, i requires 0 <= i < |ss| => JStr(ss[i]));
    if ss != [] {
      HoverPartsOfStrings(ss[1..]);
      assert items[1..] == seq(|ss[1..]|, i requires 0 <= i < |ss[1..]| => JStr(ss[1..][i]));
      assert ss == [ss[0]] + ss[1..];
    }
  }

  /**
   * An array of plain MarkedStrings: the first is the type information and
   * the others, joined by newlines, the documentation.
   */
  lemma MarkedStringsDecode(ss: seq<string>)
    requires |ss| >= 2
    ensures var contents := JArr(seq(|ss|, i requires 0 <= i < |ss| => JStr(ss[i])));
      ParseHover(JObj(map["contents" := contents])) == Ok(HoverResult(Some(ss[0]), Some(Join(ss[1..], "\n")), None))
  {
    HoverPartsOfStrings(ss);
  }

  // ---------------------------------------------------------------------
  // Locations

  /** A coordinate of a range start: absent reads as 0. */
  function CoordinateOr0(d: map<string, Json>, key: string): (r: Option<int>)
    ensures key !in d ==> r == Some(0)
    ensures key in d && d[key].JInt? ==> r == Some(d[key].i)
  {
    if key !in d then Some(0)
    else match d[key]
      case JInt(i) => Some(i)
      case _ => None
  }

  /** The start of the range data of a location; the file's origin when there is none. */
  function StartPosition(rangeData: Json): (r: Option<Position>)
    ensures !Truthy(rangeData) ==> r == Some(Position(0, 0))
    ensures Truthy(rangeData) && !rangeData.JObj? ==> r == None
  {
    if !Truthy(rangeData) then Some(Position(0, 0))
    else match rangeData
      case JObj(d) =>
        (match if "start" in d then d["start"] else JObj(map[])
         case JObj(s) =>
           (match CoordinateOr0(s, "line")
            case None => None
            case Some(line) =>
              match CoordinateOr0(s, "character")
              case None => None
              case Some(col) => Some(Position(line, col)))
         case _ => None)
      case _ => None
  }

  /** The location named by a URI and range data; none when the URI is not a file URI. */
  function LocationAt(uri: Json, rangeData: Json): (r: Option<Location>)
    ensures r.Some? ==> uri.JStr? && UriToPath(uri.s) == Ok(r.value.file)
    ensures r.Some? ==> StartPosition(rangeData) == Some(r.value.position)
  {
    match uri
    case JStr(u) =>
      (match UriToPath(u)
       case Err(_) => None
       case Ok(file) =>
         match StartPosition(rangeData)
         case None => None
         case Some(pos) => Some(Location(file, pos)))
    case _ => None
  }

  /**
   * `_parse_location`: a LocationLink (with "targetUri", positioned at its
   * selection range when that is given, else at its target range) or a
   * Location (with "uri" and "range"); none for anything else.
   */
  function ParseLocation(loc: Json): (r: Option<Location>)
    ensures r.Some? ==> loc.JObj? && ("targetUri" in loc.fields || "uri" in loc.fields)
  {
    match loc
    case JObj(d) =>
      if "targetUri" in d then
        LocationAt(d["targetUri"], LinkRange(d))
      else if "uri" in d then LocationAt(d["uri"], GetOrNull(d, "range"))
      else None
    case _ => None
  }

  /** The range a LocationLink is placed at: its selection range when that is given, else its target range. */
  function LinkRange(d: map<string, Json>): Json {
    var selection := GetOrNull(d, "targetSelectionRange");
    if Truthy(selection) then selection else GetOrNull(d, "targetRange")
  }

  /** The locations of the items that can be read, in order. */
  function ParseLocations(items: seq<Json>): (r: seq<Location>)
    ensures |r| <= |items|
    decreases |items|
  {
    if items == [] then []
    else
      var head := match ParseLocation(items[0]) case Some(l) => [l] case None => [];
      head + ParseLocations(items[1..])
  }

  /** `_parse_definition_response`: a single Location, or an array of Locations and LocationLinks. */
  function ParseDefinition(result: Json): (r: seq<Location>)
    ensures result.JArr? ==> r == ParseLocations(result.items)
    ensures result.JObj? && "uri" in result.fields ==> |r| <= 1
    ensures !result.JArr? && !(result.JObj? && "uri" in result.fields) ==> r == []
  {
    match result
    case JObj(d) =>
      if "uri" in d then
        (match ParseLocation(result) case Some(l) => [l] case None => [])
      else []
    case JArr(items) => ParseLocations(items)
    case _ => []
  }

  /** A location as a server sends it: its file URI and an empty range at its position. */
  function LocationToLsp(fs: FileSystem, l: Location): Json {
    JObj(map[
      "uri" := JStr(PathToUri(fs, l.file)),
      "range" := RangeToLsp(Range(l.position, l.position))])
  }

  /** A Location a server sends reads back as the resolved file at the same position. */
  lemma LocationDecodes(fs: FileSystem, l: Location)
    requires IsAbsolute(fs.resolve(l.file)) && Valid(fs.resolve(l.file))
    ensures ParseLocation(LocationToLsp(fs, l)) == Some(Location(fs.resolve(l.file), l.position))
  {
    var u := PathToUri(fs, l.file);
    var rangeData := RangeToLsp(Range(l.position, l.position));
    UriRoundTrip(fs, l.file);
    StartOfRange(Range(l.position, l.position));
    LocationOfUri(LocationToLsp(fs, l), u, rangeData);
    LocationAtFile(u, rangeData, fs.resolve(l.file), l.position);
  }

  /** A LocationLink is placed at the start of its selection range, not of its full target range. */
  lemma LinkUsesSelection(fs: FileSystem, file: Path, target: Range, selection: Range)
    requires IsAbsolute(fs.resolve(file)) && Valid(fs.resolve(file))
    ensures ParseLocation(LinkToLsp(fs, file, target, selection)) == Some(Location(fs.resolve(file), selection.start))
  {
    var u := PathToUri(fs, file);
    var sel := RangeToLsp(selection);
    var link := LinkToLsp(fs, file, target, selection);
    assert link.fields["targetUri"] == JStr(u);
    assert link.fields["targetSelectionRange"] == sel;
    UriRoundTrip(fs, file);
    StartOfRange(selection);
    assert "start" in sel.fields;
    LinkOfUri(link, u, sel);
    LocationAtFile(u, sel, fs.resolve(file), selection.start);
  }

  /** A LocationLink as a server sends it. */
  function LinkToLsp(fs: FileSystem, file: Path, target: Range, selection: Range): Json {
    JObj(map[
      "targetUri" := JStr(PathToUri(fs, file)),
      "targetRange" := RangeToLsp(target),
      "targetSelectionRange" := RangeToLsp(selection)])
  }

  /** A range the server sends starts where the range does. */
  lemma StartOfRange(rg: Range)
    ensures StartPosition(RangeToLsp(rg)) == Some(rg.start)
  {
    assert "start" in RangeToLsp(rg).fields;
  }

  lemma LocationOfUri(loc: Json, u: string, rangeData: Json)
    requires loc == JObj(map["uri" := JStr(u), "range" := rangeData])
    ensures ParseLocation(loc) == LocationAt(JStr(u), rangeData)
  {
    assert "targetUri" !in loc.fields;
  }

  lemma LinkOfUri(link: Json, u: string, selection: Json)
    requires link.JObj? && "targetUri" in link.fields && link.fields["targetUri"] == JStr(u)
    requires "targetSelectionRange" in link.fields && link.fields["targetSelectionRange"] == selection
    requires selection.JObj? && "start" in selection.fields
    ensures ParseLocation(link) == LocationAt(JStr(u), selection)
  {
    assert Truthy(selection);
    assert LinkRange(link.fields) == selection;
  }

  lemma LocationAtFile(u: string, rangeData: Json, file: Path, pos: Position)
    requires UriToPath(u) == Ok(file) && StartPosition(rangeData) == Some(pos)
    ensures LocationAt(JStr(u), rangeData) == Some(Location(file, pos))
  {
  }

  /** The location a client reports for `l`: its file resolved, its position kept. */
  function Resolved(fs: FileSystem, l: Location): Location {
    Location(fs.resolve(l.file), l.position)
  }

  /** An array of Locations reads back as the resolved locations, in order. */
  lemma DefinitionsDecode(fs: FileSystem, ls: seq<Location>, items: seq<Json>)
    requires |items| == |ls|
    requires forall i :: 0 <= i < |ls| ==> items[i] == LocationToLsp(fs, ls[i])
    requires forall i :: 0 <= i < |ls| ==> IsAbsolute(fs.resolve(ls[i].file)) && Valid(fs.resolve(ls[i].file))
    ensures var r := ParseDefinition(JArr(items));
      |r| == |ls| && forall i :: 0 <= i < |ls| ==> r[i] == Location(fs.resolve(ls[i].file), ls[i].position)
  {
    forall i | 0 <= i < |ls| ensures ParseLocation(items[i]) == Some(Resolved(fs, ls[i])) {
      LocationDecodes(fs, ls[i]);
    }
    ReadBackEach(fs, ls, items);
    LocationsDecode(fs, ls, items);
  }

  /** Each of `items` reads back as the resolved location at the same place in `ls`. */
  predicate ReadBack(fs: FileSystem, ls: seq<Location>, items: seq<Json>)
    decreases |ls|
  {
    |items| == |ls| &&
    (ls != [] ==> ParseLocation(items[0]) == Some(Resolved(fs, ls[0])) && ReadBack(fs, ls[1..], items[1..]))
  }

  /** The resolved locations of `ls`, in order. */
  function ResolvedAll(fs: FileSystem, ls: seq<Location>): (r: seq<Location>)
    ensures |r| == |ls| && forall i :: 0 <= i < |ls| ==> r[i] == Resolved(fs, ls[i])
  {
    seq(|ls|, i requires 0 <= i < |ls| => Resolved(fs, ls[i]))
  }

  lemma {:induction false} ReadBackEach(fs: FileSystem, ls: seq<Location>, items: seq<Json>)
    requires |items| == |ls|
    requires forall i :: 0 <= i < |ls| ==> ParseLocation(items[i]) == Some(Resolved(fs, ls[i]))
    ensures ReadBack(fs, ls, items)
    decreases |ls|
  {
    if ls != [] {
      ReadBackEach(fs, ls[1..], items[1..]);
    }
  }

  /** Items that each read back as a location read back as those locations, in order. */
  lemma {:induction false} LocationsDecode(fs: FileSystem, ls: seq<Location>, items: seq<Json>)
    requires ReadBack(fs, ls, items)
    ensures ParseLocations(items) == ResolvedAll(fs, ls)
    decreases |ls|
  {
    if ls != [] {
      LocationsDecode(fs, ls[1..], items[1..]);
      ParseLocationsCons(items, Resolved(fs, ls[0]));
      ResolvedAllCons(fs, ls);
    }
  }

  lemma ResolvedAllCons(fs: FileSystem, ls: seq<Location>)
    requires ls != []
    ensures ResolvedAll(fs, ls) == [Resolved(fs, ls[0])] + ResolvedAll(fs, ls[1..])
  {
    assert ResolvedAll(fs, ls) == [Resolved(fs, ls[0])] + ResolvedAll(fs, ls[1..]);
  }

  lemma ParseLocationsCons(items: seq<Json>, l: Location)
    requires items != [] && ParseLocation(items[0]) == Some(l)
    ensures ParseLocations(items) == [l] + ParseLocations(items[1..])
  {
  }

  // ---------------------------------------------------------------------
  // Completions

  /** The names of LSP's CompletionItemKind values 1 to 25, in order. */
  const KindNames: seq<string> := [
    "text", "method", "function", "constructor", "field", "variable", "class",
    "interface", "module", "property", "unit", "value", "enum", "keyword",
    "snippet", "color", "file", "reference", "folder", "enum_member",
    "constant", "struct", "event", "operator", "type_parameter"]

  /**
   * The name of a completion kind: its entry in the table, "text" for a
   * missing or unknown kind (a boolean looks up 1 or 0, both "text"), none
   * when the kind is a list or dict, which cannot be looked up.
   */
  function KindName(kind: Json): (r: Option<string>)
    ensures r.None? <==> kind.JArr? || kind.JObj?
    ensures kind.JInt? && 1 <= kind.i <= |KindNames| ==> r == Some(KindNames[kind.i - 1])
    ensures r.Some? && !(kind.JInt? && 1 <= kind.i <= |KindNames|) ==> r == Some("text")
  {
    match kind
    case JInt(k) => if 1 <= k <= |KindNames| then Some(KindNames[k - 1]) else Some("text")
    case JArr(_) => None
    case JObj(_) => None
    case _ => Some("text")
  }

  /** The documentation of an item: a string, or the "value" of a MarkupContent dict ("" when it has none). */
  function DocText(doc: Json): (r: Option<string>)
    ensures doc.JStr? ==> r == Some(doc.s)
    ensures doc.JObj? && "value" !in doc.fields ==> r == Some("")
  {
    match doc
    case JStr(s) => Some(s)
    case JObj(m) => if "value" in m then Text(Some(m["value"])) else Some("")
    case _ => None
  }

  /** The text to insert: "insertText" when it is non-empty, otherwise the "newText" of a "textEdit" dict. */
  function InsertText(d: map<string, Json>): (r: Option<string>)
    ensures Truthy(GetOrNull(d, "insertText")) ==> r == Text(Get(d, "insertText"))
  {
    var it := GetOrNull(d, "insertText");
    if Truthy(it) then Text(Some(it))
    else match GetOrNull(d, "textEdit")
      case JObj(te) => Text(Get(te, "newText"))
      case _ => if it == JStr("") then Some("") else None
  }

  /** `_parse_completion_item`: none unless the item is a dict with a non-empty label and a kind that can be looked up. */
  function ParseCompletionItem(item: Json): (r: Option<CompletionItem>)
    ensures r.Some? <==> item.JObj? && Text(Get(item.fields, "label")).Some? && item.fields["label"].s != ""
                         && KindName(GetOrNull(item.fields, "kind")).Some?
    ensures r.Some? ==> r.value.labelText == item.fields["label"].s
                        && Some(r.value.kind) == KindName(GetOrNull(item.fields, "kind"))
  {
    match item
    case JObj(d) =>
      (match Text(Get(d, "label"))
       case None => None
       case Some(labelText) =>
         if labelText == "" then None
         else
           match KindName(GetOrNull(d, "kind"))
           case None => None
           case Some(kind) =>
             Some(CompletionItem(labelText, kind, Text(Get(d, "detail")), DocText(GetOrNull(d, "documentation")), InsertText(d))))
    case _ => None
  }

  /** The completion items that can be read, in order. */
  function ParseCompletionItems(items: seq<Json>): (r: seq<CompletionItem>)
    ensures |r| <= |items|
    ensures forall i :: 0 <= i < |r| ==> r[i].labelText != ""
    decreases |items|
  {
    if items == [] then []
    else
      var head := match ParseCompletionItem(items[0]) case Some(c) => [c] case None => [];
      head + ParseCompletionItems(items[1..])
  }

  /**
   * `_parse_completion_response`: the items and the "isIncomplete" flag of a
   * CompletionList, or the items of a bare array; iterating a dict or a
   * string yields only strings, which are not items.
   */
  function ParseCompletion(result: Json): (r: Result<(seq<CompletionItem>, Json), DecodeError>)
    ensures result.JArr? ==> r == Ok((ParseCompletionItems(result.items), JBool(false)))
    ensures r.Err? <==> result.JObj? && "items" in result.fields
                        && (result.fields["items"].JNull? || result.fields["items"].JInt? || result.fields["items"].JBool?)
    ensures !result.JArr? && !(result.JObj? && "items" in result.fields) ==> r == Ok(([], JBool(false)))
  {
    match result
    case JObj(d) =>
      if "items" in d then
        var incomplete := if "isIncomplete" in d then d["isIncomplete"] else JBool(false);
        match d["items"]
        case JArr(items) => Ok((ParseCompletionItems(items), incomplete))
        case JObj(_) => Ok(([], incomplete))
        case JStr(_) => Ok(([], incomplete))
        case _ => Err(NotIterable)
      else Ok(([], JBool(false)))
    case JArr(items) => Ok((ParseCompletionItems(items), JBool(false)))
    case _ => Ok(([], JBool(false)))
  }

  /** A completion item as a server sends it, with kind number `k`. */
  function ItemToLsp(item: CompletionItem, k: int): Json {
    JObj(map[
      "label" := JStr(item.labelText),
      "kind" := JInt(k),
      "detail" := OptStr(item.detail),
      "documentation" := OptStr(item.documentation),
      "insertText" := OptStr(item.insertText)])
  }

  /** An item with a label and a kind from the table reads back unchanged. */
  lemma ItemDecodes(item: CompletionItem, k: int)
    requires item.labelText != ""
    requires 1 <= k <= |KindNames| && item.kind == KindNames[k - 1]
    ensures ParseCompletionItem(ItemToLsp(item, k)) == Some(item)
  {
    var d := ItemToLsp(item, k).fields;
    ItemFields(item, k);
    assert InsertText(d) == item.insertText by {
      InsertTextOf(d, item.insertText);
    }
  }

  /** What each key of an item's dict holds. */
  lemma ItemFields(item: CompletionItem, k: int)
    ensures var d := ItemToLsp(item, k).fields;
      Get(d, "label") == Some(JStr(item.labelText)) && GetOrNull(d, "kind") == JInt(k)
      && Text(Get(d, "detail")) == item.detail && DocText(GetOrNull(d, "documentation")) == item.documentation
      && GetOrNull(d, "insertText") == OptStr(item.insertText) && "textEdit" !in d
  {
  }

  /** A dict without "textEdit" gives back the text it holds under "insertText". */
  lemma InsertTextOf(d: map<string, Json>, o: Option<string>)
    requires GetOrNull(d, "insertText") == OptStr(o) && "textEdit" !in d
    ensures InsertText(d) == o
  {
  }

  /** An item whose "insertText" is empty takes the text of its edit. */
  lemma TextEditFallback(labelText: string, newText: string)
    requires labelText != ""
    ensures var item := JObj(map[
        "label" := JStr(labelText),
        "insertText" := JStr(""),
        "textEdit" := JObj(map["newText" := JStr(newText)])]);
      ParseCompletionItem(item) == Some(CompletionItem(labelText, "text", None, None, Some(newText)))
  {
  }

  /** Items that each read back unchanged read back unchanged and in order. */
  lemma {:induction false} ItemsDecode(items: seq<CompletionItem>, js: seq<Json>)
    requires |js| == |items|
    requires forall i :: 0 <= i < |items| ==> ParseCompletionItem(js[i]) == Some(items[i])
    ensures ParseCompletionItems(js) == items
    decreases |items|
  {
    if items != [] {
      ItemsDecode(items[1..], js[1..]);
      assert items == [items[0]] + items[1..];
    }
  }

  /** A CompletionList reads back as its items and its incompleteness flag. */
  lemma CompletionListDecodes(items: seq<CompletionItem>, ks: seq<int>, incomplete: bool)
    requires |ks| == |items|
    requires forall i :: 0 <= i < |items| ==> items[i].labelText != ""
    requires forall i :: 0 <= i < |items| ==> 1 <= ks[i] <= |KindNames| && items[i].kind == KindNames[ks[i] - 1]
    ensures var js := seq(|items|, i requires 0 <= i < |items| => ItemToLsp(items[i], ks[i]));
      ParseCompletion(JObj(map["items" := JArr(js), "isIncomplete" := JBool(incomplete)])) == Ok((items, JBool(incomplete)))
  {
    var js := seq(|items|, i requires 0 <= i < |items| => ItemToLsp(items[i], ks[i]));
    forall i | 0 <= i < |items| ensures ParseCompletionItem(js[i]) == Some(items[i]) {
      ItemDecodes(items[i], ks[i]);
    }
    ItemsDecode(items, js);
  }
}
