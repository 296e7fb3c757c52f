/**
 * The JSON-RPC 2.0 messages the client writes to the language server
 * (`backends/lsp_client.py`, `_send_request` and `send_notification`), with
 * the parameter objects its callers build (`_start_and_initialize`, `hover`,
 * `definition`, `complete`, and `backends/document_manager.py`).
 *
 * A message is kept as data; `Wire` is the JSON object written for it, and
 * the functions below it state what each object holds.
 */
module Messages {
  import opened Wrappers
  import opened Json
  import opened PosixPath
  import opened Positions
  import opened Uri

  /** The parameter objects the client builds. */
  datatype Params =
    | InitializeParams(pid: int, root: Path, rootUri: string)
    | PositionParams(uri: string, line: int, character: int)
    | CompletionParams(uri: string, line: int, character: int, trigger: Option<string>)
    | DidOpenParams(uri: string, text: string)
    | DidCloseParams(uri: string)
    | EmptyParams

  /** A request carries an id and expects a response; a notification does not. */
  datatype Message =
    | Request(id: int, name: string, params: Option<Params>)
    | Notification(name: string, params: Option<Params>)

  // ---------------------------------------------------------------------
  // The objects written

  /** The members every message has: the protocol version, the method, and "params" only when given. */
  function Envelope(name: string, params: Option<Json>): map<string, Json> {
    var fields := map["jsonrpc" := JStr("2.0"), "method" := JStr(name)];
    if params.Some? then fields["params" := params.value] else fields
  }

  /**
   * The object written for a message: a notification (section 4.1 of
   * JSON-RPC 2.0) has no "id"; a request (section 4) is the same object with
   * its integer "id" added.
   */
  function Wire(m: Message): (j: Json)
    ensures j.JObj?
    ensures "id" in j.fields <==> m.Request?
    ensures m.Request? ==> j.fields["id"] == JInt(m.id)
    ensures j.fields.Keys - {"id"} == if m.params.Some? then {"jsonrpc", "method", "params"} else {"jsonrpc", "method"}
    ensures j.fields["jsonrpc"] == JStr("2.0") && j.fields["method"] == JStr(m.name)
    ensures m.params.Some? ==> j.fields["params"] == ParamsJson(m.params.value)
  {
    var fields := Envelope(m.name, if m.params.Some? then Some(ParamsJson(m.params.value)) else None);
    match m
    case Request(id, _, _) => JObj(fields["id" := JInt(id)])
    case Notification(_, _) => JObj(fields)
  }

  /** The parameter object itself. */
  function ParamsJson(p: Params): (j: Json)
    ensures j.JObj?
  {
    match p
    case InitializeParams(pid, root, rootUri) => InitializeJson(pid, root, rootUri)
    case PositionParams(uri, line, character) => PositionJson(uri, line, character)
    case CompletionParams(uri, line, character, trigger) => CompletionJson(uri, line, character, trigger)
    case DidOpenParams(uri, text) => DidOpenJson(uri, text)
    case DidCloseParams(uri) => DidCloseJson(uri)
    case EmptyParams => JObj(map[])
  }

  /**
   * The parameters of `initialize`: the client's process id, the workspace
   * as root URI, as root path and as the one workspace folder, and the
   * hover and definition capabilities.
   */
  function InitializeJson(pid: int, root: Path, rootUri: string): (j: Json)
    ensures j.JObj? && j.fields.Keys == {"processId", "rootUri", "rootPath", "capabilities", "workspaceFolders"}
    ensures j.fields["processId"] == JInt(pid)
    ensures j.fields["rootUri"] == JStr(rootUri) && j.fields["rootPath"] == JStr(ToString(root))
    ensures j.fields["workspaceFolders"] == JArr([JObj(map["uri" := JStr(rootUri), "name" := JStr(Name(root))])])
  {
    var uri := JStr(rootUri);
    var hover := JObj(map["contentFormat" := JArr([JStr("plaintext"), JStr("markdown")])]);
    var definition := JObj(map["linkSupport" := JBool(false)]);
    JObj(map[
      "processId" := JInt(pid),
      "rootUri" := uri,
      "rootPath" := JStr(ToString(root)),
      "capabilities" := JObj(map["textDocument" := JObj(map["hover" := hover, "definition" := definition])]),
      "workspaceFolders" := JArr([JObj(map["uri" := uri, "name" := JStr(Name(root))])])])
  }

  /** A document and a 0-indexed position in it, as hover and definition send them. */
  function PositionJson(uri: string, line: int, character: int): (j: Json)
    ensures j.JObj? && j.fields.Keys == {"textDocument", "position"}
    ensures j.fields["textDocument"] == JObj(map["uri" := JStr(uri)])
    ensures j.fields["position"] == JObj(map["line" := JInt(line), "character" := JInt(character)])
  {
    JObj(map[
      "textDocument" := JObj(map["uri" := JStr(uri)]),
      "position" := JObj(map["line" := JInt(line), "character" := JInt(character)])])
  }

  /**
   * A completion adds its context to the position: triggerKind 2
   * (TriggerCharacter) with the character when one is given and non-empty,
   * triggerKind 1 (Invoked) otherwise.
   */
  function CompletionJson(uri: string, line: int, character: int, trigger: Option<string>): (j: Json)
    ensures j.JObj? && j.fields.Keys == {"textDocument", "position", "context"}
    ensures j.fields - {"context"} == PositionJson(uri, line, character).fields
    ensures var c := j.fields["context"];
      c.JObj? && "triggerKind" in c.fields
      && (c.fields["triggerKind"] == JInt(2) <==> trigger.Some? && trigger.value != "")
      && (c.fields["triggerKind"] == JInt(2) ==> c.fields == map["triggerKind" := JInt(2), "triggerCharacter" := JStr(trigger.value)])
      && (c.fields["triggerKind"] != JInt(2) ==> c.fields == map["triggerKind" := JInt(1)])
  {
    var context := if trigger.Some? && trigger.value != "" then
        map["triggerKind" := JInt(2), "triggerCharacter" := JStr(trigger.value)]
      else map["triggerKind" := JInt(1)];
    JObj(PositionJson(uri, line, character).fields["context" := JObj(context)])
  }

  /** The parameters of `textDocument/didOpen` for a Python file, at version 1. */
  function DidOpenJson(uri: string, text: string): (j: Json)
    ensures j.JObj? && j.fields.Keys == {"textDocument"}
    ensures var d := j.fields["textDocument"];
      d.JObj? && d.fields.Keys == {"uri", "languageId", "version", "text"}
      && d.fields["uri"] == JStr(uri) && d.fields["languageId"] == JStr("python")
      && d.fields["version"] == JInt(1) && d.fields["text"] == JStr(text)
  {
    JObj(map["textDocument" := JObj(map[
      "uri" := JStr(uri),
      "languageId" := JStr("python"),
      "version" := JInt(1),
      "text" := JStr(text)])])
  }

  /** The parameters of `textDocument/didClose`. */
  function DidCloseJson(uri: string): (j: Json)
    ensures j.JObj? && j.fields.Keys == {"textDocument"}
    ensures j.fields["textDocument"] == JObj(map["uri" := JStr(uri)])
  {
    JObj(map["textDocument" := JObj(map["uri" := JStr(uri)])])
  }

  // ---------------------------------------------------------------------
  // What the server reads back

  /** `d` is a text document identifier whose "uri" reads back as the file `path`. */
  predicate NamesFile(d: Json, path: Path) {
    d.JObj? && "uri" in d.fields && d.fields["uri"].JStr? && UriToPath(d.fields["uri"].s) == Ok(path)
  }

  /**
   * The position parameters of a hover or definition name the resolved
   * file, and their "position" reads back, through `Position.from_lsp`, as
   * the 0-indexed position given.
   */
  lemma PositionParamsReadBack(fs: FileSystem, p: Path, line: int, character: int)
    requires IsAbsolute(fs.resolve(p)) && Valid(fs.resolve(p))
    ensures var j := PositionJson(PathToUri(fs, p), line, character);
      NamesFile(j.fields["textDocument"], fs.resolve(p))
      && PositionFromLsp(j.fields["position"]) == Ok(Position(line, character))
  {
    UriRoundTrip(fs, p);
    PositionLspRoundTrip(Position(line, character));
  }

  /** A completion's parameters read back the same way, with the context beside them. */
  lemma CompletionParamsReadBack(fs: FileSystem, p: Path, line: int, character: int, trigger: Option<string>)
    requires IsAbsolute(fs.resolve(p)) && Valid(fs.resolve(p))
    ensures var j := CompletionJson(PathToUri(fs, p), line, character, trigger);
      NamesFile(j.fields["textDocument"], fs.resolve(p))
      && PositionFromLsp(j.fields["position"]) == Ok(Position(line, character))
  {
    PositionParamsReadBack(fs, p, line, character);
    var j := CompletionJson(PathToUri(fs, p), line, character, trigger);
    var q := PositionJson(PathToUri(fs, p), line, character);
    assert j.fields["textDocument"] == (j.fields - {"context"})["textDocument"] == q.fields["textDocument"];
    assert j.fields["position"] == (j.fields - {"context"})["position"] == q.fields["position"];
  }

  /** Opening a file tells the server a URI that reads back as the resolved file, and its whole text. */
  lemma DidOpenReadsBack(fs: FileSystem, p: Path, text: string)
    requires IsAbsolute(fs.resolve(p)) && Valid(fs.resolve(p))
    ensures var d := DidOpenJson(PathToUri(fs, p), text).fields["textDocument"];
      NamesFile(d, fs.resolve(p)) && d.fields["text"] == JStr(text)
  {
    UriRoundTrip(fs, p);
  }

  /** Closing a file names it by a URI that reads back as the resolved file. */
  lemma DidCloseReadsBack(fs: FileSystem, p: Path)
    requires IsAbsolute(fs.resolve(p)) && Valid(fs.resolve(p))
    ensures NamesFile(DidCloseJson(PathToUri(fs, p)).fields["textDocument"], fs.resolve(p))
  {
    UriRoundTrip(fs, p);
  }

  /** A request's object is its notification's with the "id" added, and differs from it nowhere else. */
  lemma RequestIsNotificationWithId(id: int, name: string, params: Option<Params>)
    ensures var r, n := Wire(Request(id, name, params)), Wire(Notification(name, params));
      r.fields == n.fields["id" := JInt(id)]
  {
  }
}
