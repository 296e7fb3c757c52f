# pyright-mcp-server, modelled in Dafny

pyright-mcp-server is an MCP server that answers type-checking, hover,
go-to-definition and completion requests about Python code by driving
Pyright. It does this in two ways:

- It runs the `pyright --outputjson` command line and decodes the JSON report.
- It keeps a pool of `pyright-langserver --stdio` subprocesses and talks to
  them over the Language Server Protocol 3.17 Base Protocol. That protocol
  carries JSON-RPC 2.0 messages framed by a `Content-Length` header.

This project models the core of that server and proves properties of the
model.

**The language-server side**

- The client keeps a lifecycle state, a request-id counter and a table of
  pending requests. It also keeps a byte buffer that its reader turns into
  frames.
- A document tracker announces each file once with `textDocument/didOpen`.
  It closes all of them together.
- An LRU pool keeps one client per workspace. It evicts the least recently
  used client when full and counts hits, switches and evictions.

**The pure parts**

- Decoders of Hover, Location/LocationLink and CompletionList responses.
- The `to_dict` shaping of results.
- 0-indexed positions and their 1-indexed display form.
- `file://` URIs, following RFC 8089, with percent-encoding from section 2.1
  of RFC 3986.
- The CLI command builder and the decoder of its report.
- Pyright version parsing.
- Per-workspace metrics counters.
- Path and input validation.
- Configuration read from an environment map.

**How the outside world appears**

- A file system is a value. It holds file contents and a `resolve` function.
- The server's stdin is a `Channel`. It is an append-only log of messages
  with an `alive` flag.
- Bytes the server writes back, the clock and the outcome of spawning a
  process are parameters of each operation.
- `json.loads` is a function parameter, and so is the float parser.

Each source file has a module: `Positions`, `Uri`, `Base`, `Messages`,
`Channels`, `Framing`, `LspReader`, `Decoders`, `DocumentManagers`,
`LspClient`, `LspPools`, `CliRunner`, `HealthCheck`, `Metrics`,
`ValidationPaths`, `ValidationInputs` and `Configs`. Further modules model
the Python built-ins the code relies on:

- `Wrappers`: Option and Result.
- `Json`: JSON values.
- `Strings`: `split`, `join`, `strip`, `lower`, `upper` and `int()`.
- `Utf8`: UTF-8 encoding and decoding.
- `PosixPath`: `pathlib` paths.

## Model

| member | source | states |
|---|---|---|
| Positions.PositionToLsp | src/pyright_mcp/utils/position.py:56-67 | the LSP dict has exactly the keys "line" and "character", holding the 0-indexed line and column |
| Positions.Coordinate | src/pyright_mcp/utils/position.py:54 | a coordinate is read only when the key is present and holds an int; a missing key is the KeyError |
| Positions.PositionFromLsp | src/pyright_mcp/utils/position.py:39-54 | succeeds exactly when the value is a dict with int "line" and "character"; a non-dict is refused |
| Positions.RangeToLsp | src/pyright_mcp/utils/position.py:121-135 | the dict has exactly "start" and "end", each the LSP form of that position |
| Positions.RangeFromLsp | src/pyright_mcp/utils/position.py:98-119 | succeeds exactly when the dict has "start" and "end" and both decode as positions |
| Positions.PositionLspRoundTrip | src/pyright_mcp/utils/position.py:39-67 | from_lsp(to_lsp(p)) == p for every position |
| Positions.PositionDictRoundTrip | src/pyright_mcp/utils/position.py:39-67 | to_lsp(from_lsp(d)) == d for every decodable dict with just the two keys |
| Positions.RangeLspRoundTrip | src/pyright_mcp/utils/position.py:98-135 | Range.from_lsp(Range.to_lsp(r)) == r |
| Positions.RangeDictRoundTrip | src/pyright_mcp/utils/position.py:98-135 | Range.to_lsp(Range.from_lsp(d)) == d for a decodable dict with exactly the LSP keys |
| Positions.PositionToDisplay | src/pyright_mcp/utils/position.py:25-36 | "line+1:column+1"; Positions.PositionDisplayReadsBack proves the two numbers read back |
| Positions.RangeToDisplay | src/pyright_mcp/utils/position.py:81-95 | the two positions' displays joined by "-"; Positions.RangeDisplayReadsBack proves it splits back into them |
| Positions.PositionDisplayReadsBack | src/pyright_mcp/utils/position.py:25-36 | the display text splits at ":" into two fields that read back as line + 1 and column + 1 |
| Positions.RangeDisplayReadsBack | src/pyright_mcp/utils/position.py:81-95 | the range display splits at "-" into exactly the start and end displays |
| Positions.OriginDisplay | src/pyright_mcp/utils/position.py:25-36 | an example: position (0, 0) displays as "1:1" and the range (0,0)-(0,5) as "1:1-1:6" |
| Uri.PathToUri | src/pyright_mcp/utils/uri.py:31-39 | the URI starts with "file://", contains no space, and after the prefix holds only unreserved characters, "/" and "%" escapes |
| Uri.QuoteByte | src/pyright_mcp/utils/uri.py:39 | a safe byte stays itself; any other byte becomes "%" and two hex digits of its value |
| Uri.UriToPath | src/pyright_mcp/utils/uri.py:62-73 | succeeds exactly when urlparse succeeds with scheme "file"; any other scheme gives the not-a-file-URI error |
| Uri.UrlSplit | src/pyright_mcp/utils/uri.py:62 | the path urlparse yields never holds a "?" or "#" |
| Uri.UnquoteQuoteBytes | src/pyright_mcp/utils/uri.py:39 | quoting gives ASCII, and unquoting it to bytes gives back the original bytes |
| Uri.UnquoteQuote | src/pyright_mcp/utils/uri.py:39 | unquote(quote(s)) == s for every string |
| Uri.SpaceEscape | src/pyright_mcp/utils/uri.py:39 | a space quotes to "%20" and "%20" unquotes to a space |
| Uri.QuoteAbsolute | src/pyright_mcp/utils/uri.py:39 | the quoted text of an absolute path starts with "/" |
| Uri.UrlSplitFileUri | src/pyright_mcp/utils/uri.py:62 | urlparse of "file://" + a quoted absolute path gives scheme "file", an empty netloc and that path |
| Uri.NormalizePath | src/pyright_mcp/utils/uri.py:74-95 | the path the text names, resolved; Uri.NormalizeToString is its partner |
| Uri.NormalizeToString | src/pyright_mcp/utils/uri.py:74-95 | normalizing the text of a valid path gives that path resolved: `normalize_path(str(p)) == p.resolve()` |
| Uri.UriToPathDecodes | src/pyright_mcp/utils/uri.py:62-73 | uri_to_path percent-decodes the path component |
| Uri.UriRoundTrip | src/pyright_mcp/utils/uri.py:31-73 | uri_to_path(path_to_uri(p)) is the resolved p |
| PosixPath.ParseToString | src/pyright_mcp/backends/base.py:59 | Path(str(p)) == p for every normalised path |
| PosixPath.RelativeToParent | src/pyright_mcp/validation/paths.py:98 | a path is relative to itself and to its parent |
| PosixPath.NotATextPrefix | src/pyright_mcp/validation/paths.py:96-99 | relative_to compares components: /ab is not under /a, while /a/b is |
| Base.MakeError | src/pyright_mcp/backends/base.py:13-35 | the error keeps code, message and recoverable; recoverable defaults to false and details to an empty map |
| Base.DiagnosticToDict | src/pyright_mcp/backends/base.py:51-64 | exactly the keys file, location, severity, message and rule; location is the 1-indexed range display, severity the level's name, message and rule the diagnostic's own |
| Base.SeverityNamesDistinct | src/pyright_mcp/backends/base.py:61 | two severities have the same name exactly when they are equal, so the dict's severity identifies the level |
| Base.CountSeverity | src/pyright_mcp/backends/base.py:83-88 | a severity count never exceeds the number of diagnostics |
| Base.SeverityCountsSum | src/pyright_mcp/backends/base.py:83-99 | the error, warning, information and hint counts sum to the number of diagnostics |
| Base.CountSeverityAppend | src/pyright_mcp/backends/base.py:83-88 | counts add up over concatenated diagnostic lists |
| Base.DiagnosticsResultToDict | src/pyright_mcp/backends/base.py:75-99 | status "success", the summary, the four per-severity counts, files_analyzed as counted, and each diagnostic's dict in order |
| Base.DiagnosticLocationReadsBack | src/pyright_mcp/backends/base.py:60 | the location text splits at "-" into the start and end position displays |
| Base.DiagnosticFileReadsBack | src/pyright_mcp/backends/base.py:59 | the "file" text parses back to the diagnostic's path |
| Base.HoverSymbol | src/pyright_mcp/backends/base.py:164 | a symbol exists exactly when type_info is non-empty, and it contains no "(" |
| Base.HoverSymbolOfSignature | src/pyright_mcp/backends/base.py:164 | for type info "name(...", the symbol is the name |
| Base.HoverToDict | src/pyright_mcp/backends/base.py:155-167 | keys status, symbol, type and documentation; type and documentation are null exactly when absent |
| Base.LocationToDict | src/pyright_mcp/backends/base.py:182-192 | line and column are each the 0-indexed value plus one; file is str(path) |
| Base.LocationDictReadsBack | src/pyright_mcp/backends/base.py:182-192 | parsing the file and subtracting one from line and column gives the location back |
| Base.LocationList | src/pyright_mcp/backends/base.py:214 | one dict per location, in order |
| Base.DefinitionResultToDict | src/pyright_mcp/backends/base.py:206-215 | keys status and definitions; the definitions are the locations' dicts in order |
| Base.ReferencesResultToDict | src/pyright_mcp/backends/base.py:367-377 | the references are listed in order, and count equals their number |
| Base.InsertTextOrLabel | src/pyright_mcp/backends/base.py:243 | insert_text is the item's insert text when non-empty, else its label |
| Base.InsertTextNonEmpty | src/pyright_mcp/backends/base.py:243 | an item with a label never shows an empty insert_text |
| Base.CompletionItemToDict | src/pyright_mcp/backends/base.py:236-244 | exactly the five keys: label and kind as given, detail and documentation as given or null, insert_text falling back to the label |
| Base.CompletionResultToDict | src/pyright_mcp/backends/base.py:259-265 | one dict per item, in order, and is_incomplete passed through |
| Messages.Wire | src/pyright_mcp/backends/lsp_client.py:537-543 | "jsonrpc" is "2.0", "method" is the name, "params" is present exactly when given, and "id" is present exactly for a request |
| Messages.RequestIsNotificationWithId | src/pyright_mcp/backends/lsp_client.py:601-606 | an example: a request is the notification of the same method plus its "id" |
| Messages.InitializeJson | src/pyright_mcp/backends/lsp_client.py:178-195 | processId, rootUri, rootPath, capabilities and workspaceFolders; the one folder is the root URI and the root's name |
| Messages.PositionJson | src/pyright_mcp/backends/lsp_client.py:277-280 | the document URI and the 0-indexed line and character; Messages.PositionParamsReadBack reads both back |
| Messages.CompletionJson | src/pyright_mcp/backends/lsp_client.py:413-427 | triggerKind 2 with the character exactly when a non-empty trigger is given, else triggerKind 1 |
| Messages.DidOpenJson | src/pyright_mcp/backends/document_manager.py:99-109 | uri, languageId "python", version 1 and the file text; Messages.DidOpenReadsBack reads the file and text back |
| Messages.DidCloseJson | src/pyright_mcp/backends/document_manager.py:130-133 | only the document's URI; Messages.DidCloseReadsBack reads the file back |
| Messages.PositionParamsReadBack | src/pyright_mcp/backends/lsp_client.py:277-280 | the textDocument URI reads back through uri_to_path as the resolved file, and "position" through Position.from_lsp as the requested position |
| Messages.CompletionParamsReadBack | src/pyright_mcp/backends/lsp_client.py:413-427 | the same read-back for completion parameters, whatever the trigger |
| Messages.DidOpenReadsBack | src/pyright_mcp/backends/document_manager.py:99-109 | the URI reads back as the resolved file and "text" is the whole file text |
| Messages.DidCloseReadsBack | src/pyright_mcp/backends/document_manager.py:130-133 | the URI reads back as the resolved file |
| Channels.Channel.Notify | src/pyright_mcp/backends/lsp_client.py:596-614 | with no process nothing is sent; with a dead pipe a BrokenPipe error; otherwise the notification is appended |
| Channels.Channel.Write | src/pyright_mcp/backends/lsp_client.py:555-556 | the message is appended exactly when the pipe is alive, else BrokenPipe |
| Utf8.DecodeEncode | src/pyright_mcp/backends/lsp_client.py:555 | decoding the UTF-8 encoding of any text gives the text back |
| Framing.ContentLength | src/pyright_mcp/backends/lsp_client.py:642-646 | "no length" exactly when no header line starts with "content-length:" in any case |
| Framing.NextFrame | src/pyright_mcp/backends/lsp_client.py:636-661 | the corrected reader: a frame's body and the rest both come from the buffer, the rest is its suffix and every frame makes the buffer shorter; a negative Content-Length ends the reader (see Findings) |
| Framing.WithLength | src/pyright_mcp/backends/lsp_client.py:648-661 | the corrected step after the header: a frame leaves a suffix of the buffer as the rest, body and rest fit after the header, and a negative length is Fatal like an unreadable one |
| Framing.EncodeFrame | src/pyright_mcp/backends/lsp_client.py:551-552 | the body preceded by its Content-Length header and a blank line; Framing.FrameRoundTrip proves the reader takes it back |
| Framing.FrameRoundTrip | src/pyright_mcp/backends/lsp_client.py:551-552 | the reader recovers exactly an ASCII body the writer framed, leaving the bytes after it |
| Framing.TakeFrame | src/pyright_mcp/backends/lsp_client.py:653-661 | with the body complete, the frame is the n bytes after the blank line |
| Framing.PartialBodyWaits | src/pyright_mcp/backends/lsp_client.py:656-657 | a body not yet fully buffered makes the reader wait |
| Framing.HeaderFound | src/pyright_mcp/backends/lsp_client.py:636-646 | a single header line ended by the blank line is read for its Content-Length, and framing goes on with that value |
| Framing.HeaderBlock | src/pyright_mcp/backends/lsp_client.py:636-646 | the blank line after a single header line is found right after it, and the header text reads as that line's Content-Length |
| Framing.SliceBound | src/pyright_mcp/backends/lsp_client.py:660-661 | a slice bound as Python clamps it: a negative one counts from the end, and the result lies in [0, len] |
| Framing.PySlice | src/pyright_mcp/backends/lsp_client.py:660-661 | `buffer[i:j]` with Python's clamping; empty when the clamped bounds cross |
| Framing.WithLengthAsWritten | src/pyright_mcp/backends/lsp_client.py:652-661 | the step after the header as written: the rest is a suffix of the buffer, and shorter than it only for a non-negative length |
| Framing.NextFrameAsWritten | src/pyright_mcp/backends/lsp_client.py:634-661 | the reader as written: the rest of a frame is a suffix of the buffer, not necessarily a shorter one |
| Framing.AsWrittenAgrees | src/pyright_mcp/backends/lsp_client.py:652-661 | the reader as written and the corrected reader agree on every buffer the corrected one does not refuse |
| Framing.NegativeLengthAsWritten | src/pyright_mcp/backends/lsp_client.py:652-661 | a negative length gives an empty body and rewinds the rest into the header block, or leaves the whole buffer once the bound passes its start; the corrected step is Fatal |
| Framing.NegativeLengthSpins | src/pyright_mcp/backends/lsp_client.py:634-661 | a header "Content-Length: -k" with k large enough yields an empty frame and leaves the buffer unchanged, so the loop repeats forever; the corrected reader stops |
| Framing.MinusHundredSpins | src/pyright_mcp/backends/lsp_client.py:634-661 | an example: "Content-Length: -100" spins |
| Framing.NegativeLengthRewinds | src/pyright_mcp/backends/lsp_client.py:652-661 | a length -k that does not pass the buffer's start leaves the last k bytes of the header and blank line ahead of the next message, with an empty body; the corrected reader stops |
| Framing.FramesInOrder | src/pyright_mcp/backends/lsp_client.py:634-661 | several framed bodies are taken off in order, leaving nothing |
| Framing.MissingLengthStalls | src/pyright_mcp/backends/lsp_client.py:648-650 | a header block without Content-Length stops framing and consumes nothing |
| Framing.StallPersists | src/pyright_mcp/backends/lsp_client.py:648-650 | once stalled, the reader stays stalled whatever bytes arrive |
| Framing.NonAsciiContentMisframed | src/pyright_mcp/backends/lsp_client.py:551-552 | a two-byte character makes the counted length one short, so the body read is not UTF-8 |
| LspReader.KeyOf | src/pyright_mcp/backends/lsp_client.py:678-679 | an int id looks up its own slot; lists and dicts cannot be looked up |
| LspReader.Dispatch | src/pyright_mcp/backends/lsp_client.py:674-694 | fails exactly for a non-object, an unhashable id or a malformed log message; otherwise the keys are kept and only the waiting slot whose id matches the message is filled |
| LspReader.ResponseFulfils | src/pyright_mcp/backends/lsp_client.py:677-681 | a response whose id matches a waiting slot fills exactly that slot |
| LspReader.UnknownResponseIgnored | src/pyright_mcp/backends/lsp_client.py:680-683 | a response for an unknown or answered id leaves the table unchanged |
| LspReader.NotificationIgnored | src/pyright_mcp/backends/lsp_client.py:684-694 | a message without an id leaves the table unchanged |
| LspReader.Pump | src/pyright_mcp/backends/lsp_client.py:621-667 | the reader loop keeps the table's keys, and every done slot holds a response object |
| LspReader.LiveReaderWaits | src/pyright_mcp/backends/lsp_client.py:634-657 | a reader still running holds no complete frame: it waits for bytes or is stalled |
| LspReader.ReadsMessage | src/pyright_mcp/backends/lsp_client.py:659-665 | a framed JSON message is handled and the loop goes on with the rest |
| LspReader.ReadsResponse | src/pyright_mcp/backends/lsp_client.py:659-681 | a framed response fills its waiting slot and the loop goes on with the rest |
| LspReader.SkipsNonJson | src/pyright_mcp/backends/lsp_client.py:663-667 | a framed body that is not JSON is consumed and skipped |
| LspReader.StalledForever | src/pyright_mcp/backends/lsp_client.py:648-650 | after a stall, later bytes only pile up and the table is unchanged |
| LspReader.ReadsInOrder | src/pyright_mcp/backends/lsp_client.py:621-667 | a stream of framed responses is handled in arrival order, leaving an empty buffer |
| LspReader.NothingFramed | src/pyright_mcp/backends/lsp_client.py:636-638 | an empty buffer waits |
| LspReader.Outcome | src/pyright_mcp/backends/lsp_client.py:559-578 | no response is the recoverable timeout; an "error" member is a recoverable lsp_crash carrying it; otherwise the "result" |
| Decoders.HoverParts | src/pyright_mcp/backends/lsp_client.py:733-740 | at most one part per item |
| Decoders.HoverPartsOfStrings | src/pyright_mcp/backends/lsp_client.py:733-740 | an array of strings keeps every string, in order |
| Decoders.HoverContents | src/pyright_mcp/backends/lsp_client.py:719-743 | a string is the type info; documentation only comes with type info |
| Decoders.ParseHover | src/pyright_mcp/backends/lsp_client.py:707-753 | null gives all-None; a non-object fails; a range is kept exactly when truthy and must decode |
| Decoders.MarkupHoverDecodes | src/pyright_mcp/backends/lsp_client.py:728-732 | MarkupContent with a non-empty value gives that value as type info, plus the range |
| Decoders.MarkedStringsDecode | src/pyright_mcp/backends/lsp_client.py:733-743 | with two or more strings, the first is the type info and the rest joined by newlines the documentation |
| Decoders.CoordinateOr0 | src/pyright_mcp/backends/lsp_client.py:808-812 | a missing line or character defaults to 0 |
| Decoders.StartPosition | src/pyright_mcp/backends/lsp_client.py:807-814 | a missing or falsy range gives position (0, 0) |
| Decoders.StartOfRange | src/pyright_mcp/backends/lsp_client.py:807-812 | the position is the range's start |
| Decoders.LocationAt | src/pyright_mcp/backends/lsp_client.py:806-816 | a location is made only from a file URI, with the path uri_to_path gives |
| Decoders.ParseLocation | src/pyright_mcp/backends/lsp_client.py:785-820 | only an object with targetUri or uri yields a location |
| Decoders.LocationDecodes | src/pyright_mcp/backends/lsp_client.py:799-816 | an LSP Location decodes to its resolved file and start position |
| Decoders.LinkUsesSelection | src/pyright_mcp/backends/lsp_client.py:796-798 | a LocationLink uses targetUri and targetSelectionRange |
| Decoders.ParseLocations | src/pyright_mcp/backends/lsp_client.py:777-781 | undecodable items are dropped, so there are never more locations than items |
| Decoders.ParseDefinition | src/pyright_mcp/backends/lsp_client.py:755-783 | a list decodes item by item; an object with "uri" gives at most one; anything else gives none |
| Decoders.LocationsDecode | src/pyright_mcp/backends/lsp_client.py:777-781 | decodable items give their locations, in order |
| Decoders.DefinitionsDecode | src/pyright_mcp/backends/lsp_client.py:777-781 | a list of encoded locations decodes to the same locations, resolved, in order |
| Decoders.KindName | src/pyright_mcp/backends/lsp_client.py:868-897 | kinds 1..25 map through the table; any other scalar gives "text" |
| Decoders.DocText | src/pyright_mcp/backends/lsp_client.py:900-903 | a string is the documentation; a dict gives its "value", or "" |
| Decoders.InsertText | src/pyright_mcp/backends/lsp_client.py:906-910 | a truthy insertText is used as it is |
| Decoders.TextEditFallback | src/pyright_mcp/backends/lsp_client.py:906-910 | an empty insertText falls back to textEdit.newText |
| Decoders.ParseCompletionItem | src/pyright_mcp/backends/lsp_client.py:854-922 | an item decodes exactly when it has a non-empty string label and a usable kind; label and kind are kept |
| Decoders.ItemDecodes | src/pyright_mcp/backends/lsp_client.py:854-918 | an encoded CompletionItem decodes to itself |
| Decoders.ParseCompletionItems | src/pyright_mcp/backends/lsp_client.py:846-850 | every kept item has a non-empty label, and there are never more than the inputs |
| Decoders.ItemsDecode | src/pyright_mcp/backends/lsp_client.py:846-850 | decodable items are kept, in order |
| Decoders.ParseCompletion | src/pyright_mcp/backends/lsp_client.py:822-852 | a list gives isIncomplete false; "items" holding null, a number or a boolean is an error; anything else without "items" gives no items |
| Decoders.CompletionListDecodes | src/pyright_mcp/backends/lsp_client.py:837-852 | an encoded CompletionList decodes to its items and its isIncomplete |
| DocumentManagers.CloseMessages | src/pyright_mcp/backends/document_manager.py:128-133 | one didClose per path, carrying that document's URI, in order |
| Sequences.DistinctCard | src/pyright_mcp/backends/document_manager.py:147-150 | a sequence without repetitions has as many elements as its set |
| DocumentManagers.DocumentManager.constructor | src/pyright_mcp/backends/document_manager.py:53-55 | nothing is tracked |
| DocumentManagers.DocumentManager.OpenCount | src/pyright_mcp/backends/document_manager.py:147-150 | the count equals the number of tracked documents |
| DocumentManagers.DocumentManager.EnsureOpen | src/pyright_mcp/backends/document_manager.py:70-115 | a tracked file changes nothing; a missing one raises and sends nothing; otherwise one didOpen is sent, the file is tracked at version 1 and is open |
| DocumentManagers.DocumentManager.CloseAll | src/pyright_mcp/backends/document_manager.py:117-135 | one didClose per document in opening order, then nothing is tracked; a broken pipe stops it before clearing |
| DocumentManagers.DocumentManager.Clear | src/pyright_mcp/backends/document_manager.py:137-145 | nothing is tracked and nothing is sent |
| LspClient.InitRootReadsBack | src/pyright_mcp/backends/lsp_client.py:177-195 | the rootUri sent in initialize reads back as the resolved workspace root |
| LspClient.NotInstalled | src/pyright_mcp/backends/lsp_client.py:207-214 | a missing executable is the non-recoverable not_found |
| LspClient.InitFailed | src/pyright_mcp/backends/lsp_client.py:222-229 | any other start failure is the recoverable lsp_crash |
| LspClient.NotRunning | src/pyright_mcp/backends/lsp_client.py:525-530 | a request with no server is the recoverable lsp_not_ready |
| LspClient.Failed | src/pyright_mcp/backends/lsp_client.py:289-296 | a query's generic failure is the recoverable lsp_crash |
| LspClient.Reply | src/pyright_mcp/backends/lsp_client.py:545-547 | the request's slot joins the table before the reader runs, and done slots hold objects |
| LspClient.LSPClient.constructor | src/pyright_mcp/backends/lsp_client.py:87-100 | state NOT_STARTED, no process, request id 0, empty table, no documents |
| LspClient.LSPClient.Receive | src/pyright_mcp/backends/lsp_client.py:621-667 | a running reader's table and buffer become what the reader loop makes of the new bytes |
| LspClient.LSPClient.SendRequest | src/pyright_mcp/backends/lsp_client.py:506-580 | no process is lsp_not_ready; otherwise the id goes up by one, the request is written, the slot is removed afterwards, and the result is the response's outcome |
| LspClient.LSPClient.Deliver | src/pyright_mcp/backends/lsp_client.py:532-580 | the next id, the request appended to the pipe, and the outcome read from what the server wrote back |
| LspClient.LSPClient.Cleanup | src/pyright_mcp/backends/lsp_client.py:481-504 | no process, NOT_STARTED, empty table, request id 0, no documents, nothing sent |
| LspClient.LSPClient.RequestExit | src/pyright_mcp/backends/lsp_client.py:466-474 | the shutdown request and the exit notification are written |
| LspClient.LSPClient.Shutdown | src/pyright_mcp/backends/lsp_client.py:445-479 | NOT_STARTED changes nothing; READY closes the documents, says goodbye and cleans up |
| LspClient.LSPClient.StartError | src/pyright_mcp/backends/lsp_client.py:207-229 | the error is non-recoverable exactly when the executable is missing and the command is non-empty |
| LspClient.LSPClient.Connect | src/pyright_mcp/backends/lsp_client.py:152-174 | INITIALIZING with a fresh process for the root, ids from 0, a running reader |
| LspClient.LSPClient.Initialize | src/pyright_mcp/backends/lsp_client.py:176-199 | request 1 is initialize; its outcome is what the server writes back |
| LspClient.LSPClient.Launch | src/pyright_mcp/backends/lsp_client.py:152-206 | READY with request id 1 exactly when the handshake succeeds with a falsy result or an object whose "capabilities", if present, is an object; otherwise cleaned up with lsp_crash |
| LspClient.LSPClient.StartAndInitialize | src/pyright_mcp/backends/lsp_client.py:143-229 | success exactly when the server starts and answers acceptably (a non-object "capabilities" fails); a handshake timeout is lsp_crash too; a failure leaves NOT_STARTED |
| LspClient.LSPClient.EnsureInitialized | src/pyright_mcp/backends/lsp_client.py:112-141 | READY for the same root only refreshes the activity time; otherwise any running server is shut down, then a start, which on success leaves request id 1, no open document, a live pipe and the reader as the handshake left it |
| LspClient.LSPClient.NonObjectCapabilitiesFail | src/pyright_mcp/backends/lsp_client.py:197-229 | an initialize result whose "capabilities" is not an object (null, a list, a string, a number) fails the start with the recoverable lsp_crash |
| LspClient.LSPClient.HandleError | src/pyright_mcp/backends/lsp_client.py:696-705 | a timeout changes nothing; any other error cleans up |
| LspClient.LSPClient.Ask | src/pyright_mcp/backends/lsp_client.py:253-296 | on a client ready for the workspace, the outcome of the request: a BackendError passes through unchanged, and any other failure tears down and becomes lsp_crash; on a cold client (stopped, or ready for another root) a failed start gives the start's error, a file that cannot be read gives lsp_crash, and otherwise the outcome of request 2 read after the handshake |
| LspClient.LSPClient.AskReady | src/pyright_mcp/backends/lsp_client.py:259-296 | a file that cannot be read tears the connection down |
| LspClient.LSPClient.SendQuery | src/pyright_mcp/backends/lsp_client.py:271-296 | errors are recoverable; a dead pipe tears down |
| LspClient.LSPClient.Hover | src/pyright_mcp/backends/lsp_client.py:231-296 | the decoded hover response, or the error policy, tearing down exactly on a non-BackendError failure, both on a client already serving the workspace and on the first query after a start; a failed start gives its own error |
| LspClient.LSPClient.Definition | src/pyright_mcp/backends/lsp_client.py:298-363 | the decoded definition response, or the error policy, both on a client already serving the workspace and on the first query after a start; a failed start gives its own error |
| LspClient.LSPClient.Complete | src/pyright_mcp/backends/lsp_client.py:365-443 | the decoded completion response, or the error policy, both on a client already serving the workspace and on the first query after a start; a failed start gives its own error |
| LspClient.LSPClient.CheckIdleTimeout | src/pyright_mcp/backends/lsp_client.py:924-960 | true exactly when READY and idle for at least lsp_timeout, and then the server is shut down; otherwise nothing changes |
| LspPools.FirstIndex | src/pyright_mcp/backends/lsp_pool.py:152-153 | the first occurrence, which list.remove deletes |
| LspPools.RemoveOthers | src/pyright_mcp/backends/lsp_pool.py:152-153 | removing from a list without repetitions drops exactly that element |
| LspPools.TouchMovesToBack | src/pyright_mcp/backends/lsp_pool.py:143-154 | the workspace ends up last, once, with the others kept |
| LspPools.AdmitEvictsFront | src/pyright_mcp/backends/lsp_pool.py:104-131 | when full, exactly the front is evicted; the new workspace is last; the size stays within capacity |
| LspPools.LruScenario | src/pyright_mcp/backends/lsp_pool.py:94-131 | an example: with three slots: admit w1 w2 w3, touch w1, admit w4, giving [w3, w1, w4] |
| LspPools.SettingsFallBack | src/pyright_mcp/backends/lsp_pool.py:55-58 | 0 or None falls back to the environment (default 3) and to the config's lsp_timeout |
| LspPools.HitRate | src/pyright_mcp/backends/lsp_pool.py:190-193 | the exact ratio of hits to calls, hits/(hits+switches), and 0 before any call |
| LspPools.HitRateBounds | src/pyright_mcp/backends/lsp_pool.py:190-193 | the hit rate lies between 0 and 1; it is 0 exactly without hits, and 1 exactly when there are hits and no switches |
| LspPools.PathStrings | src/pyright_mcp/backends/lsp_pool.py:198 | str of each workspace, in order |
| LspPools.LSPPool.constructor | src/pyright_mcp/backends/lsp_pool.py:41-69 | an empty pool with zero counters |
| LspPools.LSPPool.GetClient | src/pyright_mcp/backends/lsp_pool.py:76-117 | a hit returns the same client and counts a hit; a miss counts a switch, evicts the front when full and adds a fresh client at the back |
| LspPools.LSPPool.Hit | src/pyright_mcp/backends/lsp_pool.py:94-98 | the same client; only cache_hits changes; the workspace moves to the back |
| LspPools.LSPPool.Miss | src/pyright_mcp/backends/lsp_pool.py:100-117 | one more switch, the front evicted when full, a fresh idle client appended |
| LspPools.LSPPool.Add | src/pyright_mcp/backends/lsp_pool.py:109-112 | the client is added under the root, which goes to the back |
| LspPools.LSPPool.EvictLru | src/pyright_mcp/backends/lsp_pool.py:119-141 | an empty order changes nothing; otherwise the front is removed from both, shut down, and counted |
| LspPools.LSPPool.Pop | src/pyright_mcp/backends/lsp_pool.py:131-132 | the front leaves both the order and the map, and the eviction is counted |
| LspPools.Retire | src/pyright_mcp/backends/lsp_pool.py:134-139 | the client ends shut down |
| LspPools.RetireAll | src/pyright_mcp/backends/lsp_pool.py:163-170 | every client ends shut down |
| LspPools.LSPPool.ShutdownAll | src/pyright_mcp/backends/lsp_pool.py:156-174 | map and order empty, counters untouched, every former client shut down |
| LspPools.LSPPool.Stats | src/pyright_mcp/backends/lsp_pool.py:176-202 | active = number of clients = length of order (within capacity), workspaces oldest first, counters as kept, and cache_hit_rate = hits/(hits+switches), 0 before any call |
| CliRunner.BuildCommand | src/pyright_mcp/backends/cli_runner.py:124-158 | "pyright --outputjson" first and the path last; "--project root" exactly with a root and "--pythonversion v" exactly with a non-empty v, in that order |
| CliRunner.Lookup | src/pyright_mcp/backends/cli_runner.py:257 | dict.get: the value when the key is present, else the default |
| CliRunner.SeverityOf | src/pyright_mcp/backends/cli_runner.py:261-268 | the severity_map lookup with "error" as default, failing for an unhashable code; CliRunner.SeverityTable states it case by case |
| CliRunner.SeverityTable | src/pyright_mcp/backends/cli_runner.py:261-268 | 1 to 4 map to error, warning, information and hint; other scalars map to error |
| CliRunner.DecodeDiagnostic | src/pyright_mcp/backends/cli_runner.py:259-290 | a kept diagnostic has the decoded range, the severity the table gives for the entry's "severity" (1 when absent), the entry's "file" as a path, and its message and rule; the entry raises exactly when it is not a dict, its severity is unhashable, or its range reads and its file is not a string |
| CliRunner.MalformedRangeSkipped | src/pyright_mcp/backends/cli_runner.py:272-277 | a diagnostic whose range does not decode is skipped |
| CliRunner.MissingRangeSkipped | src/pyright_mcp/backends/cli_runner.py:272-277 | a diagnostic without range is skipped |
| CliRunner.Collect | src/pyright_mcp/backends/cli_runner.py:259-290 | at most one diagnostic per entry; CliRunner.CollectOne, CollectAppend and CollectStops state what each entry contributes, and ParsePyrightOutput's loop is proved equal to it |
| CliRunner.CollectOne | src/pyright_mcp/backends/cli_runner.py:259-290 | one entry is kept, skipped, or fails the parse |
| CliRunner.CollectAppend | src/pyright_mcp/backends/cli_runner.py:259-290 | the kept diagnostics of two lists are concatenated in order |
| CliRunner.CollectStops | src/pyright_mcp/backends/cli_runner.py:259-290 | an entry that makes the loop raise fails the whole parse |
| CliRunner.ParseOutput | src/pyright_mcp/backends/cli_runner.py:223-318 | invalid JSON is a non-recoverable parse_error; every error is non-recoverable |
| CliRunner.ParsePyrightOutput | src/pyright_mcp/backends/cli_runner.py:223-318 | the result depends on stdout alone, never on stderr or the return code |
| CliRunner.DiagnosticsInOrder | src/pyright_mcp/backends/cli_runner.py:255-290 | the diagnostics are the kept entries of generalDiagnostics, in order |
| CliRunner.TwoPlaces | src/pyright_mcp/backends/cli_runner.py:298-301 | the time is formatted exactly when it is an integer or a boolean, and then ends in ".00" |
| CliRunner.Assemble | src/pyright_mcp/backends/cli_runner.py:301-310 | the "Analyzed" head comes first, and "No issues found" comes last exactly when the error and warning counts are both 0 (or when every count is at most 0 and the head is itself that text) |
| CliRunner.NoIssuesIff | src/pyright_mcp/backends/cli_runner.py:309-310 | "No issues found" appears exactly when the summary's error and warning counts are both 0 |
| CliRunner.FoundErrorsIff | src/pyright_mcp/backends/cli_runner.py:302-303 | "Found k error(s)" appears exactly when k > 0 |
| CliRunner.SummaryIgnoresDiagnostics | src/pyright_mcp/backends/cli_runner.py:292-312 | the summary and files_analyzed depend only on the summary block |
| CliRunner.ParseOutputOk | src/pyright_mcp/backends/cli_runner.py:243-318 | the result is the kept diagnostics, the parts joined by ". " plus ".", and filesAnalyzed |
| CliRunner.CleanSummary | src/pyright_mcp/backends/cli_runner.py:293-312 | an example: one file and no counts give "Analyzed 1 file(s) in 0.00s" and "No issues found" |
| CliRunner.EmptyReport | src/pyright_mcp/backends/cli_runner.py:243-318 | an example: a report with only that summary decodes to no diagnostics and that summary |
| HealthCheck.ParseVersion | src/pyright_mcp/tools/health_check.py:25-45 | the text before the first "-", split at ".", read as three ints; its behaviour is stated by HealthCheck.ParseRender, SuffixIgnored, ThreeFields, ExtraFieldsIgnored and FewerThanThreeFieldsRejected |
| HealthCheck.ParseRender | src/pyright_mcp/tools/health_check.py:25-45 | "a.b.c" parses as (a, b, c) |
| HealthCheck.SuffixIgnored | src/pyright_mcp/tools/health_check.py:36 | everything from the first "-" is ignored |
| HealthCheck.ThreeFields | src/pyright_mcp/tools/health_check.py:37-43 | three fields parse exactly when each is an int, giving those ints |
| HealthCheck.ExtraFieldsIgnored | src/pyright_mcp/tools/health_check.py:37-43 | fields beyond the third are ignored |
| HealthCheck.TwoFieldsRejected | src/pyright_mcp/tools/health_check.py:38-39 | any version made of exactly two dot-separated fields and no "-" gives None |
| HealthCheck.FewerThanThreeFieldsRejected | src/pyright_mcp/tools/health_check.py:36-39 | every version whose text before the first "-" has fewer than three dot-separated fields gives None |
| HealthCheck.TwoOrFewerEmpty | src/pyright_mcp/tools/health_check.py:38-39 | an example: the empty string gives None |
| HealthCheck.MinimumParses | src/pyright_mcp/tools/health_check.py:22 | an example: the minimum version parses as (1, 1, 350) |
| HealthCheck.IsVersionCompatible | src/pyright_mcp/tools/health_check.py:48-66 | compatible only for a non-empty version string that parses |
| HealthCheck.CompatibleIff | src/pyright_mcp/tools/health_check.py:57-66 | compatible exactly when the version parses and is at least (1, 1, 350) in lexicographic order |
| HealthCheck.RenderedCompatible | src/pyright_mcp/tools/health_check.py:48-66 | "a.b.c" is compatible exactly when (a, b, c) >= (1, 1, 350) |
| HealthCheck.VersionToken | src/pyright_mcp/tools/health_check.py:90-99 | either the stripped output itself, or its second word when it starts with "pyright" and has more than one word |
| HealthCheck.TokenOfStripped | src/pyright_mcp/tools/health_check.py:95-98 | "pyright" output with at least two words gives the second |
| HealthCheck.TokenAfterName | src/pyright_mcp/tools/health_check.py:95-98 | "pyright v" gives v |
| HealthCheck.ProbeVersion | src/pyright_mcp/tools/health_check.py:90-102 | found exactly on exit code 0; an error carries stripped stderr, else stripped stdout |
| HealthCheck.ReportedVersionCompatible | src/pyright_mcp/tools/health_check.py:90-99 | the version "pyright a.b.c" reports is compatible exactly when (a, b, c) >= (1, 1, 350) |
| Metrics.ParseOperation | src/pyright_mcp/metrics.py:133-134 | only the four operation names are accepted, each as its own operation |
| Metrics.ParseOperationName | src/pyright_mcp/metrics.py:133 | every operation's name is accepted as that operation |
| Metrics.WithStats | src/pyright_mcp/metrics.py:143-162 | the named operation's counters are replaced and the others kept |
| Metrics.Fresh | src/pyright_mcp/metrics.py:137-138 | a new entry has every count, list and error count empty |
| Metrics.RecordedEffect | src/pyright_mcp/metrics.py:143-162 | count + 1, the duration appended, errors + 1 exactly on failure, other operations unchanged, invariant kept |
| Metrics.Average | src/pyright_mcp/metrics.py:41-67 | 0 for no times, otherwise average * n equals the sum |
| Metrics.AverageBounds | src/pyright_mcp/metrics.py:41-67 | when every time lies between lo and hi, so does the average |
| Metrics.MetricsCollector.constructor | src/pyright_mcp/metrics.py:109-113 | no workspaces |
| Metrics.MetricsCollector.Record | src/pyright_mcp/metrics.py:115-162 | an unknown operation is an error and changes nothing; otherwise the workspace's entry (fresh on first use) records the call |
| Metrics.MetricsCollector.WorkspaceMetricsOf | src/pyright_mcp/metrics.py:164-173 | the recorded entry itself, exactly for recorded workspaces |
| Metrics.MetricsCollector.AllMetrics | src/pyright_mcp/metrics.py:175-181 | the recorded entries, one per recorded workspace, in first-record order |
| ValidationPaths.ToErrorResponse | src/pyright_mcp/validation/paths.py:20-30 | status "error", error_code "validation_error", message "field: message" |
| ValidationPaths.IsPathAllowed | src/pyright_mcp/validation/paths.py:77-104 | true exactly when some resolved root is a component-wise ancestor of the resolved path; no roots give false |
| ValidationPaths.AllowedAppend | src/pyright_mcp/validation/paths.py:94-104 | allowed by a concatenation of root lists exactly when allowed by either |
| ValidationPaths.AllowedUnderRoot | src/pyright_mcp/validation/paths.py:94-99 | a resolved root allows itself and its children |
| ValidationPaths.ValidatePath | src/pyright_mcp/validation/paths.py:33-74 | accepted exactly when the resolved path exists and is allowed, and then returned resolved; errors carry field "path" |
| ValidationPaths.UnrestrictedAcceptsExisting | src/pyright_mcp/validation/paths.py:66-74 | without allowed paths, any existing path is returned resolved |
| ValidationPaths.NoRootsRefuseAll | src/pyright_mcp/validation/paths.py:66-72 | an empty allowed list refuses every path |
| ValidationInputs.ValidateCheckTypesInput | src/pyright_mcp/validation/inputs.py:8-32 | None is "required"; blank is "cannot be empty"; otherwise accepted exactly when the resolved path exists; errors carry "path" |
| ValidationInputs.BlankRejected | src/pyright_mcp/validation/inputs.py:27-28 | whitespace-only input is rejected as empty |
| ValidationInputs.NonBlankDelegates | src/pyright_mcp/validation/inputs.py:30-32 | other input gets validate_path's answer without workspace restriction |
| Configs.ParseTimeout | src/pyright_mcp/config.py:56-83 | accepted exactly when the number parses and is positive; non-numeric text is "must be a number" |
| Configs.ParseLogMode | src/pyright_mcp/config.py:98-105 | accepted exactly when the lower-cased text is stderr, file or both |
| Configs.ResolveAll | src/pyright_mcp/config.py:52-53 | one resolved path per ":"-separated field, in order |
| Configs.LoadConfig | src/pyright_mcp/config.py:37-124 | the environment read and checked into a Config; what it accepts and returns is stated by Configs.LoadConfigChecks and the lemmas after it |
| Configs.LoadConfigChecks | src/pyright_mcp/config.py:37-124 | succeeds exactly when both timeouts and the log level and mode are valid; the command is the split text; health check iff "true" |
| Configs.DefaultConfig | src/pyright_mcp/config.py:50-124 | an empty environment gives CLI timeout 30, LSP timeout 300, command "pyright-langserver --stdio", level INFO, mode stderr, no allowed paths, no log file and the health check on |
| Configs.LogLevelOnly | src/pyright_mcp/config.py:90-95 | the log level setting changes only the log level, upper-cased |
| Configs.LogLevelIgnoresCase | src/pyright_mcp/config.py:90 | "debug" is accepted as DEBUG |
| Configs.UnknownLogLevelRejected | src/pyright_mcp/config.py:91-95 | an unknown level is an error |
| Configs.LspCommandOnly | src/pyright_mcp/config.py:86-87 | the command setting changes only the command |
| Configs.LspCommandSet | src/pyright_mcp/config.py:86-87 | the command is the whitespace split of the variable |
| Configs.LspCommandWords | src/pyright_mcp/config.py:86-87 | words joined by spaces come back as those words |
| Configs.AllowedPathsFields | src/pyright_mcp/config.py:50-53 | the allowed paths are the resolved ":"-separated fields, in order |
| Configs.AllowedPathsOnly | src/pyright_mcp/config.py:50-53 | the allowed-paths setting changes only that field, which becomes the resolved fields |
| Configs.HealthCheckOnly | src/pyright_mcp/config.py:112-113 | the health-check setting changes only that flag |
| Configs.HealthCheckSwitch | src/pyright_mcp/config.py:112-113 | enabled exactly when the lower-cased text is "true" |
| Configs.HealthCheckSpellings | src/pyright_mcp/config.py:113 | an example: "TRUE" enables, "yes" and "false" do not |
| Configs.ConfigCache.constructor | src/pyright_mcp/config.py:34 | nothing is cached |
| Configs.ConfigCache.Get | src/pyright_mcp/config.py:127-139 | a cached config is returned unchanged; otherwise it is loaded and cached on success |
| Configs.ConfigCache.Reset | src/pyright_mcp/config.py:142-150 | the cache is emptied |

## Left out

- Subprocesses, pipes and asyncio are not modelled: `create_subprocess_exec`, reads, kill and wait, the lock, tasks, futures and `wait_for`. Each public operation is one atomic step. The server's output during a step is a parameter.
- `run_pyright` (src/pyright_mcp/backends/cli_runner.py:161-220) and the `pyright --version` subprocess call are left out. Their stdout, stderr and return code are parameters.
- `PyrightCLIRunner.check` and `shutdown` only glue `run_pyright` to the parser, so they are left out.
- `time.time()` is the `now` parameter. Times are reals.
- `json.dumps` is left out. Outbound messages are kept as JSON values in the channel's log. `json.loads` is a function parameter of the client and of the CLI decoder.
- Floating point is not modelled. Timeout values come from an abstract float parser.
- CliRunner.TwoPlaces: JSON numbers are integers here, so the summary's `timeInSec` is formatted only when it is an integer or a boolean. Any other value, including the float Pyright actually reports, makes the parse end as Unreadable, so a real report's summary is outside the model.
- LspPools.LSPPool.Stats: the hit rate is the exact ratio, not rounded to three places.
- Framing.WithLength: a negative Content-Length is refused, and the reader ends, in this reader (Framing.NextFrame, LspReader.Pump and LspClient.LSPClient.Receive use it). The source instead slices back into the header block, or spins forever once the bound passes the buffer's start. Framing.NextFrameAsWritten models that behaviour; see Findings.
- Decoders.HoverParts: a dict item whose "value" is not a string counts as "". In the source, `["a", {"value": 5}]` makes the join raise TypeError, which ends in lsp_crash, and `[{"value": null}]` gives no type information; the model gives Ok with `Some("")`.
- Decoders.HoverContents: a dict whose "value" is a truthy non-string gives no type information, where the source keeps the value untyped.
- Decoders.CoordinateOr0: a non-int coordinate such as `{"line": null}` drops the location, where the source builds `Position(None, 0)` and keeps it.
- Decoders.ParseCompletionItem: any non-string "label", "detail", "documentation" or "insertText", truthy or not (`0`, `false`, `[]`), drops the field or the item, where the source carries it along untyped.
- Uri.UrlSplit: urlsplit's bracketed-host check (`_check_bracketed_netloc`) and its NFKC netloc check (`_checknetloc`) are not modelled. For example, `file://[x]/a` raises ValueError on Python 3.11.4 and later, but the model reads it as "/a".
- `Path.resolve`, `exists` and `read_text` use an abstract file system, and resolve is a parameter. OSError and RuntimeError from resolve are not modelled. A file that is not UTF-8 is not modelled.
- The Windows branches of uri.py (src/pyright_mcp/utils/uri.py:33-36, 70-71) are left out.
- Upper- and lower-casing are ASCII only.
- Strings.PyInt strips surrounding whitespace (the characters Python's `str.strip` removes) and reads ASCII digits, an optional sign and single underscores between digits. Non-ASCII decimal digits, which `int()` also accepts, are not modelled.
- Error message texts are kept only where a contract states them. Exception suffixes such as `: {e}` are dropped.
- Logging is left out.
- `LSPState.SHUTDOWN` is never assigned, so the state type leaves it out.
- A handshake timeout surfaces as the recoverable lsp_crash, not as timeout. `_send_request` turns the asyncio timeout into a BackendError first, so the `except asyncio.TimeoutError` at line 215 never fires. The model follows the code.
- The writer's Content-Length counts characters. `json.dumps` escapes every non-ASCII character, so real bodies are ASCII and the count equals the byte count. Framing.NonAsciiContentMisframed shows what a non-ASCII body would do.
- The process `returncode` check is modelled as the pipe's `alive` flag.
- LspPools.LSPPool.ShutdownAll visits clients in access order rather than dict insertion order. Each shutdown touches only its own client, so only logs could tell the difference.
- The pool's config sharing is not modelled. The source writes `lsp_timeout` into the shared Config object; here the idle timeout is a value handed to each new client.
- Positions.Coordinate and Positions.PositionFromLsp: Python accepts any value as a coordinate; the model requires an int and refuses anything else.
- Metrics: `to_dict`, `uptime_seconds` and the `avg_*_ms` output formatting are left out. Entries are returned as values, so aliasing of the returned objects is not modelled.
- The `health_check` tool response is left out. Only the version parsing, the compatibility test and the token extraction it uses are modelled.
- The selector, the other tools, the server entry points, project detection and logging setup are outside this model.

## Findings

| source | as written | input that shows it | evidently intended | confidence | as-written member | corrected member |
|---|---|---|---|---|---|---|
| src/pyright_mcp/backends/lsp_client.py:652-661 | `message_end = header_end + 4 + content_length` with a negative length: the slices rewind into the header block, and once `len(buffer) + message_end <= 0`, `buffer[message_end:]` is the whole buffer, so the `while True` loop yields empty messages forever without awaiting | `Content-Length: -100\r\n\r\n` | a negative length is refused like an unreadable one, and the reader ends | not executed | Framing.NegativeLengthSpins | Framing.NextFrame |
