/**
 * What the client's background reader does with the bytes the language
 * server writes (`backends/lsp_client.py`, `_read_responses` and
 * `_handle_message`), and what a request makes of the response it waited
 * for (`_send_request`).
 *
 * The table of pending requests maps each request id to its future: `None`
 * while it waits, the response object once it is done. Responses are matched
 * to requests as JSON-RPC 2.0 section 5 prescribes, by "id".
 */
module LspReader {
  import opened Wrappers
  import opened Json
  import opened Strings
  import opened Utf8
  import opened Base
  import opened Framing

  type Pending = map<int, Option<Json>>

  /** Every done future holds a response object (the handler only passes on dicts). */
  predicate Answered(pending: Pending) {
    forall k | k in pending && pending[k].Some? :: pending[k].value.JObj?
  }

  /** What an "id" looks up in the table, which is keyed by Python ints. */
  datatype IdKey = Key(k: int) | NoKey | Unhashable

  /** `True` and `False` hash and compare as 1 and 0; strings and null match no int key; lists and dicts cannot be looked up. */
  function KeyOf(id: Json): (r: IdKey)
    ensures r.Unhashable? <==> id.JArr? || id.JObj?
    ensures id.JInt? ==> r == Key(id.i)
  {
    match id
    case JInt(i) => Key(i)
    case JBool(b) => Key(if b then 1 else 0)
    case JStr(_) => NoKey
    case JNull => NoKey
    case _ => Unhashable
  }

  /** A `window/logMessage` notification whose "params" cannot be read with `.get`. */
  predicate BadLogMessage(m: map<string, Json>) {
    GetOrNull(m, "method") == JStr("window/logMessage") && "params" in m && !m["params"].JObj?
  }

  /**
   * `_handle_message`: a response fulfils the future of its id if that one
   * is still waiting; anything else leaves the table alone. `None` means
   * the handler raised, which ends the reader.
   */
  function Dispatch(pending: Pending, msg: Json): (r: Option<Pending>)
    ensures r.None? <==> (!msg.JObj?
      || ("id" in msg.fields && KeyOf(msg.fields["id"]).Unhashable?)
      || ("id" !in msg.fields && BadLogMessage(msg.fields)))
    ensures r.Some? ==> r.value.Keys == pending.Keys
    ensures r.Some? && Answered(pending) ==> Answered(r.value)
    ensures r.Some? ==> forall k | k in pending && r.value[k] != pending[k] ::
      pending[k].None? && r.value[k] == Some(msg) && "id" in msg.fields && KeyOf(msg.fields["id"]) == Key(k)
  {
    match msg
    case JObj(m) =>
      if "id" in m then
        (match KeyOf(m["id"])
         case Unhashable => None
         case NoKey => Some(pending)
         case Key(k) => if k in pending && pending[k].None? then Some(pending[k := Some(msg)]) else Some(pending))
      else if BadLogMessage(m) then None
      else Some(pending)
    case _ => None
  }

  /** The reader's state: the table, its unread bytes, and whether it still runs. */
  datatype ReaderState = ReaderState(pending: Pending, buffer: seq<byte>, alive: bool)

  /**
   * The reader loop over the bytes it holds: frames are taken off the front
   * and handled in order until the buffer holds no complete frame. A body
   * that is not JSON (`parse` gives `None`) is dropped; a header or body that
   * is not UTF-8, a bad Content-Length, or a failing handler ends the reader.
   * One round of the loop is `Round`; the two are kept apart so that a proof
   * about the whole loop takes a round apart only when it asks to
   * (`PumpRound`).
   */
  function Pump(pending: Pending, buf: seq<byte>, parse: string -> Option<Json>): (st: ReaderState)
    ensures st.pending.Keys == pending.Keys
    ensures Answered(pending) ==> Answered(st.pending)
    decreases |buf|, 1
  {
    Round(pending, buf, parse)
  }

  /** One round of the reader loop: the next frame is handled, then the loop goes on with the rest. */
  function Round(pending: Pending, buf: seq<byte>, parse: string -> Option<Json>): (st: ReaderState)
    ensures st.pending.Keys == pending.Keys
    ensures Answered(pending) ==> Answered(st.pending)
    decreases |buf|, 0
  {
    match NextFrame(buf)
    case Wait => ReaderState(pending, buf, true)
    case Stall => ReaderState(pending, buf, true)
    case Fatal => ReaderState(pending, buf, false)
    case Frame(body, rest) =>
      match Decode(body)
      case None => ReaderState(pending, rest, false)
      case Some(text) =>
        match parse(text)
        case None => Pump(pending, rest, parse)
        case Some(msg) =>
          match Dispatch(pending, msg)
          case None => ReaderState(pending, rest, false)
          case Some(next) => Pump(next, rest, parse)
  }

  lemma PumpRound(pending: Pending, buf: seq<byte>, parse: string -> Option<Json>)
    ensures Pump(pending, buf, parse) == Round(pending, buf, parse)
  {
  }

  /** A reader that is still running has stopped at a buffer that holds no complete frame. */
  lemma {:induction false} LiveReaderWaits(pending: Pending, buf: seq<byte>, parse: string -> Option<Json>)
    ensures var st := Pump(pending, buf, parse);
      st.alive ==> NextFrame(st.buffer).Wait? || NextFrame(st.buffer).Stall?
    decreases |buf|
  {
    PumpRound(pending, buf, parse);
    match NextFrame(buf)
    case Frame(body, rest) =>
      if Decode(body).Some? {
        var text := Decode(body).value;
        if parse(text).None? {
          LiveReaderWaits(pending, rest, parse);
        } else if Dispatch(pending, parse(text).value).Some? {
          LiveReaderWaits(Dispatch(pending, parse(text).value).value, rest, parse);
        }
      }
    case _ =>
  }

  /** The text of an error's "message" as an f-string shows it; lists and dicts are not rendered. */
  function ShowMessage(error: map<string, Json>): string {
    match Get(error, "message")
    case None => "Unknown error"
    case Some(JStr(s)) => s
    case Some(JInt(i)) => IntToString(i)
    case Some(JBool(b)) => if b then "True" else "False"
    case Some(JNull) => "None"
    case Some(_) => ""
  }

  /**
   * What `_send_request` makes of its future: no response is a recoverable
   * timeout; a response with "error" is a recoverable `lsp_crash` carrying the
   * error (an error that is not an object makes `.get` raise); otherwise the
   * "result", null when absent.
   */
  function Outcome(name: string, slot: Option<Json>): (r: Result<Json, Exn>)
    requires slot.Some? ==> slot.value.JObj?
    ensures slot.None? ==> r == Err(Backend(MakeError(Timeout, "LSP request timed out: " + name, true)))
    ensures r.Ok? <==> slot.Some? && "error" !in slot.value.fields
    ensures r.Ok? ==> r.value == GetOrNull(slot.value.fields, "result")
    ensures r.Err? && slot.Some? ==> (r.error.Backend? <==> slot.value.fields["error"].JObj?)
    ensures r.Err? && r.error.Backend? ==> r.error.err.recoverable
    ensures r.Err? && r.error.Backend? && slot.Some? ==>
      r.error.err.code == LspCrash && r.error.err.details == map["lsp_error" := slot.value.fields["error"]]
  {
    match slot
    case None => Err(Backend(MakeError(Timeout, "LSP request timed out: " + name, true)))
    case Some(response) =>
      var m := response.fields;
      if "error" in m then
        match m["error"]
        case JObj(e) =>
          Err(Backend(MakeError(LspCrash, "LSP error: " + ShowMessage(e), true, Some(map["lsp_error" := m["error"]]))))
        case _ => Err(OtherExn)
      else Ok(GetOrNull(m, "result"))
  }

  // ---------------------------------------------------------------------
  // Correlation

  /** A response to a waiting request fulfils that request's future and no other. */
  lemma ResponseFulfils(pending: Pending, k: int, msg: Json)
    requires k in pending && pending[k].None?
    requires msg.JObj? && "id" in msg.fields && msg.fields["id"] == JInt(k)
    ensures Dispatch(pending, msg) == Some(pending[k := Some(msg)])
  {
  }

  /** A response whose id is not waiting (unknown, or already answered) leaves the table unchanged. */
  lemma UnknownResponseIgnored(pending: Pending, msg: Json)
    requires msg.JObj? && "id" in msg.fields && msg.fields["id"].JInt?
    requires var k := msg.fields["id"].i; k !in pending || pending[k].Some?
    ensures Dispatch(pending, msg) == Some(pending)
  {
  }

  /** A notification (no "id") leaves the table unchanged, unless it is a log message whose params are not an object. */
  lemma NotificationIgnored(pending: Pending, msg: Json)
    requires msg.JObj? && "id" !in msg.fields && !BadLogMessage(msg.fields)
    ensures Dispatch(pending, msg) == Some(pending)
  {
  }

  /** The reader takes a framed JSON message off the front of its buffer and hands it to the handler. */
  lemma ReadsMessage(pending: Pending, text: string, rest: seq<byte>, parse: string -> Option<Json>, next: Pending)
    requires AllAscii(text)
    requires parse(text).Some? && Dispatch(pending, parse(text).value) == Some(next)
    ensures Pump(pending, EncodeFrame(text) + rest, parse) == Pump(next, rest, parse)
  {
    var buf := EncodeFrame(text) + rest;
    FramedText(text, rest, buf);
    PumpRound(pending, buf, parse);
  }

  /** A framed response to a waiting request fulfils that request. */
  lemma ReadsResponse(pending: Pending, text: string, rest: seq<byte>, parse: string -> Option<Json>, k: int)
    requires AllAscii(text)
    requires parse(text).Some? && parse(text).value.JObj?
    requires "id" in parse(text).value.fields && parse(text).value.fields["id"] == JInt(k)
    requires k in pending && pending[k].None?
    ensures Pump(pending, EncodeFrame(text) + rest, parse) == Pump(pending[k := Some(parse(text).value)], rest, parse)
  {
    ResponseFulfils(pending, k, parse(text).value);
    ReadsMessage(pending, text, rest, parse, pending[k := Some(parse(text).value)]);
  }

  /** A framed body that is not JSON is consumed and skipped. */
  lemma SkipsNonJson(pending: Pending, text: string, rest: seq<byte>, parse: string -> Option<Json>)
    requires AllAscii(text) && parse(text).None?
    ensures Pump(pending, EncodeFrame(text) + rest, parse) == Pump(pending, rest, parse)
  {
    var buf := EncodeFrame(text) + rest;
    FramedText(text, rest, buf);
    PumpRound(pending, buf, parse);
  }

  /** The frame of an ASCII text comes off the front of the buffer and decodes back to the text. */
  lemma FramedText(text: string, rest: seq<byte>, buf: seq<byte>)
    requires AllAscii(text) && buf == EncodeFrame(text) + rest
    ensures NextFrame(buf) == Frame(Encode(text), rest) && Decode(Encode(text)) == Some(text)
  {
    FrameRoundTrip(text, rest);
    DecodeEncode(text);
  }

  /** Once the front header block lacks a Content-Length, nothing more is ever read: later bytes only pile up. */
  lemma StalledForever(pending: Pending, buf: seq<byte>, more: seq<byte>, parse: string -> Option<Json>)
    requires NextFrame(buf) == Stall
    ensures Pump(pending, buf + more, parse) == ReaderState(pending, buf + more, true)
  {
    StallPersists(buf, more);
  }

  /** The futures answered by a run of framed responses, handled in arrival order. */
  function AnswerAll(pending: Pending, msgs: seq<Json>): Pending
    decreases |msgs|
  {
    if msgs == [] then pending
    else match Dispatch(pending, msgs[0])
      case Some(next) => AnswerAll(next, msgs[1..])
      case None => pending
  }

  /** Responses that arrive together are handled in the order they arrived. */
  lemma {:induction false} ReadsInOrder(pending: Pending, texts: seq<string>, msgs: seq<Json>, parse: string -> Option<Json>)
    requires |msgs| == |texts|
    requires forall i :: 0 <= i < |texts| ==> AllAscii(texts[i]) && parse(texts[i]) == Some(msgs[i])
    requires forall i :: 0 <= i < |msgs| ==> msgs[i].JObj? && "id" in msgs[i].fields && msgs[i].fields["id"].JInt?
    ensures Pump(pending, Stream(texts), parse) == ReaderState(AnswerAll(pending, msgs), [], true)
    decreases |texts|
  {
    if texts == [] {
      assert Stream(texts) == [];
      NothingFramed();
    } else {
      var next := Dispatch(pending, msgs[0]).value;
      assert Stream(texts) == EncodeFrame(texts[0]) + Stream(texts[1..]);
      ReadsMessage(pending, texts[0], Stream(texts[1..]), parse, next);
      ReadsInOrder(next, texts[1..], msgs[1..], parse);
    }
  }

  lemma NothingFramed()
    ensures NextFrame([]) == Wait
  {
  }
}
