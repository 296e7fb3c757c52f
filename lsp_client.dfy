/**
 * The client of one pyright language server subprocess
 * (`backends/lsp_client.py`, `LSPClient`): it starts and initializes the
 * server lazily, correlates requests with responses by id, opens documents
 * before asking about them, tears the connection down after a crash, and
 * shuts an idle server down.
 *
 * Operations run one at a time (the client's lock), so each method is one
 * atomic step. What the outside world does during a step is a `World`: the
 * file system, the clock reading, how spawning a server goes, and the bytes
 * the server writes back while a request waits for its response.
 */
module LspClient {
  import opened Wrappers
  import opened Json
  import opened Utf8
  import opened PosixPath
  import opened Uri
  import opened Base
  import opened Messages
  import opened Channels
  import opened DocumentManagers
  import opened LspReader
  import opened Decoders

  /** `LSPState`; `Initializing` is only seen inside a start, and nothing sets `SHUTDOWN`. */
  datatype LspState = NotStarted | Initializing | Ready

  /** `LSPProcess` without the OS process: the workspace and the last activity time. */
  datatype ProcessInfo = ProcessInfo(root: Path, lastActivity: real)

  /** How starting the server subprocess goes; a spawned server may already have exited. */
  datatype Spawn = Spawned(writable: bool) | ExecutableMissing | SpawnFailed

  /** What the outside world does during one operation. */
  datatype World = World(
    fs: FileSystem,
    now: real,                // `time.time()` during the operation
    spawn: Spawn,             // the outcome of starting a server, if one is started
    farewell: seq<byte>,      // what a server being shut down writes back
    handshake: seq<byte>,     // what a server being initialized writes back
    reply: seq<byte>)         // what the server writes back while a query waits

  /** The `initialize` parameters for the workspace `root`. */
  function InitParams(fs: FileSystem, root: Path, pid: int): Params {
    InitializeParams(pid, root, PathToUri(fs, root))
  }

  /** The server is told a root URI that reads back as the resolved workspace. */
  lemma InitRootReadsBack(fs: FileSystem, root: Path, pid: int)
    requires IsAbsolute(fs.resolve(root)) && Valid(fs.resolve(root))
    ensures var j := ParamsJson(InitParams(fs, root, pid));
      j.fields["rootUri"].JStr? && UriToPath(j.fields["rootUri"].s) == Ok(fs.resolve(root))
  {
    UriRoundTrip(fs, root);
  }

  /**
   * The `initialize` result the client accepts: a falsy one (read as no
   * capabilities), or an object whose "capabilities", when present, is an
   * object too; anything else fails the `.get` or the `.keys()` the client
   * logs it with.
   */
  predicate Accepted(result: Json) {
    !Truthy(result) || (result.JObj? && ("capabilities" !in result.fields || result.fields["capabilities"].JObj?))
  }

  /** The error raised when the server executable is missing. */
  function NotInstalled(command: string): (e: BackendError)
    ensures e.code == NotFound && !e.recoverable
  {
    MakeError(NotFound, "LSP server not found: " + command + ". Is pyright installed?")
  }

  /** The error raised when starting or initializing the server fails in any other way. */
  function InitFailed(): (e: BackendError)
    ensures e.code == LspCrash && e.recoverable
  {
    MakeError(LspCrash, "LSP server initialization failed", true)
  }

  /** The error of a request made while no server runs. */
  function NotRunning(): (e: BackendError)
    ensures e.code == LspNotReady && e.recoverable
  {
    MakeError(LspNotReady, "LSP server is not running", true)
  }

  // ---------------------------------------------------------------------
  // Queries

  /** The three position queries; a completion may name the character that triggered it. */
  datatype Query = HoverAt | DefinitionAt | CompletionAt(trigger: Option<string>)

  function QueryMethod(q: Query): string {
    match q
    case HoverAt => "textDocument/hover"
    case DefinitionAt => "textDocument/definition"
    case CompletionAt(_) => "textDocument/completion"
  }

  function QueryName(q: Query): string {
    match q
    case HoverAt => "Hover"
    case DefinitionAt => "Definition"
    case CompletionAt(_) => "Completion"
  }

  /** The error a query raises when anything other than a `BackendError` goes wrong. */
  function Failed(q: Query): (e: BackendError)
    ensures e.code == LspCrash && e.recoverable
  {
    MakeError(LspCrash, QueryName(q) + " request failed", true)
  }

  /** The parameters of a query: the document and the 0-indexed position, and a completion's trigger. */
  function QueryParams(uri: string, line: int, column: int, q: Query): Params {
    match q
    case CompletionAt(trigger) => CompletionParams(uri, line, column, trigger)
    case _ => PositionParams(uri, line, column)
  }

  /**
   * What a query returns once its request has an outcome, reading the result
   * with `decode`: a `BackendError` (timeout, an LSP error response) passes
   * through; any other failure, of the request or of the decoding, becomes
   * the query's generic error.
   */
  function Settle<T>(q: Query, out: Result<Json, Exn>, decode: Json -> Result<T, DecodeError>): Result<T, BackendError> {
    match out
    case Ok(v) => (match decode(v) case Ok(x) => Ok(x) case Err(_) => Err(Failed(q)))
    case Err(Backend(e)) => Err(e)
    case Err(_) => Err(Failed(q))
  }

  /** The failures after which a query tears the connection down. */
  predicate TearsDown<T>(out: Result<Json, Exn>, decode: Json -> Result<T, DecodeError>) {
    match out
    case Ok(v) => decode(v).Err?
    case Err(e) => !e.Backend?
  }

  /** A definition response always decodes. */
  function DecodeDefinition(result: Json): Result<seq<Location>, DecodeError> {
    Ok(ParseDefinition(result))
  }

  /** The reader's state once request `id` waits in `pending` and `incoming` has arrived. */
  function Reply(pending: Pending, id: int, inbox: seq<byte>, alive: bool, parse: string -> Option<Json>, incoming: seq<byte>): (st: ReaderState)
    ensures st.pending.Keys == pending.Keys + {id}
    ensures Answered(pending) ==> Answered(st.pending)
  {
    var table := pending[id := None];
    if alive then Pump(table, inbox + incoming, parse) else ReaderState(table, inbox, false)
  }

  /** The reader's state once the future of request `id` has been dropped. */
  function Settled(st: ReaderState, id: int): ReaderState {
    ReaderState(st.pending - {id}, st.buffer, st.alive)
  }

  class LSPClient {
    var state: LspState
    var process: Option<ProcessInfo>
    /** The id of the last request sent; 0 before the first. */
    var requestId: nat
    /** The futures of the requests awaiting a response. */
    var pending: Pending
    /** The bytes the background reader holds but has not yet framed. */
    var inbox: seq<byte>
    /** The background reader still runs. */
    var readerAlive: bool

    /** `lsp_timeout` of the configuration, in seconds. */
    const idleTimeout: real
    /** `lsp_command` of the configuration. */
    const command: seq<string>
    /** `os.getpid()`. */
    const pid: int
    /** `json.loads` on a decoded body. */
    const parseJson: string -> Option<Json>
    const docs: DocumentManager
    /** The server's stdin. */
    const chan: Channel

    /** The objects the client's operations change; fixed at construction, so reading it needs no frame. */
    ghost function Repr(): set<object> {
      {this, docs, chan}
    }

    /** What holds between and during operations, between the client and its pipe and reader. */
    ghost predicate Linked()
      reads this, chan
    {
      (chan.connected <==> process.Some?)
      && (!chan.connected ==> !readerAlive)
      && (forall k | k in pending :: k <= requestId)
      && Answered(pending)
    }

    /** What holds between operations: the client is either stopped or ready, and no request waits. */
    ghost predicate Valid()
      reads this, docs, chan
    {
      docs.Valid() && Linked()
      && (state == NotStarted || state == Ready)
      && (state == Ready <==> process.Some?)
      && pending == map[]
      && (state == NotStarted ==> Idle())
    }

    /** The state `_cleanup` leaves behind: no server, no documents, ids restart. */
    predicate Idle()
      reads this, docs, chan
    {
      state == NotStarted && process.None? && requestId == 0 && pending == map[]
      && inbox == [] && !readerAlive
      && docs.tracked == map[] && docs.order == []
      && !chan.connected && !chan.alive
    }

    /** Ready for `root`: the case in which `ensure_initialized` only refreshes the activity time. */
    predicate Warm(root: Path)
      reads this
    {
      state == Ready && process.Some? && process.value.root == root
    }

    constructor (idleTimeout: real, command: seq<string>, pid: int, parseJson: string -> Option<Json>)
      ensures Valid() && Idle()
      ensures this.idleTimeout == idleTimeout && this.command == command && this.pid == pid && this.parseJson == parseJson
      ensures fresh(docs) && fresh(chan)
    {
      this.idleTimeout := idleTimeout;
      this.command := command;
      this.pid := pid;
      this.parseJson := parseJson;
      state := NotStarted;
      process := None;
      requestId := 0;
      pending := map[];
      inbox := [];
      readerAlive := false;
      docs := new DocumentManager();
      chan := new Channel();
    }

    // -------------------------------------------------------------------
    // Requests

    /** The reader's state once the next request has been written and `incoming` has arrived. */
    function AfterSend(incoming: seq<byte>): ReaderState
      reads this`pending, this`requestId, this`inbox, this`readerAlive
    {
      Reply(pending, requestId + 1, inbox, readerAlive, parseJson, incoming)
    }

    /** The outcome of the next request, `name`, while `incoming` arrives. */
    function NextOutcome(name: string, incoming: seq<byte>): Result<Json, Exn>
      requires Answered(pending)
      reads this`pending, this`requestId, this`inbox, this`readerAlive
    {
      Outcome(name, Reply(pending, requestId + 1, inbox, readerAlive, parseJson, incoming).pending[requestId + 1])
    }

    /**
     * The background reader, fed `incoming`: it frames and handles messages
     * exactly as `Pump` says; a reader that has ended reads nothing.
     */
    method Receive(incoming: seq<byte>)
      requires Linked()
      modifies this
      ensures Linked()
      ensures state == old(state) && process == old(process) && requestId == old(requestId)
      ensures old(readerAlive) ==> ReaderState(pending, inbox, readerAlive) == Pump(old(pending), old(inbox) + incoming, parseJson)
      ensures !old(readerAlive) ==> pending == old(pending) && inbox == old(inbox) && !readerAlive
    {
      if !readerAlive {
        return;
      }
      var table, buf := pending, inbox + incoming;
      while true
        invariant Pump(table, buf, parseJson) == Pump(old(pending), old(inbox) + incoming, parseJson)
        invariant table.Keys == old(pending).Keys && Answered(table)
        decreases |buf|
      {
        var step := Framing.NextFrame(buf);
        if step.Wait? || step.Stall? {
          pending, inbox := table, buf;
          return;
        }
        if step.Fatal? {
          pending, inbox, readerAlive := table, buf, false;
          return;
        }
        var text := Decode(step.body);
        if text.None? {
          pending, inbox, readerAlive := table, step.rest, false;
          return;
        }
        var msg := parseJson(text.value);
        if msg.Some? {
          var next := Dispatch(table, msg.value);
          if next.None? {
            pending, inbox, readerAlive := table, step.rest, false;
            return;
          }
          table := next.value;
        }
        buf := step.rest;
      }
    }

    /**
     * `_send_request`: the request gets the next id and a waiting future, is
     * written to the server, and its outcome is what the reader makes of the
     * bytes that arrive meanwhile; the future is dropped in every case.
     */
    method SendRequest(name: string, params: Option<Params>, incoming: seq<byte>) returns (r: Result<Json, Exn>)
      requires Linked()
      modifies this, chan
      ensures Linked()
      ensures state == old(state) && process == old(process) && pending.Keys == old(pending.Keys)
      ensures chan.connected == old(chan.connected) && chan.alive == old(chan.alive)
      ensures old(process).None? ==>
        r == Err(Backend(NotRunning())) && requestId == old(requestId) && chan.sent == old(chan.sent)
        && pending == old(pending) && inbox == old(inbox) && readerAlive == old(readerAlive)
      ensures old(process).Some? ==> requestId == old(requestId) + 1
      ensures old(process).Some? && !old(chan.alive) ==>
        r == Err(BrokenPipe) && chan.sent == old(chan.sent)
        && pending == old(pending) && inbox == old(inbox) && readerAlive == old(readerAlive)
      ensures old(process).Some? && old(chan.alive) ==>
        chan.sent == old(chan.sent) + [Request(requestId, name, params)]
        && r == old(NextOutcome(name, incoming))
        && ReaderState(pending, inbox, readerAlive) == Settled(old(AfterSend(incoming)), requestId)
    {
      if process.None? {
        return Err(Backend(NotRunning()));
      }
      if !chan.alive {
        requestId := requestId + 1;
        var err := chan.Write(Request(requestId, name, params));
        return Err(BrokenPipe);
      }
      r := Deliver(name, params, incoming);
    }

    /** The request written to a live server, and the wait for its response. */
    method Deliver(name: string, params: Option<Params>, incoming: seq<byte>) returns (r: Result<Json, Exn>)
      requires Linked() && process.Some? && chan.alive
      modifies this, chan
      ensures Linked()
      ensures state == old(state) && process == old(process) && pending.Keys == old(pending.Keys)
      ensures chan.connected == old(chan.connected) && chan.alive == old(chan.alive)
      ensures requestId == old(requestId) + 1
      ensures chan.sent == old(chan.sent) + [Request(requestId, name, params)]
      ensures r == old(NextOutcome(name, incoming))
      ensures ReaderState(pending, inbox, readerAlive) == Settled(old(AfterSend(incoming)), requestId)
    {
      ghost var st := AfterSend(incoming);
      var id := requestId + 1;
      requestId := id;
      pending := pending[id := None];
      var _ := chan.Write(Request(id, name, params));
      Receive(incoming);
      assert ReaderState(pending, inbox, readerAlive) == st;
      r := Outcome(name, pending[id]);
      pending := pending - {id};
    }

    /** `_cleanup`: the reader is cancelled, the process killed, and all state forgotten. */
    method Cleanup()
      requires docs.Valid()
      modifies this, docs, chan
      ensures Valid() && Idle()
      ensures chan.sent == old(chan.sent)
    {
      readerAlive := false;
      inbox := [];
      chan.connected := false;
      chan.alive := false;
      process := None;
      state := NotStarted;
      docs.Clear();
      pending := map[];
      requestId := 0;
    }

    // -------------------------------------------------------------------
    // Lifecycle

    /**
     * What a graceful shutdown of a ready client writes: didClose for every
     * open document, the `shutdown` request, and `exit` once the shutdown was
     * acknowledged. A server that has exited is written nothing.
     */
    ghost function Goodbye(farewell: seq<byte>): seq<Message>
      requires Valid() && state == Ready
      reads this, docs, chan
    {
      if chan.alive then CloseMessages(docs.order, docs.tracked) + Ack(farewell) else []
    }

    /** The `shutdown` request, and the `exit` notification once the server acknowledged it. */
    ghost function Ack(farewell: seq<byte>): seq<Message>
      requires Answered(pending)
      reads this
    {
      [Request(requestId + 1, "shutdown", None)]
      + (if NextOutcome("shutdown", farewell).Ok? then [Notification("exit", None)] else [])
    }

    /** Asks a running server to shut down, and to exit once it has acknowledged. */
    method RequestExit(farewell: seq<byte>)
      requires Linked() && process.Some? && chan.alive
      modifies this, chan
      ensures Linked() && process == old(process)
      ensures chan.sent == old(chan.sent) + old(Ack(farewell))
    {
      var r := SendRequest("shutdown", None, farewell);
      if r.Ok? {
        var _ := chan.Notify("exit", None);
      }
    }

    /**
     * `shutdown` and `_shutdown_internal`: a stopped client is left alone;
     * otherwise the documents are closed, the server is asked to shut down
     * and exit, and whatever happens the client is cleaned up.
     */
    method Shutdown(farewell: seq<byte>)
      requires Valid()
      modifies this, docs, chan
      ensures Valid()
      ensures old(state) == NotStarted ==> unchanged(this, docs, chan)
      ensures old(state) == Ready ==> Idle() && chan.sent == old(chan.sent) + old(Goodbye(farewell))
    {
      if state == NotStarted {
        return;
      }
      var closed := docs.CloseAll(chan);
      if chan.alive {
        RequestExit(farewell);
      }
      Cleanup();
    }

    /** The outcome of the `initialize` request while a fresh server writes `handshake`. */
    function Handshake(handshake: seq<byte>): Result<Json, Exn> {
      Outcome("initialize", Reply(map[], 1, [], true, parseJson, handshake).pending[1])
    }

    /**
     * The state a successful start for `root` at `now` leaves: ready, the
     * `initialize` request as the only one sent, no open document, a live
     * pipe, and the reader as the handshake left it.
     */
    predicate Started(root: Path, now: real, handshake: seq<byte>)
      reads this, docs, chan
    {
      var st := Reply(map[], 1, [], true, parseJson, handshake);
      state == Ready && process == Some(ProcessInfo(root, now)) && requestId == 1
      && docs.order == [] && inbox == st.buffer && readerAlive == st.alive && chan.alive
    }

    /** The outcome of the first request after a start, `name` (request 2), while `incoming` arrives. */
    function FirstOutcome(name: string, handshake: seq<byte>, incoming: seq<byte>): Result<Json, Exn> {
      var st := Reply(map[], 1, [], true, parseJson, handshake);
      Outcome(name, Reply(map[], 2, st.buffer, st.alive, parseJson, incoming).pending[2])
    }

    /** Starting succeeds: a server runs, takes the `initialize` request and answers it acceptably. */
    predicate Starts(spawn: Spawn, handshake: seq<byte>) {
      command != [] && spawn == Spawned(true) && Handshake(handshake).Ok? && Accepted(Handshake(handshake).value)
    }

    /** The error of a start that fails. */
    function StartError(spawn: Spawn): (e: BackendError)
      ensures e.recoverable <==> !(spawn == ExecutableMissing && command != [])
    {
      if spawn == ExecutableMissing && command != [] then NotInstalled(command[0]) else InitFailed()
    }

    /**
     * A truthy `initialize` result whose "capabilities" is not an object
     * (null, a list, a string, a number, a boolean) fails the start, which
     * ends with the recoverable lsp_crash; `StartAndInitialize` then leaves
     * the client idle.
     */
    lemma NonObjectCapabilitiesFail(spawn: Spawn, handshake: seq<byte>, caps: Json)
      requires spawn.Spawned? && Handshake(handshake) == Ok(JObj(map["capabilities" := caps])) && !caps.JObj?
      ensures !Starts(spawn, handshake)
      ensures StartError(spawn) == InitFailed() && StartError(spawn).code == LspCrash && StartError(spawn).recoverable
    {
      var fields := map["capabilities" := caps];
      assert "capabilities" in fields && fields["capabilities"] == caps;
      assert !Accepted(JObj(fields));
    }

    /** What a start writes to the server: the `initialize` request, and `initialized` once it succeeded. */
    function Opening(fs: FileSystem, root: Path, spawn: Spawn, handshake: seq<byte>): seq<Message> {
      if command != [] && spawn == Spawned(true) then
        [Request(1, "initialize", Some(InitParams(fs, root, pid)))]
        + (if Starts(spawn, handshake) then [Notification("initialized", Some(EmptyParams))] else [])
      else []
    }

    /**
     * `_start_and_initialize`: spawn the server, start the reader, and run the
     * initialize handshake. A missing executable only resets the state; every
     * other failure cleans up.
     */
    method StartAndInitialize(fs: FileSystem, root: Path, spawn: Spawn, handshake: seq<byte>, now: real) returns (err: Option<BackendError>)
      requires Valid() && state == NotStarted
      modifies this, docs, chan
      ensures Valid()
      ensures err.None? <==> Starts(spawn, handshake)
      ensures err.Some? ==> err.value == StartError(spawn) && Idle()
      ensures chan.sent == old(chan.sent) + Opening(fs, root, spawn, handshake)
      ensures err.None? ==> Started(root, now, handshake)
    {
      if command == [] || !spawn.Spawned? {
        if spawn == ExecutableMissing && command != [] {
          return Some(NotInstalled(command[0]));
        }
        Cleanup();
        return Some(InitFailed());
      }
      err := Launch(fs, root, spawn.writable, handshake, now);
    }

    /** The server has been spawned: the reader starts and the initialize handshake runs. */
    method Launch(fs: FileSystem, root: Path, writable: bool, handshake: seq<byte>, now: real) returns (err: Option<BackendError>)
      requires Valid() && Idle() && command != []
      modifies this, docs, chan
      ensures Valid()
      ensures err.None? <==> Starts(Spawned(writable), handshake)
      ensures err.Some? ==> err.value == InitFailed() && Idle()
      ensures chan.sent == old(chan.sent) + Opening(fs, root, Spawned(writable), handshake)
      ensures err.None? ==> Started(root, now, handshake)
    {
      Connect(root, writable, now);
      var r := Initialize(fs, root, handshake);
      if r.Err? || !Accepted(r.value) {
        Cleanup();
        return Some(InitFailed());
      }
      var _ := chan.Notify("initialized", Some(EmptyParams));
      state := Ready;
      err := None;
    }

    /** The spawned server is recorded, its stdin connected, and the reader started on an empty buffer. */
    method Connect(root: Path, writable: bool, now: real)
      requires Valid() && Idle()
      modifies this, chan
      ensures Linked() && state == Initializing && process == Some(ProcessInfo(root, now))
      ensures requestId == 0 && pending == map[] && inbox == [] && readerAlive
      ensures chan.connected && chan.alive == writable && chan.sent == old(chan.sent)
    {
      state := Initializing;
      process := Some(ProcessInfo(root, now));
      chan.connected := true;
      chan.alive := writable;
      readerAlive := true;
    }

    /** The `initialize` request, sent to a freshly connected server. */
    method Initialize(fs: FileSystem, root: Path, handshake: seq<byte>) returns (r: Result<Json, Exn>)
      requires Linked() && state == Initializing && process.Some?
      requires requestId == 0 && pending == map[] && inbox == [] && readerAlive
      modifies this, chan
      ensures Linked() && state == Initializing && process == old(process) && requestId == 1 && pending == map[]
      ensures chan.connected == old(chan.connected) && chan.alive == old(chan.alive)
      ensures r == if chan.alive then Handshake(handshake) else Err(BrokenPipe)
      ensures chan.sent == old(chan.sent) + if chan.alive then [Request(1, "initialize", Some(InitParams(fs, root, pid)))] else []
      ensures chan.alive ==> var st := Reply(map[], 1, [], true, parseJson, handshake);
        inbox == st.buffer && readerAlive == st.alive
    {
      r := SendRequest("initialize", Some(InitParams(fs, root, pid)), handshake);
    }

    /**
     * `ensure_initialized`: a client ready for `root` only refreshes its
     * activity time; otherwise a running server is shut down and a new one
     * started for `root`.
     */
    method EnsureInitialized(w: World, root: Path) returns (err: Option<BackendError>)
      requires Valid()
      modifies this, docs, chan
      ensures Valid()
      ensures err.None? ==> Warm(root)
      ensures err.Some? ==> err.value == StartError(w.spawn) && Idle()
      ensures old(Warm(root)) ==>
        err.None? && process == Some(ProcessInfo(root, w.now))
        && requestId == old(requestId) && inbox == old(inbox) && readerAlive == old(readerAlive)
        && unchanged(docs, chan)
      ensures !old(Warm(root)) ==>
        (err.None? <==> Starts(w.spawn, w.handshake)) && (err.None? ==> Started(root, w.now, w.handshake))
        && chan.sent == old(chan.sent) + (if old(state) == Ready then old(Goodbye(w.farewell)) else [])
                        + Opening(w.fs, root, w.spawn, w.handshake)
    {
      if state == Ready && process.value.root == root {
        process := Some(process.value.(lastActivity := w.now));
        return None;
      }
      Shutdown(w.farewell);
      err := StartAndInitialize(w.fs, root, w.spawn, w.handshake, w.now);
    }

    /** `_handle_error`: a timeout leaves the server running; any other error cleans up. */
    method HandleError(e: Exn)
      requires Valid()
      modifies this, docs, chan
      ensures Valid()
      ensures e == AsyncTimeout ==> unchanged(this, docs, chan)
      ensures e != AsyncTimeout ==> Idle() && chan.sent == old(chan.sent)
    {
      if e == AsyncTimeout {
        return;
      }
      Cleanup();
    }

    /** A request about `file` reaches the server: the server is alive and the file is open or can be read. */
    ghost predicate Reaches(fs: FileSystem, file: Path)
      reads docs, chan
    {
      chan.alive && (fs.resolve(file) in docs.tracked || fs.resolve(file) in fs.files)
    }

    /** The client is ready for `file`'s workspace and a request about `file` reaches the server. */
    ghost predicate Serves(w: World, file: Path, projectRoot: Option<Path>)
      reads this, docs, chan
    {
      Warm(Workspace(file, projectRoot)) && Reaches(w.fs, file)
    }

    /**
     * The part `hover`, `definition` and `complete` share: make sure the
     * server runs for the workspace, refresh the activity time, open the
     * document and send the request. A `BackendError` propagates as it is;
     * any other failure is handled and becomes the query's generic error.
     */
    method Ask(w: World, q: Query, file: Path, line: int, column: int, projectRoot: Option<Path>) returns (r: Result<Json, BackendError>)
      requires Valid()
      modifies this, docs, chan
      ensures Valid()
      ensures r.Ok? ==> Warm(Workspace(file, projectRoot))
      ensures r.Err? ==> r.error.recoverable || r.error == StartError(w.spawn)
      ensures old(Warm(Workspace(file, projectRoot))) && !old(Serves(w, file, projectRoot)) ==>
        r == Err(Failed(q)) && Idle()
      ensures old(Serves(w, file, projectRoot)) ==>
        var out := old(NextOutcome(QueryMethod(q), w.reply));
        (out.Ok? ==> r == Ok(out.value) && state == Ready)
        && (out.Err? && out.error.Backend? ==> r == Err(out.error.err) && state == Ready)
        && (out.Err? && !out.error.Backend? ==> r == Err(Failed(q)) && Idle())
        && (state == Ready ==> process == Some(ProcessInfo(Workspace(file, projectRoot), w.now)))
      ensures !old(Warm(Workspace(file, projectRoot))) && !Starts(w.spawn, w.handshake) ==>
        r == Err(StartError(w.spawn)) && Idle()
      ensures !old(Warm(Workspace(file, projectRoot))) && Starts(w.spawn, w.handshake) && w.fs.resolve(file) !in w.fs.files ==>
        r == Err(Failed(q)) && Idle()
      ensures !old(Warm(Workspace(file, projectRoot))) && Starts(w.spawn, w.handshake) && w.fs.resolve(file) in w.fs.files ==>
        var out := FirstOutcome(QueryMethod(q), w.handshake, w.reply);
        (out.Ok? ==> r == Ok(out.value) && state == Ready)
        && (out.Err? && out.error.Backend? ==> r == Err(out.error.err) && state == Ready)
        && (out.Err? && !out.error.Backend? ==> r == Err(Failed(q)) && Idle())
        && (state == Ready ==> process == Some(ProcessInfo(Workspace(file, projectRoot), w.now)))
    {
      var workspace := Workspace(file, projectRoot);
      var started := EnsureInitialized(w, workspace);
      if started.Some? {
        return Err(started.value);
      }
      if !old(Warm(workspace)) {
        assert NextOutcome(QueryMethod(q), w.reply) == FirstOutcome(QueryMethod(q), w.handshake, w.reply);
        assert w.fs.resolve(file) !in docs.tracked;
      }
      r := AskReady(w, q, file, line, column, workspace);
    }

    /** A query to a server that is ready for the workspace `ws`. */
    method AskReady(w: World, q: Query, file: Path, line: int, column: int, ws: Path) returns (r: Result<Json, BackendError>)
      requires Valid() && Warm(ws)
      modifies this, docs, chan
      ensures Valid()
      ensures r.Ok? ==> Warm(ws)
      ensures r.Err? ==> r.error.recoverable
      ensures !old(Reaches(w.fs, file)) ==> r == Err(Failed(q)) && Idle()
      ensures old(Reaches(w.fs, file)) ==>
        var out := old(NextOutcome(QueryMethod(q), w.reply));
        (out.Ok? ==> r == Ok(out.value) && state == Ready)
        && (out.Err? && out.error.Backend? ==> r == Err(out.error.err) && state == Ready)
        && (out.Err? && !out.error.Backend? ==> r == Err(Failed(q)) && Idle())
        && (state == Ready ==> process == Some(ProcessInfo(ws, w.now)))
    {
      ghost var out := NextOutcome(QueryMethod(q), w.reply);
      process := Some(process.value.(lastActivity := w.now));
      var openErr := docs.EnsureOpen(w.fs, chan, file, w.now);
      if openErr.Some? {
        HandleError(openErr.value);
        return Err(Failed(q));
      }
      assert out == NextOutcome(QueryMethod(q), w.reply);
      r := SendQuery(q, PathToUri(w.fs, file), line, column, w.reply);
    }

    /** The query's request, sent once its document is open, and what becomes of its outcome. */
    method SendQuery(q: Query, uri: string, line: int, column: int, reply: seq<byte>) returns (r: Result<Json, BackendError>)
      requires Valid() && state == Ready
      modifies this, docs, chan
      ensures Valid()
      ensures r.Ok? ==> state == Ready && process == old(process)
      ensures r.Err? ==> r.error.recoverable
      ensures !old(chan.alive) ==> r == Err(Failed(q)) && Idle()
      ensures old(chan.alive) ==> var out := old(NextOutcome(QueryMethod(q), reply));
        (out.Ok? ==> r == Ok(out.value) && state == Ready)
        && (out.Err? && out.error.Backend? ==> r == Err(out.error.err) && state == Ready)
        && (out.Err? && !out.error.Backend? ==> r == Err(Failed(q)) && Idle())
      ensures state == Ready ==> process == old(process)
    {
      var out := SendRequest(QueryMethod(q), Some(QueryParams(uri, line, column, q)), reply);
      assert pending.Keys == {};
      if out.Ok? {
        r := Ok(out.value);
      } else if out.error.Backend? {
        r := Err(out.error.err);
      } else {
        HandleError(out.error);
        r := Err(Failed(q));
      }
    }

    /** `hover`: the hover information at a position. */
    method Hover(w: World, file: Path, line: int, column: int, projectRoot: Option<Path>) returns (r: Result<HoverResult, BackendError>)
      requires Valid()
      modifies this, docs, chan
      ensures Valid()
      ensures r.Ok? ==> Warm(Workspace(file, projectRoot))
      ensures old(Serves(w, file, projectRoot)) ==>
        var out := old(NextOutcome("textDocument/hover", w.reply));
        r == Settle(HoverAt, out, ParseHover) && (Idle() <==> TearsDown(out, ParseHover))
      ensures old(Warm(Workspace(file, projectRoot))) && !old(Serves(w, file, projectRoot)) ==>
        r == Err(Failed(HoverAt)) && Idle()
      ensures !old(Warm(Workspace(file, projectRoot))) && !Starts(w.spawn, w.handshake) ==>
        r == Err(StartError(w.spawn)) && Idle()
      ensures !old(Warm(Workspace(file, projectRoot))) && Starts(w.spawn, w.handshake) && w.fs.resolve(file) !in w.fs.files ==>
        r == Err(Failed(HoverAt)) && Idle()
      ensures !old(Warm(Workspace(file, projectRoot))) && Starts(w.spawn, w.handshake) && w.fs.resolve(file) in w.fs.files ==>
        var out := FirstOutcome("textDocument/hover", w.handshake, w.reply);
        r == Settle(HoverAt, out, ParseHover) && (Idle() <==> TearsDown(out, ParseHover))
    {
      var a := Ask(w, HoverAt, file, line, column, projectRoot);
      if a.Err? {
        return Err(a.error);
      }
      var d := ParseHover(a.value);
      if d.Err? {
        HandleError(OtherExn);
        return Err(Failed(HoverAt));
      }
      r := Ok(d.value);
    }

    /** `definition`: where the symbol at a position is defined. */
    method Definition(w: World, file: Path, line: int, column: int, projectRoot: Option<Path>) returns (r: Result<seq<Location>, BackendError>)
      requires Valid()
      modifies this, docs, chan
      ensures Valid()
      ensures r.Ok? ==> Warm(Workspace(file, projectRoot))
      ensures old(Serves(w, file, projectRoot)) ==>
        var out := old(NextOutcome("textDocument/definition", w.reply));
        r == Settle(DefinitionAt, out, DecodeDefinition) && (Idle() <==> TearsDown(out, DecodeDefinition))
      ensures old(Warm(Workspace(file, projectRoot))) && !old(Serves(w, file, projectRoot)) ==>
        r == Err(Failed(DefinitionAt)) && Idle()
      ensures !old(Warm(Workspace(file, projectRoot))) && !Starts(w.spawn, w.handshake) ==>
        r == Err(StartError(w.spawn)) && Idle()
      ensures !old(Warm(Workspace(file, projectRoot))) && Starts(w.spawn, w.handshake) && w.fs.resolve(file) !in w.fs.files ==>
        r == Err(Failed(DefinitionAt)) && Idle()
      ensures !old(Warm(Workspace(file, projectRoot))) && Starts(w.spawn, w.handshake) && w.fs.resolve(file) in w.fs.files ==>
        var out := FirstOutcome("textDocument/definition", w.handshake, w.reply);
        r == Settle(DefinitionAt, out, DecodeDefinition) && (Idle() <==> TearsDown(out, DecodeDefinition))
    {
      var a := Ask(w, DefinitionAt, file, line, column, projectRoot);
      if a.Err? {
        return Err(a.error);
      }
      r := Ok(ParseDefinition(a.value));
    }

    /** `complete`: the completion items at a position, and whether the list is incomplete. */
    method Complete(w: World, file: Path, line: int, column: int, projectRoot: Option<Path>, trigger: Option<string>)
      returns (r: Result<(seq<CompletionItem>, Json), BackendError>)
      requires Valid()
      modifies this, docs, chan
      ensures Valid()
      ensures r.Ok? ==> Warm(Workspace(file, projectRoot))
      ensures old(Serves(w, file, projectRoot)) ==>
        var out := old(NextOutcome("textDocument/completion", w.reply));
        r == Settle(CompletionAt(trigger), out, ParseCompletion) && (Idle() <==> TearsDown(out, ParseCompletion))
      ensures old(Warm(Workspace(file, projectRoot))) && !old(Serves(w, file, projectRoot)) ==>
        r == Err(Failed(CompletionAt(trigger))) && Idle()
      ensures !old(Warm(Workspace(file, projectRoot))) && !Starts(w.spawn, w.handshake) ==>
        r == Err(StartError(w.spawn)) && Idle()
      ensures !old(Warm(Workspace(file, projectRoot))) && Starts(w.spawn, w.handshake) && w.fs.resolve(file) !in w.fs.files ==>
        r == Err(Failed(CompletionAt(trigger))) && Idle()
      ensures !old(Warm(Workspace(file, projectRoot))) && Starts(w.spawn, w.handshake) && w.fs.resolve(file) in w.fs.files ==>
        var out := FirstOutcome("textDocument/completion", w.handshake, w.reply);
        r == Settle(CompletionAt(trigger), out, ParseCompletion) && (Idle() <==> TearsDown(out, ParseCompletion))
    {
      var a := Ask(w, CompletionAt(trigger), file, line, column, projectRoot);
      if a.Err? {
        return Err(a.error);
      }
      var d := ParseCompletion(a.value);
      if d.Err? {
        HandleError(OtherExn);
        return Err(Failed(CompletionAt(trigger)));
      }
      r := Ok(d.value);
    }

    /** `check_idle_timeout`: a ready server idle for at least the timeout is shut down. */
    method CheckIdleTimeout(now: real, farewell: seq<byte>) returns (shut: bool)
      requires Valid()
      modifies this, docs, chan
      ensures Valid()
      ensures shut <==> old(state) == Ready && now - old(process).value.lastActivity >= idleTimeout
      ensures shut ==> Idle() && chan.sent == old(chan.sent) + old(Goodbye(farewell))
      ensures !shut ==> unchanged(this, docs, chan)
    {
      if state != Ready || process.None? {
        return false;
      }
      if now - process.value.lastActivity >= idleTimeout {
        Shutdown(farewell);
        return true;
      }
      return false;
    }
  }

  /** The workspace of a query: the project root when given, else the file's directory. */
  function Workspace(file: Path, projectRoot: Option<Path>): Path {
    if projectRoot.Some? then projectRoot.value else Parent(file)
  }
}
