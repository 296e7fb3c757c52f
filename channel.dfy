/**
 * The language server's stdin as the client writes to it
 * (`backends/lsp_client.py`, `send_notification` and `_send_request`).
 *
 * Messages are kept as `Message` values, oldest first; the JSON object of
 * each is `Wire`'s and its byte framing the Framing module's. A channel is
 * connected while the client has a subprocess, and writes to it succeed
 * while that subprocess is alive.
 */
module Channels {
  import opened Wrappers
  import opened Base
  import opened Messages

  class Channel {
    /** The client has a subprocess with a stdin pipe. */
    var connected: bool
    /** Writes to the pipe succeed (the subprocess has not exited). */
    var alive: bool
    /** Every message written, oldest first. */
    var sent: seq<Message>

    constructor ()
      ensures !connected && !alive && sent == []
    {
      connected := false;
      alive := false;
      sent := [];
    }

    /**
     * `send_notification`: nothing is written when there is no subprocess;
     * a dead subprocess makes the write fail with a broken pipe.
     */
    method Notify(name: string, params: Option<Params>) returns (err: Option<Exn>)
      modifies this
      ensures connected == old(connected) && alive == old(alive)
      ensures err.Some? <==> connected && !alive
      ensures err.Some? ==> err.value == BrokenPipe
      ensures sent == if connected && alive then old(sent) + [Notification(name, params)] else old(sent)
    {
      if !connected {
        return None;
      }
      err := Write(Notification(name, params));
    }

    /** Writes one message to the pipe. */
    method Write(m: Message) returns (err: Option<Exn>)
      modifies this
      ensures connected == old(connected) && alive == old(alive)
      ensures err.Some? <==> !alive
      ensures err.Some? ==> err.value == BrokenPipe
      ensures sent == if alive then old(sent) + [m] else old(sent)
    {
      if !alive {
        return Some(BrokenPipe);
      }
      sent := sent + [m];
      err := None;
    }
  }
}
