/**
 * The documents the client has opened in the language server
 * (`backends/document_manager.py`): each file is announced with
 * `textDocument/didOpen` once, keyed by its resolved path, and all of them
 * are announced closed together.
 */
module DocumentManagers {
  import opened Wrappers
  import opened Sequences
  import opened PosixPath
  import opened Uri
  import opened Base
  import opened Messages
  import opened Channels

  /** `OpenDocument`; the opening time is the caller's clock reading. */
  datatype OpenDocument = OpenDocument(uri: string, version: int, openedAt: real)

  /** The didClose notification of one tracked document. */
  function CloseMessage(doc: OpenDocument): Message {
    Notification("textDocument/didClose", Some(DidCloseParams(doc.uri)))
  }

  /** The didClose notifications of the documents at `paths`, in that order. */
  function CloseMessages(paths: seq<Path>, tracked: map<Path, OpenDocument>): (ms: seq<Message>)
    requires forall i :: 0 <= i < |paths| ==> paths[i] in tracked
    ensures |ms| == |paths|
    ensures forall i :: 0 <= i < |paths| ==> ms[i] == CloseMessage(tracked[paths[i]])
  {
    seq(|paths|, i requires 0 <= i < |paths| => CloseMessage(tracked[paths[i]]))
  }

  lemma CloseMessagesSnoc(paths: seq<Path>, tracked: map<Path, OpenDocument>, i: nat)
    requires i < |paths| && forall j :: 0 <= j < |paths| ==> paths[j] in tracked
    ensures CloseMessages(paths[..i + 1], tracked) == CloseMessages(paths[..i], tracked) + [CloseMessage(tracked[paths[i]])]
  {
    assert paths[..i + 1] == paths[..i] + [paths[i]];
  }

  class DocumentManager {
    /** The tracked documents, by resolved path. */
    var tracked: map<Path, OpenDocument>
    /** The tracked paths in the order they were opened (a Python dict's iteration order). */
    var order: seq<Path>

    ghost predicate Valid()
      reads this
    {
      (forall p :: p in tracked <==> p in order) && Distinct(order)
    }

    constructor ()
      ensures Valid() && tracked == map[] && order == []
    {
      tracked := map[];
      order := [];
    }

    /** `is_open`: lookups go through the resolved path. */
    predicate IsOpen(fs: FileSystem, p: Path)
      reads this
    {
      fs.resolve(p) in tracked
    }

    /** `open_count`: the number of tracked documents. */
    function OpenCount(): (n: nat)
      requires Valid()
      reads this
      ensures n == |order|
    {
      assert tracked.Keys == set x | x in order;
      DistinctCard(order);
      |tracked|
    }

    /**
     * `ensure_open`: a tracked file is left alone; otherwise the file is
     * read (missing: FileNotFoundError, nothing sent or tracked), announced
     * with didOpen, and tracked once the announcement is written.
     */
    method EnsureOpen(fs: FileSystem, chan: Channel, p: Path, now: real) returns (err: Option<Exn>)
      requires Valid()
      modifies this, chan
      ensures Valid()
      ensures err.None? ==> IsOpen(fs, p)
      ensures chan.connected == old(chan.connected) && chan.alive == old(chan.alive)
      ensures var q := fs.resolve(p);
        if q in old(tracked) || q !in fs.files || (chan.connected && !chan.alive) then
          tracked == old(tracked) && order == old(order) && chan.sent == old(chan.sent)
          && err == (if q in old(tracked) then None else if q !in fs.files then Some(FileNotFound(q)) else Some(BrokenPipe))
        else
          var uri := PathToUri(fs, q);
          err == None
          && tracked == old(tracked)[q := OpenDocument(uri, 1, now)] && order == old(order) + [q]
          && chan.sent == old(chan.sent) + (if chan.connected then [Notification("textDocument/didOpen", Some(DidOpenParams(uri, fs.files[q])))] else [])
    {
      var q := fs.resolve(p);
      if q in tracked {
        return None;
      }
      if q !in fs.files {
        return Some(FileNotFound(q));
      }
      var content := fs.files[q];
      var uri := PathToUri(fs, q);
      err := chan.Notify("textDocument/didOpen", Some(DidOpenParams(uri, content)));
      if err.Some? {
        return;
      }
      assert q !in order;
      tracked := tracked[q := OpenDocument(uri, 1, now)];
      order := order + [q];
    }

    /**
     * `close_all`: one didClose per tracked document in opening order, then
     * nothing is tracked. A failed write stops the loop before the tracking
     * is cleared; since every write goes to the same pipe, the first fails.
     */
    method CloseAll(chan: Channel) returns (err: Option<Exn>)
      requires Valid()
      modifies this, chan
      ensures Valid()
      ensures chan.connected == old(chan.connected) && chan.alive == old(chan.alive)
      ensures err.Some? <==> chan.connected && !chan.alive && old(order) != []
      ensures err.Some? ==> err.value == BrokenPipe && tracked == old(tracked) && order == old(order) && chan.sent == old(chan.sent)
      ensures err.None? ==> tracked == map[] && order == []
      ensures err.None? ==> chan.sent == old(chan.sent) + (if chan.connected then CloseMessages(old(order), old(tracked)) else [])
    {
      var paths, docs, writes := order, tracked, chan.connected;
      var i := 0;
      while i < |paths|
        invariant 0 <= i <= |paths|
        invariant chan.connected == writes && chan.alive == old(chan.alive)
        invariant tracked == docs && order == paths
        invariant chan.sent == old(chan.sent) + (if writes then CloseMessages(paths[..i], docs) else [])
        invariant writes && !chan.alive ==> i == 0
      {
        err := chan.Notify("textDocument/didClose", Some(DidCloseParams(docs[paths[i]].uri)));
        if err.Some? {
          return;
        }
        CloseMessagesSnoc(paths, docs, i);
        i := i + 1;
      }
      assert paths[..i] == paths;
      tracked := map[];
      order := [];
      err := None;
    }

    /** `clear`: forget every document without telling the server. */
    method Clear()
      modifies this
      ensures Valid() && tracked == map[] && order == []
    {
      tracked := map[];
      order := [];
    }
  }
}
