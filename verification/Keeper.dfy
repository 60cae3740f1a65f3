/** The `Keeper` object (pcbridge/browser/keeper.py), its buffers updated in place. */
module KeeperObject {
  import opened Wrappers
  import opened Utf8
  import opened Newlines
  import opened KeeperProtocol

  class Keeper {
    var client: Option<nat>
    var fromClient: Bytes
    var fromPipe: Bytes
    var toClient: Bytes
    var pipe: Bytes
    ghost var browser: Bytes
    ghost var conns: seq<Conn>
    ghost var farewell: Bytes

    ghost function View(): State
      reads this
    {
      State(client, fromClient, fromPipe, toClient, pipe, browser, conns, farewell)
    }

    constructor ()
      ensures View() == Start
    {
      client, fromClient, fromPipe, toClient, pipe := None, [], [], [], [];
      browser, conns, farewell := [], [], [];
    }

    method DropClient()
      modifies this
      ensures View() == Drop(old(View()))
    {
      client, fromClient, toClient := None, [], [];
    }

    /** `_write_pipe`: the pipe takes any non-empty part of the rest at a time. */
    method WritePipe(data: Bytes)
      modifies this`pipe
      ensures pipe == old(pipe) + data
    {
      var view := data;
      while view != []
        invariant pipe + view == old(pipe) + data
        decreases |view|
      {
        var n :| 1 <= n <= |view|;
        Assoc(pipe, view[..n], view[n..]);
        assert view[..n] + view[n..] == view;
        pipe := pipe + view[..n];
        view := view[n..];
      }
    }

    /** A new client replaces the old one; `conn` is the connection just accepted. */
    method Accept(conn: nat)
      requires Enabled(View(), Accepts) && conn == |conns|
      modifies this
      ensures View() == Step(old(View()), Accepts)
    {
      DropClient();
      client := Some(conn);
      conns := conns + [Conn([], [], |browser|)];
    }

    /** A chunk from the browser: only whole messages are kept for the client, if there is one. */
    method ReadPipe(chunk: Bytes)
      requires Enabled(View(), PipeBytes(chunk))
      modifies this
      ensures View() == Step(old(View()), PipeBytes(chunk))
    {
      fromPipe := fromPipe + chunk;
      var cut := AfterLast(fromPipe, 0);
      if cut > 0 {
        var whole := fromPipe[..cut];
        fromPipe := fromPipe[cut..];
        if client.Some? {
          toClient := toClient + whole;
        }
      }
      browser := browser + chunk;
    }

    /** A chunk from the client: only whole messages go on to the browser. */
    method ReadClient(chunk: Bytes)
      requires Enabled(View(), ClientBytes(chunk))
      modifies this
      ensures View() == Step(old(View()), ClientBytes(chunk))
    {
      fromClient := fromClient + chunk;
      var cut := AfterLast(fromClient, 0);
      if cut > 0 {
        WritePipe(fromClient[..cut]);
        fromClient := fromClient[cut..];
      }
      conns := conns[client.value := conns[client.value].(received := conns[client.value].received + chunk)];
    }

    /** The client's socket takes `n` of the waiting bytes. */
    method SendClient(n: nat)
      requires Enabled(View(), Sends(n))
      modifies this
      ensures View() == Step(old(View()), Sends(n))
    {
      conns := conns[client.value := conns[client.value].(sent := conns[client.value].sent + toClient[..n])];
      toClient := toClient[n..];
    }

    method CloseBrowser(m: Bytes)
      requires Enabled(View(), Stops(m))
      modifies this
      ensures View() == Step(old(View()), Stops(m))
    {
      WritePipe(m);
      farewell := m;
    }

    /** The loop of `run`, over whatever the selector reports; `listening` numbers the next
        connection. */
    method Run(es: seq<Event>, listening: nat)
      requires ValidRun(View(), es) && listening == |conns|
      modifies this
      ensures View() == Exec(old(View()), es)
    {
      var i, accepted := 0, listening;
      while i < |es|
        invariant i <= |es| && ValidRun(View(), es[i..]) && accepted == |conns|
        invariant Exec(View(), es[i..]) == Exec(old(View()), es)
      {
        assert es[i..][0] == es[i] && es[i..][1..] == es[i + 1..];
        match es[i] {
          case Accepts =>
            Accept(accepted);
            accepted := accepted + 1;
          case PipeBytes(chunk) => ReadPipe(chunk);
          case ClientBytes(chunk) => ReadClient(chunk);
          case ClientGone => DropClient();
          case Sends(n) => SendClient(n);
          case Stops(m) => CloseBrowser(m);
        }
        i := i + 1;
      }
    }
  }
}
